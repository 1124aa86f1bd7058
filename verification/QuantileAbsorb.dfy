/**
 * How a tree of buffers absorbs another one: the relation that every operation of a quantile
 * entry keeps between the tree before, what was added, and the tree after.
 */
module QuantileAbsorb {
  import opened ByteStrings
  import opened QuantileSummary

  /** Every retained element comes from `pool`. */
  ghost predicate Drawn(tree: Tree, pool: seq<Bytes>) {
    forall j, x :: 0 <= j < |tree| && x in tree[j] ==> x in pool
  }

  /** What an operation adds to a tree: one buffer at some level, or the levels of another tree. */
  datatype Parcel = One(level: nat, buf: seq<Bytes>) | Levels(tree: Tree)

  const NOTHING := Levels([])

  function Load(p: Parcel, c: Cut): (n: nat) {
    match p
    case One(level, buf) => Worth(level, Count(buf, c))
    case Levels(tree) => Retained(tree, c)
  }

  function LoadAbove(p: Parcel, l: nat): (n: nat) {
    match p
    case One(level, buf) => if level <= l then 0 else Worth(level, |buf|)
    case Levels(tree) => MassAbove(tree, l)
  }

  ghost predicate From(p: Parcel, pool: seq<Bytes>) {
    match p
    case One(_, buf) => forall x :: x in buf ==> x in pool
    case Levels(tree) => Drawn(tree, pool)
  }

  /** `z` weighs what `x` and `y` weigh together. */
  ghost predicate Together(z: Parcel, x: Parcel, y: Parcel) {
    && (forall c :: Load(z, c) == Load(x, c) + Load(y, c))
    && (forall l: nat :: 1 <= l ==> LoadAbove(z, l) == LoadAbove(x, l) + LoadAbove(y, l))
    && (forall pool :: From(z, pool) ==> From(x, pool) && From(y, pool))
  }

  /** Ranks grow by what was added plus at most the cost of the new collapses. */
  ghost predicate RanksGrow(before: Tree, added: Parcel, after: Tree, spent: int) {
    forall c :: 0 <= Retained(after, c) - Retained(before, c) - Load(added, c) <= spent
  }

  /** Mass rises above a level only with what was added there or by a collapse at that level. */
  ghost predicate MassGrows(k: nat, before: Tree, log0: seq<nat>, added: Parcel, after: Tree, log1: seq<nat>) {
    forall l: nat :: 1 <= l ==>
      MassAbove(after, l) == MassAbove(before, l) + LoadAbove(added, l) + Lifted(k, log1, l) - Lifted(k, log0, l)
  }

  ghost predicate Absorbs(k: nat, before: Tree, log0: seq<nat>, added: Parcel, after: Tree, log1: seq<nat>) {
    && RanksGrow(before, added, after, Cost(log1) - Cost(log0))
    && Retained(after, Everything) == Retained(before, Everything) + Load(added, Everything)
    && MassGrows(k, before, log0, added, after, log1)
    && (forall l :: l in log1 ==> l in log0 || 1 <= l <= |after| - 2)
    && (forall pool :: Drawn(before, pool) && From(added, pool) ==> Drawn(after, pool))
    && |before| <= |after|
  }

  /** Absorbing `x` and then `y` absorbs both. */
  lemma AbsorbsThen(k: nat, a: Tree, l0: seq<nat>, x: Parcel, b: Tree, l1: seq<nat>, y: Parcel, c: Tree, l2: seq<nat>, z: Parcel)
    requires Absorbs(k, a, l0, x, b, l1) && Absorbs(k, b, l1, y, c, l2)
    requires Together(z, x, y)
    ensures Absorbs(k, a, l0, z, c, l2)
  {
    forall cut ensures 0 <= Retained(c, cut) - Retained(a, cut) - Load(z, cut) <= Cost(l2) - Cost(l0) {
      assert 0 <= Retained(b, cut) - Retained(a, cut) - Load(x, cut) <= Cost(l1) - Cost(l0);
    }
    forall l: nat | 1 <= l
      ensures MassAbove(c, l) == MassAbove(a, l) + LoadAbove(z, l) + Lifted(k, l2, l) - Lifted(k, l0, l)
    {
      assert MassAbove(b, l) == MassAbove(a, l) + LoadAbove(x, l) + Lifted(k, l1, l) - Lifted(k, l0, l);
    }
  }

  /** Absorbing `y` into `t1` is absorbing `x` into `t` if the two weigh the same up to the collapses in between. */
  lemma AbsorbsVia(k: nat, t: Tree, log: seq<nat>, x: Parcel, t1: Tree, logged: seq<nat>, y: Parcel, after: Tree, log1: seq<nat>)
    requires Absorbs(k, t1, logged, y, after, log1)
    requires forall c :: 0 <= Retained(t1, c) + Load(y, c) - Retained(t, c) - Load(x, c) <= Cost(logged) - Cost(log)
    requires Retained(t1, Everything) + Load(y, Everything) == Retained(t, Everything) + Load(x, Everything)
    requires forall l: nat :: 1 <= l ==>
      MassAbove(t1, l) + LoadAbove(y, l) - Lifted(k, logged, l) == MassAbove(t, l) + LoadAbove(x, l) - Lifted(k, log, l)
    requires forall pool :: Drawn(t, pool) && From(x, pool) ==> Drawn(t1, pool) && From(y, pool)
    requires forall l :: l in logged ==> l in log || 1 <= l <= |after| - 2
    requires |t| <= |after|
    ensures Absorbs(k, t, log, x, after, log1)
  {
    forall c ensures 0 <= Retained(after, c) - Retained(t, c) - Load(x, c) <= Cost(log1) - Cost(log) {
      assert 0 <= Retained(after, c) - Retained(t1, c) - Load(y, c) <= Cost(log1) - Cost(logged);
    }
    forall l: nat | 1 <= l
      ensures MassAbove(after, l) == MassAbove(t, l) + LoadAbove(x, l) + Lifted(k, log1, l) - Lifted(k, log, l)
    {
      assert MassAbove(after, l) == MassAbove(t1, l) + LoadAbove(y, l) + Lifted(k, log1, l) - Lifted(k, logged, l);
    }
  }

  lemma AbsorbsNothing(k: nat, t: Tree, log: seq<nat>, size: nat)
    ensures Absorbs(k, t, log, NOTHING, Extend(t, size), log)
  {
    forall c ensures Retained(Extend(t, size), c) == Retained(t, c) { ExtendKeeps(t, size, c, 0); }
    forall l: nat ensures MassAbove(Extend(t, size), l) == MassAbove(t, l) { ExtendKeeps(t, size, Everything, l); }
  }

  /** Adding the load of one buffer exactly, with no collapse, is absorbing it. */
  lemma ExactAbsorbs(k: nat, t: Tree, log: seq<nat>, added: Parcel, after: Tree)
    requires forall c :: Retained(after, c) == Retained(t, c) + Load(added, c)
    requires forall l: nat :: 1 <= l ==> MassAbove(after, l) == MassAbove(t, l) + LoadAbove(added, l)
    requires forall pool :: Drawn(t, pool) && From(added, pool) ==> Drawn(after, pool)
    requires |t| <= |after|
    ensures Absorbs(k, t, log, added, after, log)
  {
  }

  /** A buffer can be put on an empty level for free. */
  lemma PlaceAbsorbs(k: nat, t: Tree, log: seq<nat>, level: nat, buf: seq<Bytes>)
    requires level < |t| && t[level] == []
    ensures Absorbs(k, t, log, One(level, buf), t[level := buf], log)
  {
    var after, added := t[level := buf], One(level, buf);
    forall c ensures Retained(after, c) == Retained(t, c) + Load(added, c) {
      RetainedUpdate(t, level, buf, c);
    }
    forall l: nat ensures MassAbove(after, l) == MassAbove(t, l) + LoadAbove(added, l) {
      MassAboveUpdate(t, level, buf, l);
    }
    forall pool | Drawn(t, pool) && From(added, pool) ensures Drawn(after, pool) {
    }
    ExactAbsorbs(k, t, log, added, after);
  }

  /** An element can be appended to either leaf: both have weight 1. */
  lemma AppendAbsorbs(k: nat, t: Tree, log: seq<nat>, leaf: nat, e: Bytes)
    requires leaf < |t| && leaf <= 1
    ensures Absorbs(k, t, log, One(0, [e]), t[leaf := t[leaf] + [e]], log)
  {
    var after, added := t[leaf := t[leaf] + [e]], One(0, [e]);
    forall c ensures Retained(after, c) == Retained(t, c) + Load(added, c) {
      CountConcat(t[leaf], [e], c);
      RetainedUpdate(t, leaf, t[leaf] + [e], c);
    }
    forall l: nat | 1 <= l ensures MassAbove(after, l) == MassAbove(t, l) + LoadAbove(added, l) {
      MassAboveUpdate(t, leaf, t[leaf] + [e], l);
    }
    forall pool | Drawn(t, pool) && From(added, pool) ensures Drawn(after, pool) {
    }
    ExactAbsorbs(k, t, log, added, after);
  }

  /**
   * The carry step. A full buffer arrives at a full level; the level is emptied, and what the two
   * collapse to arrives one level up. The price is one collapse of that level.
   */
  lemma CarryAbsorbs(k: nat, t: Tree, log: seq<nat>, level: nat, buf: seq<Bytes>, merged: seq<Bytes>, after: Tree, log1: seq<nat>)
    requires 1 <= level < |t| && level + 2 <= |after| && |t| <= |after|
    requires |t[level]| == k && IsCollapse(t[level], buf, merged)
    requires Absorbs(k, t[level := []], log + [level], One(level + 1, merged), after, log1)
    ensures Absorbs(k, t, log, One(level, buf), after, log1)
  {
    var x, y, t1, logged := One(level, buf), One(level + 1, merged), t[level := []], log + [level];
    assert logged[..|log|] == log;
    assert Cost(logged) == Cost(log) + Weight(level);
    forall c ensures 0 <= Retained(t1, c) + Load(y, c) - Retained(t, c) - Load(x, c) <= Cost(logged) - Cost(log) {
      CollapseRank(t[level], buf, merged, level, c);
      RetainedUpdate(t, level, [], c);
    }
    CarryTotal(t, level, buf, merged);
    forall l: nat | 1 <= l
      ensures MassAbove(t1, l) + LoadAbove(y, l) - Lifted(k, logged, l) == MassAbove(t, l) + LoadAbove(x, l) - Lifted(k, log, l)
    {
      CarryMass(k, t, log, level, buf, merged, l);
    }
    AbsorbsVia(k, t, log, x, t1, logged, y, after, log1);
  }

  lemma CarryTotal(t: Tree, level: nat, buf: seq<Bytes>, merged: seq<Bytes>)
    requires 1 <= level < |t| && |buf| == |t[level]| == |merged|
    ensures Retained(t[level := []], Everything) + Load(One(level + 1, merged), Everything)
         == Retained(t, Everything) + Load(One(level, buf), Everything)
  {
    CountEverything(t[level]); CountEverything(buf); CountEverything(merged);
    RetainedUpdate(t, level, [], Everything);
  }

  lemma CarryMass(k: nat, t: Tree, log: seq<nat>, level: nat, buf: seq<Bytes>, merged: seq<Bytes>, l: nat)
    requires 1 <= level < |t| && 1 <= l
    requires |buf| == |t[level]| == |merged| == k
    ensures MassAbove(t[level := []], l) + LoadAbove(One(level + 1, merged), l) - Lifted(k, log + [level], l)
         == MassAbove(t, l) + LoadAbove(One(level, buf), l) - Lifted(k, log, l)
  {
    assert (log + [level])[..|log|] == log;
    MassAboveUpdate(t, level, [], l);
  }

  /** A buffer can be put on an empty level, growing the tree if need be. */
  lemma PlaceAfterExtend(k: nat, t: Tree, log: seq<nat>, level: nat, buf: seq<Bytes>)
    requires level < |t| ==> t[level] == []
    ensures Absorbs(k, t, log, One(level, buf), Extend(t, level + 1)[level := buf], log)
  {
    var e := Extend(t, level + 1);
    AbsorbsNothing(k, t, log, level + 1);
    PlaceAbsorbs(k, e, log, level, buf);
    AbsorbsThen(k, t, log, NOTHING, e, log, One(level, buf), e[level := buf], log, One(level, buf));
  }

  lemma SameMembers(s: seq<Bytes>, t: seq<Bytes>, x: Bytes)
    requires multiset(s) == multiset(t)
    ensures x in s <==> x in t
  {
    assert x in s <==> x in multiset(s);
    assert x in t <==> x in multiset(t);
  }

  /**
   * Both leaves sorted, and the first taken out to collapse with the second: the same load,
   * because the two leaves have the same weight.
   */
  lemma TakeLeaf(t: Tree)
    requires |t| >= 2
    ensures forall c :: Retained(t, c) == Retained(t[0 := []][1 := Sort(t[1])], c) + Load(One(1, Sort(t[0])), c)
    ensures forall l: nat :: 1 <= l ==> MassAbove(t, l) == MassAbove(t[0 := []][1 := Sort(t[1])], l) + LoadAbove(One(1, Sort(t[0])), l)
    ensures forall pool :: Drawn(t, pool) ==> Drawn(t[0 := []][1 := Sort(t[1])], pool) && From(One(1, Sort(t[0])), pool)
  {
    var t0 := t[0 := []];
    forall c ensures Retained(t, c) == Retained(t0[1 := Sort(t[1])], c) + Load(One(1, Sort(t[0])), c) {
      CountSort(t[0], c);
      CountSort(t[1], c);
      RetainedUpdate(t, 0, [], c);
      RetainedUpdate(t0, 1, Sort(t[1]), c);
    }
    forall l: nat | 1 <= l ensures MassAbove(t, l) == MassAbove(t0[1 := Sort(t[1])], l) + LoadAbove(One(1, Sort(t[0])), l) {
      MassAboveUpdate(t, 0, [], l);
      MassAboveUpdate(t0, 1, Sort(t[1]), l);
    }
    forall pool | Drawn(t, pool) ensures Drawn(t0[1 := Sort(t[1])], pool) && From(One(1, Sort(t[0])), pool) {
      SortSorts(t[0]);
      SortSorts(t[1]);
      forall x ensures (x in Sort(t[0]) <==> x in t[0]) && (x in Sort(t[1]) <==> x in t[1]) {
        SameMembers(Sort(t[0]), t[0], x);
        SameMembers(Sort(t[1]), t[1], x);
      }
    }
  }

  /** Collapsing the leaves absorbs nothing. */
  lemma LeavesAbsorb(k: nat, t: Tree, log: seq<nat>, after: Tree, log1: seq<nat>)
    requires |t| >= 2
    requires Absorbs(k, t[0 := []][1 := Sort(t[1])], log, One(1, Sort(t[0])), after, log1)
    ensures Absorbs(k, t, log, NOTHING, after, log1)
  {
    var t1, y := t[0 := []][1 := Sort(t[1])], One(1, Sort(t[0]));
    TakeLeaf(t);
    forall c ensures 0 <= Retained(t1, c) + Load(y, c) - Retained(t, c) - Load(NOTHING, c) <= Cost(log) - Cost(log) {}
    AbsorbsVia(k, t, log, NOTHING, t1, log, y, after, log1);
  }

  /** Making room, growing to two leaves and appending to one of them absorbs the element. */
  lemma AddAbsorbs(k: nat, t: Tree, log0: seq<nat>, roomy: Tree, log: seq<nat>, leaf: nat, e: Bytes)
    requires Absorbs(k, t, log0, NOTHING, roomy, log) && leaf <= 1
    ensures var grown := Extend(roomy, 2); Absorbs(k, t, log0, One(0, [e]), grown[leaf := grown[leaf] + [e]], log)
  {
    var grown := Extend(roomy, 2);
    AbsorbsNothing(k, roomy, log, 2);
    AppendAbsorbs(k, grown, log, leaf, e);
    AbsorbsThen(k, t, log0, NOTHING, roomy, log, NOTHING, grown, log, NOTHING);
    AbsorbsThen(k, t, log0, NOTHING, grown, log, One(0, [e]), grown[leaf := grown[leaf] + [e]], log, One(0, [e]));
  }
}

/** One key of a `quantile(N)` table: a Munro-Paterson tree of buffers that can be flushed and merged. */
module QuantileTable {
  import opened Sealing
  import opened Arithmetic
  import opened ByteStrings
  import opened TabEntry
  import opened QuantileSummary
  import opened QuantileAbsorb
  import opened QuantileGrowth
  import opened QuantileSplitters

  /** Leaves hold at most `k` elements, inner levels none or exactly `k` in order, and the top level is in use. */
  ghost predicate WellShaped(k: nat, tree: Tree) {
    && k > 0
    && (forall j :: 0 <= j < |tree| && j < 2 ==> |tree[j]| <= k)
    && (forall j :: 2 <= j < |tree| ==> (|tree[j]| == 0 || |tree[j]| == k) && Sorted(tree[j]))
    && (|tree| >= 3 ==> |tree[|tree| - 1]| == k)
  }

  /** What holds between any two operations, whatever the history. */
  ghost predicate Structured(k: nat, tree: Tree, tot: nat) {
    && WellShaped(k, tree)
    && tot == Retained(tree, Everything)
    && (tot == 0 ==> tree == [])
    && (tot > 0 ==> |tree| >= 1 && tree[0] != [])
  }

  ghost predicate IsMin(x: Bytes, s: seq<Bytes>) {
    x in s && forall y :: y in s ==> AtMost(x, y)
  }

  ghost predicate IsMax(x: Bytes, s: seq<Bytes>) {
    x in s && forall y :: y in s ==> AtMost(y, x)
  }

  /** The tree summarises `inputs`, having performed the collapses in `log`. */
  ghost predicate Summarises(k: nat, tree: Tree, inputs: seq<Bytes>, log: seq<nat>) {
    && (forall c :: 0 <= Retained(tree, c) - Count(inputs, c) <= Cost(log))
    && (forall l: nat :: 1 <= l ==> MassAbove(tree, l) == Lifted(k, log, l))
    && (forall l :: l in log ==> 1 <= l <= |tree| - 2)
    && Drawn(tree, inputs)
    && Retained(tree, Everything) == |inputs|
  }

  ghost predicate Represents(k: nat, tree: Tree, tot: nat, min: Bytes, max: Bytes, inputs: seq<Bytes>, log: seq<nat>) {
    && Structured(k, tree, tot)
    && Summarises(k, tree, inputs, log)
    && (tot > 0 ==> IsMin(min, inputs) && IsMax(max, inputs))
  }

  // ------------------------------------------------------------------------------- the carry

  /** What the arrival of a full sorted buffer at a full level does to the tree. */
  ghost predicate Carried(k: nat, before: Tree, log0: seq<nat>, level: nat, buf: seq<Bytes>, after: Tree, log1: seq<nat>) {
    && WellShaped(k, after)
    && Absorbs(k, before, log0, One(level, buf), after, log1)
    && level + 2 <= |after|
    && (forall j :: 0 <= j <= level ==> after[j] == if j < level && j < |before| then before[j] else [])
  }

  /** The carry ends at an empty level. */
  lemma CarryEnds(k: nat, before: Tree, log: seq<nat>, level: nat, buf: seq<Bytes>, merged: seq<Bytes>)
    requires WellShaped(k, before) && 1 <= level < |before|
    requires |before[level]| == k && IsCollapse(before[level], buf, merged)
    requires level + 1 < |before| ==> before[level + 1] == []
    ensures Carried(k, before, log, level, buf, Extend(before[level := []], level + 2)[level + 1 := merged], log + [level])
  {
    var after := Extend(before[level := []], level + 2)[level + 1 := merged];
    PlaceAfterExtend(k, before[level := []], log + [level], level + 1, merged);
    CarriedShape(k, before, level, merged, after);
    CarryFinishes(k, before, log, level, buf, merged, after, log + [level]);
  }

  lemma CarryFinishes(k: nat, before: Tree, log: seq<nat>, level: nat, buf: seq<Bytes>, merged: seq<Bytes>, after: Tree, log1: seq<nat>)
    requires 1 <= level < |before| && |before[level]| == k && IsCollapse(before[level], buf, merged)
    requires Absorbs(k, before[level := []], log + [level], One(level + 1, merged), after, log1)
    requires WellShaped(k, after) && level + 2 <= |after| && |before| <= |after|
    requires forall j :: 0 <= j <= level ==> after[j] == if j < level then before[j] else []
    ensures Carried(k, before, log, level, buf, after, log1)
  {
    CarryAbsorbs(k, before, log, level, buf, merged, after, log1);
  }

  lemma CarriedShape(k: nat, before: Tree, level: nat, merged: seq<Bytes>, after: Tree)
    requires WellShaped(k, before) && 1 <= level < |before| && |merged| == k && Sorted(merged)
    requires after == Extend(before[level := []], level + 2)[level + 1 := merged]
    ensures WellShaped(k, after) && level + 2 <= |after| && |before| <= |after|
    ensures forall j :: 0 <= j <= level ==> after[j] == if j < level then before[j] else []
  {
  }

  /** The carry goes on from a full level. */
  lemma CarryGoesOn(k: nat, before: Tree, log: seq<nat>, level: nat, buf: seq<Bytes>, merged: seq<Bytes>, after: Tree, log1: seq<nat>)
    requires 1 <= level < |before|
    requires |before[level]| == k && IsCollapse(before[level], buf, merged)
    requires Carried(k, before[level := []], log + [level], level + 1, merged, after, log1)
    ensures Carried(k, before, log, level, buf, after, log1)
  {
    CarryAbsorbs(k, before, log, level, buf, merged, after, log1);
  }

  // ----------------------------------------------------------------- facts about shapes

  /** Both leaves are full exactly when the total is a multiple of `2k`: everything above them comes in such multiples. */
  lemma LeavesFull(k: nat, tree: Tree, tot: nat)
    requires Structured(k, tree, tot) && tot > 0
    ensures BothFull(k, tree) <==> tot % (2 * k) == 0
  {
    var m := InnerMass(k, tree);
    LeafSplit(tree);
    var leaves := |tree[0]| + if |tree| >= 2 then |tree[1]| else 0;
    assert 0 < leaves <= 2 * k;
    RemainderOfMultiple(leaves, 2 * k, m);
    DivModUnique(leaves, 2 * k, if leaves < 2 * k then 0 else 1, if leaves < 2 * k then leaves else 0);
  }

  lemma {:induction false} InnerMass(k: nat, tree: Tree) returns (m: nat)
    requires forall j :: 2 <= j < |tree| ==> |tree[j]| == 0 || |tree[j]| == k
    ensures MassAbove(tree, 1) == 2 * k * m
  {
    if |tree| <= 2 {
      m := 0;
    } else {
      var top := |tree| - 1;
      var below := InnerMass(k, tree[..top]);
      if |tree[top]| == 0 {
        m := below;
      } else {
        WorthIsProduct(top, k);
        m := below + Weight(top - 1);
        TwiceTimes(k, below, Weight(top - 1));
      }
    }
  }

  lemma TwiceTimes(k: nat, a: nat, b: nat)
    ensures 2 * k * (a + b) == 2 * k * a + 2 * b * k
  {
  }

  lemma {:induction false} LeafSplit(tree: Tree)
    requires |tree| >= 1
    ensures Retained(tree, Everything)
         == |tree[0]| + (if |tree| >= 2 then |tree[1]| else 0) + MassAbove(tree, 1)
  {
    var top := |tree| - 1;
    CountEverything(tree[top]);
    if top == 0 {
      assert tree[..0] == [];
    } else {
      LeafSplit(tree[..top]);
    }
  }

  /** What is absorbed on top of a summary is summarised too. */
  lemma AbsorbedSummary(k: nat, before: Tree, inputs0: seq<Bytes>, log0: seq<nat>,
                        added: Parcel, inputs1: seq<Bytes>, log1: seq<nat>, after: Tree, log: seq<nat>)
    requires Summarises(k, before, inputs0, log0)
    requires forall c :: 0 <= Load(added, c) - Count(inputs1, c) <= Cost(log1)
    requires forall l: nat :: 1 <= l ==> LoadAbove(added, l) == Lifted(k, log1, l)
    requires Load(added, Everything) == |inputs1| && From(added, inputs1)
    requires forall l :: l in log1 ==> 1 <= l <= |after| - 2
    requires Absorbs(k, before, log0, added, after, log)
    ensures Summarises(k, after, inputs0 + inputs1, log + log1)
  {
    forall c ensures 0 <= Retained(after, c) - Count(inputs0 + inputs1, c) <= Cost(log + log1) {
      CountConcat(inputs0, inputs1, c);
      LogConcat(k, log, log1, 0);
      assert 0 <= Retained(after, c) - Retained(before, c) - Load(added, c) <= Cost(log) - Cost(log0);
    }
    forall l: nat | 1 <= l ensures MassAbove(after, l) == Lifted(k, log + log1, l) {
      LogConcat(k, log, log1, l);
      assert MassAbove(after, l) == MassAbove(before, l) + LoadAbove(added, l) + Lifted(k, log, l) - Lifted(k, log0, l);
    }
    assert Drawn(before, inputs0 + inputs1) && From(added, inputs0 + inputs1);
  }

  /** The first leaf taken out and the second sorted leave the shape as it was. */
  lemma TakenShape(k: nat, t: Tree, after: Tree)
    requires WellShaped(k, t) && BothFull(k, t) && after == t[0 := []][1 := Sort(t[1])]
    ensures WellShaped(k, after) && |after[1]| == k && Sorted(after[1]) && |Sort(t[0])| == k && Sorted(Sort(t[0]))
  {
    SortSorts(t[0]);
    SortSorts(t[1]);
  }

  lemma LeavesCollapsed(k: nat, t: Tree, log: seq<nat>, after: Tree, log1: seq<nat>)
    requires BothFull(k, t) && Carried(k, t[0 := []][1 := Sort(t[1])], log, 1, Sort(t[0]), after, log1)
    ensures WellShaped(k, after) && Absorbs(k, t, log, NOTHING, after, log1)
    ensures |after| >= 3 && after[0] == after[1] == []
  {
    LeavesAbsorb(k, t, log, after, log1);
  }

  /** One of the two leaves can take another element. */
  ghost predicate HasRoom(k: nat, tree: Tree) {
    |tree| < 2 || |tree[0]| < k || |tree[1]| < k
  }

  /** The minimum after one more element; the old one means nothing while there are none. */
  function Lesser(tot: nat, min: Bytes, elem: Bytes): (r: Bytes) {
    if tot == 0 || Less(elem, min) then elem else min
  }

  function Greater(tot: nat, max: Bytes, elem: Bytes): (r: Bytes) {
    if tot == 0 || Less(max, elem) then elem else max
  }

  lemma AddedElem(k: nat, before: Tree, log0: seq<nat>, tot: nat, roomy: Tree, e: Bytes, after: Tree, log: seq<nat>)
    requires Structured(k, before, tot)
    requires WellShaped(k, roomy) && HasRoom(k, roomy) && Absorbs(k, before, log0, NOTHING, roomy, log)
    requires after == Push(k, roomy, e)
    ensures Structured(k, after, tot + 1)
    ensures Absorbs(k, before, log0, One(0, [e]), after, log)
  {
    AddAbsorbs(k, before, log0, roomy, log, if |Extend(roomy, 2)[0]| < k then 0 else 1, e);
    CountEverything([e]);
  }

  lemma AddedRepresents(k: nat, before: Tree, tot: nat, min: Bytes, max: Bytes, inputs: seq<Bytes>, log0: seq<nat>,
                        e: Bytes, after: Tree, log: seq<nat>)
    requires Represents(k, before, tot, min, max, inputs, log0)
    requires Structured(k, after, tot + 1)
    requires Absorbs(k, before, log0, One(0, [e]), after, log)
    ensures Represents(k, after, tot + 1, Lesser(tot, min, e), Greater(tot, max, e), inputs + [e], log)
  {
    CountEverything([e]);
    AbsorbedSummary(k, before, inputs, log0, One(0, [e]), [e], [], after, log);
    assert log + [] == log;
    ExtremesAfter(tot, min, max, inputs, e);
  }

  lemma AddedTo(k: nat, before: Tree, tot: nat, min: Bytes, max: Bytes, inputs: seq<Bytes>, log0: seq<nat>,
                roomy: Tree, e: Bytes, after: Tree, log: seq<nat>)
    requires Structured(k, before, tot)
    requires WellShaped(k, roomy) && HasRoom(k, roomy) && Absorbs(k, before, log0, NOTHING, roomy, log)
    requires Settled(k, before, roomy) && after == Push(k, roomy, e)
    ensures Structured(k, after, tot + 1) && Grown(k, before, e, after)
    ensures Absorbs(k, before, log0, One(0, [e]), after, log)
    ensures Represents(k, before, tot, min, max, inputs, log0) ==>
      Represents(k, after, tot + 1, Lesser(tot, min, e), Greater(tot, max, e), inputs + [e], log)
  {
    GrowsBy(k, before, roomy, e, after);
    AddedElem(k, before, log0, tot, roomy, e, after, log);
    if Represents(k, before, tot, min, max, inputs, log0) {
      AddedRepresents(k, before, tot, min, max, inputs, log0, e, after, log);
    }
  }

  lemma ExtremesAfter(tot: nat, min: Bytes, max: Bytes, inputs: seq<Bytes>, e: Bytes)
    requires tot == |inputs|
    requires tot > 0 ==> IsMin(min, inputs) && IsMax(max, inputs)
    ensures IsMin(Lesser(tot, min, e), inputs + [e]) && IsMax(Greater(tot, max, e), inputs + [e])
  {
    LessIrreflexive(e);
    forall y | y in inputs + [e] ensures AtMost(Lesser(tot, min, e), y) && AtMost(y, Greater(tot, max, e)) {
      if y in inputs && tot > 0 {
        if Less(e, min) { LessImpliesAtMost(e, min); AtMostTransitive(e, min, y); }
        if Less(max, e) { LessImpliesAtMost(max, e); AtMostTransitive(y, max, e); }
      }
    }
  }

  // ------------------------------------------------------------------------------- display

  /**
   * The guarantee: the true extremes at the ends, every quantile an input, in order, and each interior
   * one within `error` of its target rank, never too high.
   */
  ghost predicate Quantiles(q: seq<Bytes>, n: nat, inputs: seq<Bytes>, error: nat) {
    && |q| == n >= 2
    && IsMin(q[0], inputs) && IsMax(q[n - 1], inputs)
    && Sorted(q)
    && (forall i :: 0 <= i < n ==> q[i] in inputs)
    && (forall i :: 1 <= i <= n - 2 ==> RankOf(q[i], inputs, Target(i, |inputs|, n), error))
  }

  /** Fewer than `target` inputs are strictly below `x`, and at least `target - error` are at or below it. */
  ghost predicate RankOf(x: Bytes, inputs: seq<Bytes>, target: int, error: nat) {
    Count(inputs, Below(x)) < target <= Count(inputs, UpTo(x)) + error
  }

  /** Each interior quantile is the weighted order statistic of the tree for its target. */
  ghost predicate Displays(tree: Tree, tot: nat, n: nat, q: seq<Bytes>) {
    |q| == n >= 2 && forall i :: 1 <= i <= n - 2 ==> AtRank(tree, Target(i, tot, n), q[i])
  }

  lemma DisplayReady(k: nat, tree: Tree, tot: nat, min: Bytes, max: Bytes, inputs: seq<Bytes>, log: seq<nat>)
    requires Represents(k, tree, tot, min, max, inputs, log) && tot > 0
    ensures AtMost(min, max) && forall j, x :: 0 <= j < |tree| && x in tree[j] ==> AtMost(min, x) && AtMost(x, max)
  {
  }

  lemma SortedRepresents(k: nat, tree: Tree, tot: nat, min: Bytes, max: Bytes, inputs: seq<Bytes>, log: seq<nat>)
    requires Represents(k, tree, tot, min, max, inputs, log)
    ensures Represents(k, SortLeaves(tree), tot, min, max, inputs, log)
  {
    var t := SortLeaves(tree);
    forall c ensures Retained(t, c) == Retained(tree, c) { SortLeavesKeeps(tree, c); }
    forall l: nat ensures MassAbove(t, l) == MassAbove(tree, l) { SortLeavesMass(tree, l); }
    forall j, x | 0 <= j < |t| && x in t[j] ensures x in inputs { SortLeavesMembers(tree, j, x); }
    forall j | 0 <= j < |t| ensures |t[j]| == |tree[j]| { SortSorts(tree[j]); }
  }

  lemma {:induction false} SortLeavesMass(tree: Tree, l: nat)
    ensures MassAbove(SortLeaves(tree), l) == MassAbove(tree, l)
  {
    if tree != [] {
      var top := |tree| - 1;
      assert SortLeaves(tree)[..top] == SortLeaves(tree[..top]);
      SortLeavesMass(tree[..top], l);
      SortSorts(tree[top]);
    }
  }

  lemma QuantilesHold(k: nat, tree: Tree, tot: nat, min: Bytes, max: Bytes, inputs: seq<Bytes>, log: seq<nat>, n: nat, q: seq<Bytes>)
    requires Represents(k, tree, tot, min, max, inputs, log) && tot > 0
    requires |q| == n >= 2 && q[n - 1] == max && Sorted(q) && Chosen(SortLeaves(tree), Targets(tot, n), min, q[..n - 1])
    ensures Quantiles(q, n, inputs, Cost(log)) && Displays(tree, tot, n, q)
  {
    forall i | 1 <= i <= n - 2 ensures q[i] in inputs && AtRank(tree, Target(i, tot, n), q[i]) {
      assert q[..n - 1][i] == q[i];
      var j :| 0 <= j < |tree| && q[i] in SortLeaves(tree)[j];
      SortLeavesMembers(tree, j, q[i]);
      assert AtRank(SortLeaves(tree), Targets(tot, n)[i], q[i]);
      SortLeavesKeeps(tree, Below(q[i]));
      SortLeavesKeeps(tree, UpTo(q[i]));
    }
    assert q[..n - 1][0] == q[0];
  }

  method Display(k: nat, tree: Tree, tot: nat, min: Bytes, max: Bytes, ghost inputs: seq<Bytes>, ghost log: seq<nat>, n: nat)
    returns (q: seq<Bytes>, sorted: Tree)
    requires Represents(k, tree, tot, min, max, inputs, log) && tot > 0 && n >= 2
    ensures Quantiles(q, n, inputs, Cost(log)) && Displays(tree, tot, n, q)
    ensures Represents(k, sorted, tot, min, max, inputs, log) && |sorted| == |tree|
  {
    DisplayReady(k, tree, tot, min, max, inputs, log);
    q, sorted := ComputeQuantiles(tree, min, max, n, tot);
    SortedRepresents(k, tree, tot, min, max, inputs, log);
    QuantilesHold(k, tree, tot, min, max, inputs, log, n, q);
  }

  // ------------------------------------------------------------------------------- merging

  lemma NoElements(k: nat, t: Tree, log: seq<nat>, after: Tree, log1: seq<nat>)
    requires Absorbs(k, t, log, NOTHING, after, log1)
    ensures Absorbs(k, t, log, One(0, []), after, log1)
  {
    forall c ensures Load(One(0, []), c) == Load(NOTHING, c) {}
  }

  lemma OneMoreElement(k: nat, t0: Tree, l0: seq<nat>, elems: seq<Bytes>, i: nat, t1: Tree, l1: seq<nat>, t2: Tree, l2: seq<nat>)
    requires i < |elems|
    requires Absorbs(k, t0, l0, One(0, elems[..i]), t1, l1)
    requires Absorbs(k, t1, l1, One(0, [elems[i]]), t2, l2)
    ensures Absorbs(k, t0, l0, One(0, elems[..i + 1]), t2, l2)
  {
    assert elems[..i + 1] == elems[..i] + [elems[i]];
    forall c ensures Load(One(0, elems[..i + 1]), c) == Load(One(0, elems[..i]), c) + Load(One(0, [elems[i]]), c) {
      CountConcat(elems[..i], [elems[i]], c);
    }
    AbsorbsThen(k, t0, l0, One(0, elems[..i]), t1, l1, One(0, [elems[i]]), t2, l2, One(0, elems[..i + 1]));
  }

  /** The two leaves have the same weight, so a leaf of one tree may be added to the other leaf of another. */
  lemma LeafParcel(k: nat, t: Tree, log: seq<nat>, level: nat, buf: seq<Bytes>, after: Tree, log1: seq<nat>)
    requires level <= 1
    requires Absorbs(k, t, log, One(0, buf), after, log1)
    ensures Absorbs(k, t, log, One(level, buf), after, log1)
  {
    forall c ensures Load(One(0, buf), c) == Load(One(level, buf), c) {}
    forall pool ensures From(One(0, buf), pool) == From(One(level, buf), pool) {}
  }

  /** The first `n` levels. */
  function Upto(tree: Tree, n: nat): (r: Tree)
    requires n <= |tree|
  {
    tree[..n]
  }

  lemma OneMoreUpto(tree: Tree, n: nat)
    requires n < |tree|
    ensures Upto(tree, n + 1) == Upto(tree, n) + [tree[n]]
  {
  }

  lemma AllUpto(tree: Tree)
    ensures Upto(tree, 0) == [] && Upto(tree, |tree|) == tree
  {
  }

  lemma DrawnParts(done: Tree, next: seq<Bytes>, pool: seq<Bytes>)
    requires Drawn(done + [next], pool)
    ensures Drawn(done, pool) && From(if next == [] then NOTHING else One(|done|, next), pool)
  {
    var z := done + [next];
    assert z[|done|] == next;
    assert forall j :: 0 <= j < |done| ==> done[j] == z[j];
  }

  /** Absorbing, handed on from step to step. */
  ghost predicate Absorbing(k: nat, t0: Tree, l0: seq<nat>, added: Tree, t1: Tree, l1: seq<nat>) {
    forall u {:trigger Key(BufferFacts, u)} :: Key(BufferFacts, u) ==> Absorbs(k, t0, l0, Levels(added), t1, l1)
  }

  lemma AbsorbingStarts(k: nat, t: Tree, log: seq<nat>, tree: Tree)
    ensures Absorbing(k, t, log, Upto(tree, 0), t, log)
  {
    AbsorbsNothing(k, t, log, 0);
    AllUpto(tree);
  }

  lemma AbsorbingStep(k: nat, t0: Tree, l0: seq<nat>, tree: Tree, level: nat, t1: Tree, l1: seq<nat>, t2: Tree, l2: seq<nat>)
    requires level < |tree| && Absorbing(k, t0, l0, Upto(tree, level), t1, l1)
    requires Absorbs(k, t1, l1, if tree[level] == [] then NOTHING else One(level, tree[level]), t2, l2)
    ensures Absorbing(k, t0, l0, Upto(tree, level + 1), t2, l2)
  {
    assert Key(BufferFacts, 0);
    OneMoreLevel(k, t0, l0, Upto(tree, level), tree[level], t1, l1, t2, l2);
    OneMoreUpto(tree, level);
  }

  lemma AbsorbingEnds(k: nat, t0: Tree, l0: seq<nat>, tree: Tree, t1: Tree, l1: seq<nat>)
    requires Absorbing(k, t0, l0, Upto(tree, |tree|), t1, l1)
    ensures Absorbs(k, t0, l0, Levels(tree), t1, l1)
  {
    assert Key(BufferFacts, 0);
    AllUpto(tree);
  }

  lemma OneMoreLevel(k: nat, t0: Tree, l0: seq<nat>, done: Tree, next: seq<Bytes>, t1: Tree, l1: seq<nat>, t2: Tree, l2: seq<nat>)
    requires Absorbs(k, t0, l0, Levels(done), t1, l1)
    requires Absorbs(k, t1, l1, if next == [] then NOTHING else One(|done|, next), t2, l2)
    ensures Absorbs(k, t0, l0, Levels(done + [next]), t2, l2)
  {
    var z := done + [next];
    var y := if next == [] then NOTHING else One(|done|, next);
    assert z[..|done|] == done && z[|done|] == next;
    forall pool | Drawn(z, pool) ensures Drawn(done, pool) && From(y, pool) { DrawnParts(done, next, pool); }
    AbsorbsThen(k, t0, l0, Levels(done), t1, l1, y, t2, l2, Levels(z));
  }

  ghost predicate Deserialised(k: nat, level: nat, buf: seq<Bytes>) {
    buf != [] && |buf| <= k && (level >= 2 ==> |buf| == k && Sorted(buf))
  }

  /** What a merge needs of flushed buffers: an element in the first, proper sizes, and no element beyond the extremes. */
  ghost predicate Mergeable(k: nat, tree: Tree, min: Bytes, max: Bytes) {
    && (tree != [] ==> tree[0] != [])
    && (forall j :: 0 <= j < |tree| ==> tree[j] == [] || Deserialised(k, j, tree[j]))
    && (forall j, x :: 0 <= j < |tree| && x in tree[j] ==> AtMost(min, x) && AtMost(x, max))
  }

  /** So it is for the first of them. */
  lemma MergeablePart(k: nat, tree: Tree, part: Tree, min: Bytes, max: Bytes)
    requires Mergeable(k, tree, min, max) && part <= tree
    ensures Mergeable(k, part, min, max)
  {
    assert forall j :: 0 <= j < |part| ==> part[j] == tree[j];
  }

  lemma FlushedBuffers(k: nat, tree: Tree, tot: nat, min1: Bytes, max1: Bytes, inputs: seq<Bytes>, log: seq<nat>,
                       min: Bytes, max: Bytes, tot0: nat, min0: Bytes, max0: Bytes)
    requires Represents(k, tree, tot, min1, max1, inputs, log) && tot > 0
    requires min == Lesser(tot0, min0, min1) && max == Greater(tot0, max0, max1)
    ensures Mergeable(k, tree, min, max) && (|tree| >= 3 ==> tree[|tree| - 1] != [])
  {
    LessIrreflexive(min1);
    LessIrreflexive(max1);
    forall j, x | 0 <= j < |tree| && x in tree[j] ensures AtMost(min, x) && AtMost(x, max) {
      assert x in inputs;
      AtMostTransitive(min, min1, x);
      AtMostTransitive(x, max1, max);
    }
  }

  lemma PlacedStructured(k: nat, t: Tree, log: seq<nat>, tot: nat, level: nat, buf: seq<Bytes>)
    requires Structured(k, t, tot) && Deserialised(k, level, buf)
    requires level < |t| ==> t[level] == []
    requires tot == 0 ==> level == 0
    ensures Structured(k, Extend(t, level + 1)[level := buf], tot + Worth(level, |buf|))
    ensures Absorbs(k, t, log, One(level, buf), Extend(t, level + 1)[level := buf], log)
  {
    PlaceAfterExtend(k, t, log, level, buf);
    CountEverything(buf);
    PlacedShape(k, t, tot, level, buf, Extend(t, level + 1)[level := buf]);
  }

  lemma PlacedShape(k: nat, t: Tree, tot: nat, level: nat, buf: seq<Bytes>, after: Tree)
    requires Structured(k, t, tot) && Deserialised(k, level, buf) && after == Extend(t, level + 1)[level := buf]
    requires (level < |t| ==> t[level] == []) && (tot == 0 ==> level == 0)
    ensures WellShaped(k, after) && after != [] && after[0] != []
  {
  }

  lemma CarriedStructured(k: nat, t: Tree, log: seq<nat>, tot: nat, level: nat, buf: seq<Bytes>, after: Tree, log1: seq<nat>)
    requires Structured(k, t, tot) && |buf| == k
    requires 2 <= level < |t| && Carried(k, t, log, level, buf, after, log1)
    requires tot > 0
    ensures Structured(k, after, tot + Worth(level, k))
  {
    CountEverything(buf);
  }

  lemma MergedRepresents(k: nat, t0: Tree, tot0: nat, min0: Bytes, max0: Bytes, inputs0: seq<Bytes>, log0: seq<nat>,
                         t1: Tree, tot1: nat, min1: Bytes, max1: Bytes, inputs1: seq<Bytes>, log1: seq<nat>,
                         after: Tree, tot: nat, log: seq<nat>)
    requires Represents(k, t0, tot0, min0, max0, inputs0, log0)
    requires Represents(k, t1, tot1, min1, max1, inputs1, log1) && tot1 > 0
    requires Structured(k, after, tot) && Absorbs(k, t0, log0, Levels(t1), after, log)
    requires |t1| >= 3 ==> |t1| <= |after|
    ensures tot == tot0 + tot1
    ensures Represents(k, after, tot, Lesser(tot0, min0, min1), Greater(tot0, max0, max1), inputs0 + inputs1, log + log1)
  {
    AbsorbedSummary(k, t0, inputs0, log0, Levels(t1), inputs1, log1, after, log);
    MergeExtremes(tot0, min0, max0, inputs0, min1, max1, inputs1);
  }

  lemma MergeExtremes(tot: nat, min: Bytes, max: Bytes, inputs: seq<Bytes>, min1: Bytes, max1: Bytes, inputs1: seq<Bytes>)
    requires tot == |inputs| && IsMin(min1, inputs1) && IsMax(max1, inputs1)
    requires tot > 0 ==> IsMin(min, inputs) && IsMax(max, inputs)
    ensures IsMin(Lesser(tot, min, min1), inputs + inputs1) && IsMax(Greater(tot, max, max1), inputs + inputs1)
  {
    var lo, hi := Lesser(tot, min, min1), Greater(tot, max, max1);
    LessIrreflexive(min1);
    LessIrreflexive(max1);
    forall y | y in inputs + inputs1 ensures AtMost(lo, y) && AtMost(y, hi) {
      if y in inputs {
        if Less(min1, min) { LessImpliesAtMost(min1, min); AtMostTransitive(min1, min, y); }
        if Less(max, max1) { LessImpliesAtMost(max, max1); AtMostTransitive(y, max, max1); }
      } else {
        AtMostTransitive(lo, min1, y);
        AtMostTransitive(y, max1, hi);
      }
    }
  }

  /** The levels above the leaves. */
  function Height(tree: Tree): (levels: nat) {
    if |tree| < 2 then 0 else |tree| - 2
  }

  /** The cost of all collapses, for every history of adds and merges. */
  lemma ErrorBound(k: nat, tree: Tree, inputs: seq<Bytes>, log: seq<nat>)
    requires Summarises(k, tree, inputs, log)
    ensures 2 * k * Cost(log) <= Height(tree) * |inputs|
  {
    var levels := Height(tree);
    CostRegrouped(log, levels);
    forall l | 1 <= l <= levels ensures Lifted(k, log, l) <= |inputs| {
      MassAboveAtMostRetained(tree, l);
    }
    CostBound(log, k, |inputs|, levels);
  }

  // ------------------------------------------------------------------------- the entry

  /** Where a string ends: as it should, or before it should, after so many elements of the next buffer. */
  datatype Tail = Whole | NoExtremes | NoCount | NoElement(read: seq<Bytes>)

  /** What a string says: the header and, if there are elements, the extremes and the buffers that can be read from it. */
  datatype Flushed = Flushed(tot: int, numQuantiles: int, epsilon: real, k: int, min: Bytes, max: Bytes, buffers: Tree, tail: Tail)

  /** The string is that of an entry with buffers `whole`, to its end or not. */
  ghost predicate CutFrom(val: Flushed, whole: Tree) {
    match val.tail
    case Whole => val.buffers == whole
    case NoExtremes => true
    case NoCount => val.buffers <= whole && |val.buffers| < |whole|
    case NoElement(read) => val.buffers <= whole && |val.buffers| < |whole| && read <= whole[|val.buffers|] && |read| < |whole[|val.buffers|]|
  }

  /** Elements of a buffer that breaks off are read right into an empty level. */
  predicate ReadDirectly(t: Tree, level: nat, tail: Tail) {
    tail.NoElement? && (level >= |t| || t[level] == [])
  }

  /** What is left there then: those that were read, and an empty string for the one that was not. */
  function LeftIn(t: Tree, level: nat, tail: Tail): (r: Tree) {
    if ReadDirectly(t, level, tail) then Extend(t, level + 1)[level := tail.read + [[]]] else t
  }

  /** The total does not count elements that were read directly. */
  lemma LeftInUncounted(k: nat, t: Tree, tot: nat, level: nat, tail: Tail)
    requires Structured(k, t, tot)
    ensures Structured(k, LeftIn(t, level, tail), tot) <==> !ReadDirectly(t, level, tail)
  {
    if ReadDirectly(t, level, tail) {
      ExtendKeeps(t, level + 1, Everything, 0);
      RetainedUpdate(Extend(t, level + 1), level, tail.read + [[]], Everything);
      CountEverything(tail.read + [[]]);
      assert Count(Extend(t, level + 1)[level], Everything) == 0;
    }
  }

  class QuantileEntry {
    const numQuantiles: int
    const k: nat
    var buffer: Tree
    var tot: nat
    var min: Bytes
    var max: Bytes
    /** Everything ever added, and every collapse ever performed. */
    ghost var inputs: seq<Bytes>
    ghost var log: seq<nat>

    ghost predicate Valid() reads this {
      Represents(k, buffer, tot, min, max, inputs, log)
    }

    constructor (numQuantiles: int, k: nat)
      requires k > 0
      ensures Valid() && this.k == k && this.numQuantiles == numQuantiles
      ensures inputs == [] && log == [] && buffer == [] && tot == 0
    {
      this.numQuantiles, this.k := numQuantiles, k;
      buffer, tot, min, max := [], 0, [], [];
      inputs, log := [], [];
    }

    method Clear()
      modifies this
      ensures k > 0 ==> Valid()
      ensures inputs == [] && log == [] && buffer == [] && tot == 0
    {
      buffer, tot := [], 0;
      inputs, log := [], [];
    }

    method EnsureBuffer(level: nat)
      modifies this`buffer
      ensures buffer == Extend(old(buffer), level + 1)
    {
      if |buffer| < level + 1 {
        buffer := buffer + seq(level + 1 - |buffer|, _ => []);
      }
    }

    /** Merge two full buffers and keep every other element, starting with the smallest. */
    static method Collapse(k: nat, a: seq<Bytes>, b: seq<Bytes>) returns (output: seq<Bytes>)
      requires |a| == k && |b| == k
      ensures IsEveryOther(a, b, output)
      ensures Sorted(a) && Sorted(b) ==> IsCollapse(a, b, output)
    {
      var indexA, indexB, count := 0, 0, 0;
      output := [];
      MergeStart(a, b);
      while indexA < k || indexB < k
        invariant 0 <= indexA <= k && 0 <= indexB <= k && count == indexA + indexB
        invariant Merging(a, b, indexA, indexB, output)
        decreases 2 * k - count
      {
        var smaller;
        var fromB := indexA >= k || (indexB < k && AtMost(b[indexB], a[indexA]));
        ghost var i, j, kept := indexA, indexB, output;
        if fromB {
          smaller := b[indexB];
          indexB := indexB + 1;
        } else {
          smaller := a[indexA];
          indexA := indexA + 1;
        }
        if count % 2 == 0 {
          output := output + [smaller];
        }
        count := count + 1;
        MergeStep(a, b, i, j, kept, fromB, indexA, indexB, output);
      }
      MergeDone(a, b, output);
    }

    /** A full sorted buffer arrives at a full level and ripples upwards, like the carry of a binary counter. */
    method RecursiveCollapse(buf: seq<Bytes>, level: nat)
      requires WellShaped(k, buffer)
      requires 1 <= level < |buffer| && |buffer[level]| == k && Sorted(buffer[level])
      requires |buf| == k && Sorted(buf)
      modifies this`buffer, this`log
      ensures Carried(k, old(buffer), old(log), level, buf, buffer, log)
      ensures Arrived(old(buffer), level, buf, buffer)
      decreases |buffer| - level
    {
      ghost var before, log0 := buffer, log;
      EnsureBuffer(level + 1);
      var merged := Collapse(k, buffer[level], buf);
      buffer := buffer[level := []];
      log := log + [level];
      if |buffer[level + 1]| == 0 {
        buffer := buffer[level + 1 := merged];
        assert buffer == Extend(before[level := []], level + 2)[level + 1 := merged];
        CarryEnds(k, before, log0, level, buf, merged);
        ArriveEnds(before, level, buf, merged, buffer);
      } else {
        assert buffer == before[level := []];
        RecursiveCollapse(merged, level + 1);
        CarryGoesOn(k, before, log0, level, buf, merged, buffer, log);
        ArriveGoesOn(before, level, buf, merged, buffer);
      }
    }

    /** Two full leaves are sorted and collapsed into the tree, which empties them. */
    method CollapseLeaves()
      requires WellShaped(k, buffer) && BothFull(k, buffer)
      modifies this`buffer, this`log
      ensures WellShaped(k, buffer)
      ensures Absorbs(k, old(buffer), old(log), NOTHING, buffer, log)
      ensures |buffer| >= 3 && buffer[0] == buffer[1] == []
      ensures Settled(k, old(buffer), buffer)
    {
      ghost var before, log0 := buffer, log;
      var leaf0, leaf1 := Sort(buffer[0]), Sort(buffer[1]);
      buffer := buffer[0 := []][1 := leaf1];
      TakenShape(k, before, buffer);
      RecursiveCollapse(leaf0, 1);
      LeavesCollapsed(k, before, log0, buffer, log);
      LeavesSettle(k, before, buffer);
    }

    /** If the total is a multiple of `2k`, both leaves are full and are collapsed; either way a leaf has room after. */
    method MakeRoom()
      requires Structured(k, buffer, tot)
      modifies this`buffer, this`log
      ensures WellShaped(k, buffer) && HasRoom(k, buffer)
      ensures Absorbs(k, old(buffer), old(log), NOTHING, buffer, log)
      ensures Settled(k, old(buffer), buffer)
    {
      AbsorbsNothing(k, buffer, log, 0);
      if tot > 0 { LeavesFull(k, buffer, tot); }
      if tot > 0 && tot % (2 * k) == 0 {
        CollapseLeaves();
      } else {
        SettledAlready(k, buffer);
      }
    }

    /** Append an element to the first leaf that has room. */
    method PushElem(elem: Bytes)
      requires WellShaped(k, buffer) && HasRoom(k, buffer)
      modifies this`buffer
      ensures buffer == Push(k, old(buffer), elem)
    {
      ghost var roomy := buffer;
      EnsureBuffer(0);
      EnsureBuffer(1);
      var index := if |buffer[0]| < k then 0 else 1;
      buffer := buffer[index := buffer[index] + [elem]];
      assert buffer == Extend(roomy, 2)[index := Extend(roomy, 2)[index] + [elem]];
    }

    method NoteExtremes(lo: Bytes, hi: Bytes)
      modifies this`min, this`max
      ensures min == Lesser(tot, old(min), lo) && max == Greater(tot, old(max), hi)
    {
      if tot == 0 || Less(lo, min) {
        min := lo;
      }
      if tot == 0 || Less(max, hi) {
        max := hi;
      }
    }

    method AddElem(elem: Bytes)
      requires Structured(k, buffer, tot)
      modifies this
      ensures Structured(k, buffer, tot) && tot == old(tot) + 1
      ensures Absorbs(k, old(buffer), old(log), One(0, [elem]), buffer, log)
      ensures min == Lesser(old(tot), old(min), elem) && max == Greater(old(tot), old(max), elem)
      ensures inputs == old(inputs) + [elem]
      ensures Grown(k, old(buffer), elem, buffer)
      ensures old(Valid()) ==> Valid()
    {
      NoteExtremes(elem, elem);
      MakeRoom();
      ghost var roomy := buffer;
      PushElem(elem);
      tot := tot + 1;
      inputs := inputs + [elem];
      AddedTo(k, old(buffer), old(tot), old(min), old(max), old(inputs), old(log), roomy, elem, buffer, log);
    }

    /** Everything is written out, and the entry starts again from nothing. */
    method Flush() returns (out: Flushed)
      requires Valid()
      modifies this
      ensures out.numQuantiles == numQuantiles && out.epsilon == 0.0 && out.k == k && out.tot == old(tot)
      ensures Represents(k, out.buffers, out.tot, out.min, out.max, old(inputs), old(log))
      ensures out.buffers == old(buffer) && out.tail == Whole
      ensures Valid() && inputs == [] && log == [] && tot == 0
    {
      out := Flushed(tot, numQuantiles, 0.0, k, min, max, buffer, Whole);
      Clear();
    }

    /** One deserialised buffer goes to an empty level, element by element to a leaf, or into a carry. */
    method MergeLevel(level: nat, newBuffer: seq<Bytes>)
      requires Structured(k, buffer, tot)
      requires Deserialised(k, level, newBuffer)
      requires tot == 0 ==> level == 0
      requires forall x :: x in newBuffer ==> AtMost(min, x) && AtMost(x, max)
      modifies this
      ensures Structured(k, buffer, tot) && tot > 0 && level < |buffer|
      ensures Absorbs(k, old(buffer), old(log), One(level, newBuffer), buffer, log)
      ensures Received(k, old(buffer), level, newBuffer, buffer)
      ensures min == old(min) && max == old(max)
    {
      if |buffer| <= level || |buffer[level]| == 0 {
        PlacedStructured(k, buffer, log, tot, level, newBuffer);
        EnsureBuffer(level);
        buffer := buffer[level := newBuffer];
        tot := tot + Worth(level, |newBuffer|);
        ReceivedPlaced(k, old(buffer), level, newBuffer);
      } else if level >= 2 {
        RecursiveCollapse(newBuffer, level);
        tot := tot + Worth(level, k);
        CarriedStructured(k, old(buffer), old(log), old(tot), level, newBuffer, buffer, log);
        ReceivedCarried(k, old(buffer), level, newBuffer, buffer);
      } else {
        AddAll(newBuffer);
        LeafParcel(k, old(buffer), old(log), level, newBuffer, buffer, log);
        ReceivedAdded(k, old(buffer), level, newBuffer, buffer);
      }
    }

    method AddAll(elems: seq<Bytes>)
      requires Structured(k, buffer, tot) && tot > 0
      requires forall x :: x in elems ==> AtMost(min, x) && AtMost(x, max)
      modifies this
      ensures Structured(k, buffer, tot) && tot == old(tot) + |elems|
      ensures Absorbs(k, old(buffer), old(log), One(0, elems), buffer, log)
      ensures GrownAll(k, old(buffer), elems, buffer)
      ensures min == old(min) && max == old(max)
    {
      AbsorbsNothing(k, buffer, log, 0);
      NoElements(k, buffer, log, buffer, log);
      GrownNothing(k, buffer, elems);
      for i := 0 to |elems|
        invariant Structured(k, buffer, tot) && tot == old(tot) + i
        invariant Absorbs(k, old(buffer), old(log), One(0, elems[..i]), buffer, log)
        invariant GrownAll(k, old(buffer), elems[..i], buffer)
        invariant min == old(min) && max == old(max)
      {
        ghost var before, log0 := buffer, log;
        assert elems[i] in elems && AtMost(min, elems[i]) && AtMost(elems[i], max);
        AddElem(elems[i]);
        OneMoreElement(k, old(buffer), old(log), elems, i, before, log0, buffer, log);
        GrownMore(k, old(buffer), elems, i, before, buffer);
      }
      assert elems[..|elems|] == elems;
    }

    /**
     * Merge what another entry flushed. The header is checked; the buffers are taken to be those of an
     * entry that summarises `inputs1`, or the first of them if the string breaks off. Such a string is
     * refused after the buffers `merged` have been merged, and what was read directly stays uncounted.
     */
    method Merge(val: Flushed, ghost whole: Tree, ghost inputs1: seq<Bytes>, ghost log1: seq<nat>)
      returns (status: MergeStatus, ghost merged: Tree)
      requires Valid()
      requires Acceptable(val) ==> Represents(k, whole, val.tot, val.min, val.max, inputs1, log1) && CutFrom(val, whole)
      modifies this
      ensures status == if Acceptable(val) && (val.tot == 0 || val.tail.Whole?) then MergeOk else MergeError
      ensures !Acceptable(val) || (val.tot > 0 && val.tail.NoExtremes?) ==> unchanged(this)
      ensures status == MergeOk ==> Valid() && tot == old(tot) + val.tot && inputs == old(inputs) + inputs1
      ensures status == MergeOk ==> Merged(k, old(buffer), whole, |whole|, buffer)
      ensures status == MergeError && Acceptable(val) && !val.tail.NoExtremes? ==>
        && Merged(k, old(buffer), val.buffers, |val.buffers|, merged) && Structured(k, merged, tot)
        && buffer == LeftIn(merged, |val.buffers|, val.tail)
        && (Structured(k, buffer, tot) <==> !ReadDirectly(merged, |val.buffers|, val.tail))
    {
      merged := buffer;
      if val.tot < 0 || val.numQuantiles != numQuantiles || val.epsilon > 0.0 || val.k != k {
        return MergeError, merged;
      }
      if val.tot == 0 {
        MergedNothing(k, buffer, whole);
        return MergeOk, merged;
      }
      if val.tail.NoExtremes? {
        return MergeError, merged;
      }
      if val.tail.Whole? {
        MergeWhole(val, inputs1, log1);
        return MergeOk, buffer;
      }
      merged := MergePart(val, whole, inputs1, log1);
      status := MergeError;
    }

    method MergeWhole(val: Flushed, ghost inputs1: seq<Bytes>, ghost log1: seq<nat>)
      requires Valid() && val.tot > 0 && Represents(k, val.buffers, val.tot, val.min, val.max, inputs1, log1)
      modifies this
      ensures Valid() && tot == old(tot) + val.tot && inputs == old(inputs) + inputs1
      ensures Merged(k, old(buffer), val.buffers, |val.buffers|, buffer)
    {
      NoteExtremes(val.min, val.max);
      FlushedBuffers(k, val.buffers, val.tot, val.min, val.max, inputs1, log1, min, max, old(tot), old(min), old(max));
      MergeBuffers(val.buffers);
      MergedRepresents(k, old(buffer), old(tot), old(min), old(max), old(inputs), old(log),
                       val.buffers, val.tot, val.min, val.max, inputs1, log1, buffer, tot, log);
      inputs, log := old(inputs) + inputs1, log + log1;
    }

    /** A string that breaks off: its whole buffers are merged, and what there is of the next one is read. */
    method MergePart(val: Flushed, ghost whole: Tree, ghost inputs1: seq<Bytes>, ghost log1: seq<nat>) returns (ghost merged: Tree)
      requires Valid() && val.tot > 0 && Represents(k, whole, val.tot, val.min, val.max, inputs1, log1)
      requires CutFrom(val, whole) && (val.tail.NoCount? || val.tail.NoElement?)
      modifies this
      ensures Merged(k, old(buffer), val.buffers, |val.buffers|, merged) && Structured(k, merged, tot)
      ensures buffer == LeftIn(merged, |val.buffers|, val.tail)
      ensures Structured(k, buffer, tot) <==> !ReadDirectly(merged, |val.buffers|, val.tail)
    {
      NoteExtremes(val.min, val.max);
      FlushedBuffers(k, whole, val.tot, val.min, val.max, inputs1, log1, min, max, old(tot), old(min), old(max));
      MergeablePart(k, whole, val.buffers, min, max);
      MergeBuffers(val.buffers);
      merged := buffer;
      LeftInUncounted(k, merged, tot, |val.buffers|, val.tail);
      if val.tail.NoElement? {
        ReadPart(|val.buffers|, val.tail.read);
      }
    }

    /** The buffer at `level` breaks off after the elements `read`. */
    method ReadPart(level: nat, read: seq<Bytes>)
      modifies this`buffer
      ensures buffer == LeftIn(old(buffer), level, NoElement(read))
    {
      ghost var before := buffer;
      EnsureBuffer(level);
      if |buffer[level]| == 0 {
        for i := 0 to |read|
          invariant level < |buffer| && buffer == Extend(before, level + 1)[level := read[..i]]
        {
          buffer := buffer[level := buffer[level] + [read[i]]];
          assert read[..i + 1] == read[..i] + [read[i]];
        }
        assert read[..|read|] == read;
        buffer := buffer[level := buffer[level] + [[]]];
      }
    }

    /** The next buffer of the flushed string; an empty one is skipped. */
    method MergeSlot(buffers: Tree, level: nat, ghost t0: Tree, ghost l0: seq<nat>)
      requires Structured(k, buffer, tot) && (level > 0 ==> tot > 0)
      requires Mergeable(k, buffers, min, max) && level < |buffers|
      requires Absorbing(k, t0, l0, Upto(buffers, level), buffer, log) && Merged(k, t0, buffers, level, buffer)
      modifies this
      ensures Structured(k, buffer, tot) && tot > 0
      ensures Absorbing(k, t0, l0, Upto(buffers, level + 1), buffer, log) && Merged(k, t0, buffers, level + 1, buffer)
      ensures min == old(min) && max == old(max)
      ensures buffers[level] != [] ==> level < |buffer|
    {
      var newBuffer := buffers[level];
      if |newBuffer| != 0 {
        MergeLevel(level, newBuffer);
      } else {
        AbsorbsNothing(k, buffer, log, 0);
        ReceivedNothing(k, buffer, level);
      }
      MergedMore(k, t0, buffers, level, old(buffer), buffer);
      AbsorbingStep(k, t0, l0, buffers, level, old(buffer), old(log), buffer, log);
    }

    method MergeBuffers(buffers: Tree)
      requires Structured(k, buffer, tot)
      requires Mergeable(k, buffers, min, max)
      modifies this
      ensures Structured(k, buffer, tot)
      ensures Absorbs(k, old(buffer), old(log), Levels(buffers), buffer, log)
      ensures Merged(k, old(buffer), buffers, |buffers|, buffer)
      ensures min == old(min) && max == old(max)
      ensures buffers != [] && buffers[|buffers| - 1] != [] ==> |buffers| <= |buffer|
    {
      AbsorbingStarts(k, buffer, log, buffers);
      MergedNothing(k, buffer, buffers);
      for level := 0 to |buffers|
        invariant Structured(k, buffer, tot) && (level > 0 ==> tot > 0)
        invariant Absorbing(k, old(buffer), old(log), Upto(buffers, level), buffer, log)
        invariant Merged(k, old(buffer), buffers, level, buffer)
        invariant min == old(min) && max == old(max)
        invariant level > 0 && buffers[level - 1] != [] ==> level <= |buffer|
      {
        MergeSlot(buffers, level, old(buffer), old(log));
      }
      AbsorbingEnds(k, old(buffer), old(log), buffers, buffer, log);
    }

    /** The quantiles for display; the leaves are left sorted, which changes nothing that the entry stands for. */
    method FlushForDisplay() returns (output: seq<Bytes>)
      requires Valid() && numQuantiles >= 2
      modifies this`buffer
      ensures Valid() && |buffer| == |old(buffer)|
      ensures tot == 0 ==> output == [[]]
      ensures tot > 0 ==> Quantiles(output, numQuantiles, inputs, Cost(log)) && Displays(old(buffer), tot, numQuantiles, output)
    {
      if tot == 0 {
        return [[]];
      }
      output, buffer := Display(k, buffer, tot, min, max, inputs, log, numQuantiles);
    }

    predicate Acceptable(val: Flushed) {
      val.tot >= 0 && val.numQuantiles == numQuantiles && val.epsilon <= 0.0 && val.k == k
    }
  }
}

/**
 * Up to which total a quantile table keeps what its header promises, exactly: over every run of adds and
 * merges, and with a run of one element more that breaks it.
 */
module QuantileLimit {
  import opened Arithmetic
  import opened Sealing
  import opened ByteStrings
  import opened QuantileSummary
  import opened QuantileAbsorb
  import opened QuantileGrowth
  import opened QuantileSplitters
  import opened QuantileTable
  import opened QuantileRuns
  import opened QuantileWorstCase

  // ---------------------------------------------------------- every run leaves a summary of its inputs

  lemma ArriveParts(t: Tree, level: nat, buf: seq<Bytes>, after: Tree) returns (merged: seq<Bytes>)
    requires level < |t| && t[level] != [] && Arrived(t, level, buf, after)
    ensures IsEveryOther(t[level], buf, merged) && Arrived(t[level := []], level + 1, merged, after)
    ensures |t[level]| == |buf| && Sorted(t[level]) && Sorted(buf) ==> IsCollapse(t[level], buf, merged)
  {
    assert Key(BufferFacts, 0);
    merged := Evens(Interleave(t[level], buf));
    if |t[level]| == |buf| && Sorted(t[level]) && Sorted(buf) { EvensCollapse(t[level], buf); }
  }

  lemma ArrivePlaced(t: Tree, level: nat, buf: seq<Bytes>, after: Tree)
    requires (level >= |t| || t[level] == []) && Arrived(t, level, buf, after)
    ensures after == Extend(t, level + 1)[level := buf]
  {
    assert Key(BufferFacts, 0);
  }

  /** A full buffer that arrives at a full level ripples upwards. */
  lemma {:induction false} ArriveCarries(k: nat, t: Tree, log: seq<nat>, level: nat, buf: seq<Bytes>, after: Tree) returns (log1: seq<nat>)
    requires WellShaped(k, t) && 1 <= level < |t| && |t[level]| == k && Sorted(t[level]) && |buf| == k && Sorted(buf)
    requires Arrived(t, level, buf, after)
    ensures Carried(k, t, log, level, buf, after, log1)
    decreases |t| - level
  {
    var u := t[level := []];
    var merged := ArriveParts(t, level, buf, after);
    if level + 1 < |t| && t[level + 1] != [] {
      log1 := ArriveCarries(k, u, log + [level], level + 1, merged, after);
      CarryGoesOn(k, t, log, level, buf, merged, after, log1);
    } else {
      log1 := log + [level];
      ArrivePlaced(u, level + 1, merged, after);
      CarryEnds(k, t, log, level, buf, merged);
    }
  }

  lemma Settles(k: nat, t: Tree, tot: nat, log: seq<nat>) returns (log1: seq<nat>)
    requires Structured(k, t, tot)
    ensures WellShaped(k, Settle(k, t)) && HasRoom(k, Settle(k, t)) && Absorbs(k, t, log, NOTHING, Settle(k, t), log1)
  {
    if BothFull(k, t) {
      var u := t[0 := []][1 := Sort(t[1])];
      TakenShape(k, t, u);
      log1 := ArriveCarries(k, u, log, 1, Sort(t[0]), Settle(k, t));
      LeavesCollapsed(k, t, log, Settle(k, t), log1);
    } else {
      log1 := log;
      AbsorbsNothing(k, t, log, 0);
    }
  }

  lemma Adds(k: nat, t: Tree, tot: nat, min: Bytes, max: Bytes, inputs: seq<Bytes>, log: seq<nat>, e: Bytes) returns (log1: seq<nat>)
    requires Structured(k, t, tot)
    ensures Structured(k, Grow(k, t, e), tot + 1) && Absorbs(k, t, log, One(0, [e]), Grow(k, t, e), log1)
    ensures Represents(k, t, tot, min, max, inputs, log) ==>
      Represents(k, Grow(k, t, e), tot + 1, Lesser(tot, min, e), Greater(tot, max, e), inputs + [e], log1)
  {
    log1 := Settles(k, t, tot, log);
    AddedTo(k, t, tot, min, max, inputs, log, Settle(k, t), e, Grow(k, t, e), log1);
  }

  lemma AddsOne(k: nat, t: Tree, tot: nat, log: seq<nat>, e: Bytes, after: Tree) returns (log1: seq<nat>)
    requires Structured(k, t, tot) && Grown(k, t, e, after)
    ensures Structured(k, after, tot + 1) && Absorbs(k, t, log, One(0, [e]), after, log1)
  {
    assert Key(BufferFacts, 0);
    log1 := Adds(k, t, tot, [], [], [], log, e);
  }

  lemma LastAdded(k: nat, t: Tree, elems: seq<Bytes>, n: nat, after: Tree) returns (before: Tree)
    requires n < |elems| && GrownAll(k, t, elems[..n + 1], after)
    ensures GrownAll(k, t, elems[..n], before) && Grown(k, before, elems[n], after)
  {
    assert Key(BufferFacts, 0);
    before := GrowAll(k, t, elems[..n]);
    assert elems[..n + 1] == elems[..n] + [elems[n]];
    OneMoreElem(k, t, elems[..n], elems[n]);
  }

  lemma NoneAdded(k: nat, t: Tree, log: seq<nat>, elems: seq<Bytes>, after: Tree)
    requires GrownAll(k, t, elems[..0], after)
    ensures after == t && Absorbs(k, t, log, One(0, elems[..0]), after, log)
  {
    assert Key(BufferFacts, 0);
    AbsorbsNothing(k, t, log, 0);
    NoElements(k, t, log, t, log);
  }

  lemma {:induction false} AddsAll(k: nat, t: Tree, tot: nat, log: seq<nat>, elems: seq<Bytes>, n: nat, after: Tree) returns (log1: seq<nat>)
    requires Structured(k, t, tot) && n <= |elems| && GrownAll(k, t, elems[..n], after)
    ensures Structured(k, after, tot + n) && Absorbs(k, t, log, One(0, elems[..n]), after, log1)
    decreases n
  {
    if n == 0 {
      log1 := log;
      NoneAdded(k, t, log, elems, after);
    } else {
      var before := LastAdded(k, t, elems, n - 1, after);
      var log0 := AddsAll(k, t, tot, log, elems, n - 1, before);
      log1 := AddsOne(k, before, tot + n - 1, log0, elems[n - 1], after);
      OneMoreElement(k, t, log, elems, n - 1, before, log0, after, log1);
    }
  }

  lemma Receives(k: nat, t: Tree, tot: nat, log: seq<nat>, level: nat, buf: seq<Bytes>) returns (tot1: nat, log1: seq<nat>)
    requires Structured(k, t, tot) && Deserialised(k, level, buf) && (tot == 0 ==> level == 0)
    ensures Structured(k, Receive(k, t, level, buf), tot1) && tot1 > 0 && level < |Receive(k, t, level, buf)|
    ensures Absorbs(k, t, log, One(level, buf), Receive(k, t, level, buf), log1)
  {
    if level >= |t| || t[level] == [] {
      tot1, log1 := tot + Worth(level, |buf|), log;
      PlacedStructured(k, t, log, tot, level, buf);
    } else if level >= 2 {
      tot1 := tot + Worth(level, k);
      log1 := ArriveCarries(k, t, log, level, buf, Arrive(t, level, buf));
      CarriedStructured(k, t, log, tot, level, buf, Arrive(t, level, buf), log1);
    } else {
      tot1 := tot + |buf|;
      assert buf[..|buf|] == buf;
      log1 := AddsAll(k, t, tot, log, buf, |buf|, GrowAll(k, t, buf));
      LeafParcel(k, t, log, level, buf, GrowAll(k, t, buf), log1);
    }
  }

  lemma {:induction false} Merges(k: nat, t: Tree, tot: nat, log: seq<nat>, buffers: Tree, n: nat, min: Bytes, max: Bytes) returns (tot1: nat, log1: seq<nat>)
    requires Structured(k, t, tot) && Mergeable(k, buffers, min, max) && n <= |buffers|
    ensures Structured(k, MergeUpto(k, t, buffers, n), tot1) && (n > 0 ==> tot1 > 0)
    ensures Absorbing(k, t, log, Upto(buffers, n), MergeUpto(k, t, buffers, n), log1)
    ensures n > 0 && buffers[n - 1] != [] ==> n <= |MergeUpto(k, t, buffers, n)|
  {
    if n == 0 {
      tot1, log1 := tot, log;
      AbsorbingStarts(k, t, log, buffers);
    } else {
      var before := MergeUpto(k, t, buffers, n - 1);
      var tot0, log0 := Merges(k, t, tot, log, buffers, n - 1, min, max);
      if buffers[n - 1] == [] {
        tot1, log1 := tot0, log0;
        AbsorbsNothing(k, before, log0, 0);
      } else {
        tot1, log1 := Receives(k, before, tot0, log0, n - 1, buffers[n - 1]);
      }
      AbsorbingStep(k, t, log, buffers, n - 1, before, log0, MergeUpto(k, t, buffers, n), log1);
    }
  }

  /** Whatever the run, the tree it leaves stands for everything added anywhere. */
  lemma {:induction false} RunRepresents(k: nat, run: Run) returns (min: Bytes, max: Bytes, log: seq<nat>)
    requires k > 0
    ensures Represents(k, TreeAfter(k, run), |Inputs(run)|, min, max, Inputs(run), log)
    decreases run
  {
    match run
    case Start => min, max, log := [], [], [];
    case Add(r, e) =>
      var min0, max0, log0 := RunRepresents(k, r);
      var tot := |Inputs(r)|;
      log := Adds(k, TreeAfter(k, r), tot, min0, max0, Inputs(r), log0, e);
      min, max := Lesser(tot, min0, e), Greater(tot, max0, e);
    case Join(a, b) =>
      var min0, max0, log0 := RunRepresents(k, a);
      var min1, max1, log1 := RunRepresents(k, b);
      min, max, log := JoinRepresents(k, a, b, min0, max0, log0, min1, max1, log1);
  }

  lemma JoinRepresents(k: nat, a: Run, b: Run, min0: Bytes, max0: Bytes, log0: seq<nat>, min1: Bytes, max1: Bytes, log1: seq<nat>)
    returns (min: Bytes, max: Bytes, log: seq<nat>)
    requires Represents(k, TreeAfter(k, a), |Inputs(a)|, min0, max0, Inputs(a), log0)
    requires Represents(k, TreeAfter(k, b), |Inputs(b)|, min1, max1, Inputs(b), log1)
    ensures Represents(k, TreeAfter(k, Join(a, b)), |Inputs(a) + Inputs(b)|, min, max, Inputs(a) + Inputs(b), log)
  {
    var t, t1, tot, tot1 := TreeAfter(k, a), TreeAfter(k, b), |Inputs(a)|, |Inputs(b)|;
    if tot1 == 0 {
      assert Inputs(a) + Inputs(b) == Inputs(a) && t1 == [];
      min, max, log := min0, max0, log0;
    } else {
      min, max := Lesser(tot, min0, min1), Greater(tot, max0, max1);
      FlushedBuffers(k, t1, tot1, min1, max1, Inputs(b), log1, min, max, tot, min0, max0);
      var tot2, log2 := Merges(k, t, tot, log0, t1, |t1|, min, max);
      log := log2 + log1;
      AbsorbingEnds(k, t, log0, t1, MergeUpto(k, t, t1, |t1|), log2);
      MergedRepresents(k, t, tot, min0, max0, Inputs(a), log0, t1, tot1, min1, max1, Inputs(b), log1,
                       MergeUpto(k, t, t1, |t1|), tot2, log2);
    }
  }

  // ------------------------------------------------------------------------------------ the promise

  /** Every quantile that can be shown after the run is as close to its rank as the header promises. */
  ghost predicate Keeps(k: nat, n: nat, run: Run)
    requires n >= 2
  {
    forall i, x :: 1 <= i <= n - 2 && AtRank(TreeAfter(k, run), Target(i, |Inputs(run)|, n), x) ==>
      RankOf(x, Inputs(run), Target(i, |Inputs(run)|, n), Allowed(|Inputs(run)|, n))
  }

  /** There is only one value at a rank, so what can be shown is what is shown. */
  lemma AtRankOnce(t: Tree, target: int, x: Bytes, y: Bytes)
    requires AtRank(t, target, x) && AtRank(t, target, y)
    ensures x == y
  {
    if x != y {
      LessTotal(x, y);
      if Less(x, y) { BelowIsMore(t, x, y); } else { BelowIsMore(t, y, x); }
    }
  }

  /** A run keeps the promise if and only if every quantile that is shown after it does. */
  lemma KeepsShown(k: nat, n: nat, run: Run, q: seq<Bytes>)
    requires n >= 2 && Displays(TreeAfter(k, run), |Inputs(run)|, n, q)
    ensures Keeps(k, n, run) <==>
      forall i :: 1 <= i <= n - 2 ==> RankOf(q[i], Inputs(run), Target(i, |Inputs(run)|, n), Allowed(|Inputs(run)|, n))
  {
    forall i, x | 1 <= i <= n - 2 && AtRank(TreeAfter(k, run), Target(i, |Inputs(run)|, n), x) ensures x == q[i] {
      AtRankOnce(TreeAfter(k, run), Target(i, |Inputs(run)|, n), x, q[i]);
    }
    forall i | 1 <= i <= n - 2 ensures AtRank(TreeAfter(k, run), Target(i, |Inputs(run)|, n), q[i]) {}
  }

  lemma BelowIsMore(t: Tree, x: Bytes, y: Bytes)
    requires Less(x, y)
    ensures Retained(t, UpTo(x)) <= Retained(t, Below(y))
  {
    forall e | Under(e, UpTo(x)) ensures Under(e, Below(y)) { AtMostLess(e, x, y); }
    RetainedWider(t, UpTo(x), Below(y));
  }

  /** What is at a rank in a summary is an input, at that rank but for the cost of the collapses. */
  lemma RankKept(k: nat, t: Tree, tot: nat, inputs: seq<Bytes>, log: seq<nat>, target: int, x: Bytes)
    requires Structured(k, t, tot) && Summarises(k, t, inputs, log) && AtRank(t, target, x)
    ensures RankOf(x, inputs, target, Cost(log)) && Count(inputs, UpTo(x)) >= 1
  {
    if !(exists j :: 0 <= j < |t| && x in t[j]) {
      NotThere(t, x);
    }
    var j :| 0 <= j < |t| && x in t[j];
    LessIrreflexive(x);
    CountsIt(inputs, x);
  }

  lemma {:induction false} CountsIt(s: seq<Bytes>, x: Bytes)
    requires x in s
    ensures Count(s, UpTo(x)) >= 1
  {
    LessIrreflexive(x);
    if s[|s| - 1] != x { CountsIt(s[..|s| - 1], x); }
  }

  lemma {:induction false} NotThere(t: Tree, x: Bytes)
    requires forall j :: 0 <= j < |t| ==> x !in t[j]
    ensures Retained(t, UpTo(x)) == Retained(t, Below(x))
  {
    if t != [] {
      NotThere(t[..|t| - 1], x);
      CountsAlike(t[|t| - 1], x);
    }
  }

  lemma {:induction false} CountsAlike(s: seq<Bytes>, x: Bytes)
    requires x !in s
    ensures Count(s, UpTo(x)) == Count(s, Below(x))
  {
    if s != [] {
      var last := s[|s| - 1];
      LessTotal(last, x);
      if Less(last, x) { LessImpliesAtMost(last, x); }
      CountsAlike(s[..|s| - 1], x);
    }
  }

  lemma AtMostQuotient(e: nat, d: nat, x: nat)
    requires d > 0 && e * d <= x
    ensures e <= x / d
  {
    if e > x / d {
      MulMonotone(x / d + 1, e, d);
      Swap(x / d, d);
      Distribute(d, x / d, 1);
    }
  }

  /** Up to `Safe(k, n)` elements every run keeps the promise. */
  lemma KeptUpToSafe(k: nat, n: nat, run: Run)
    requires k > 0 && n >= 2 && |Inputs(run)| <= Safe(k, n)
    ensures Keeps(k, n, run)
  {
    var t, tot := TreeAfter(k, run), |Inputs(run)|;
    var min, max, log := RunRepresents(k, run);
    OneEpsilonUpTo(k, n, t, tot, Inputs(run), log);
    AtMostQuotient(Cost(log), n - 1, tot);
    forall i, x | 1 <= i <= n - 2 && AtRank(t, Target(i, tot, n), x)
      ensures RankOf(x, Inputs(run), Target(i, tot, n), Allowed(tot, n))
    {
      RankKept(k, t, tot, Inputs(run), log, Target(i, tot, n), x);
    }
  }

  /** The first interior quantile is always close enough: its target is within what is allowed but for one. */
  lemma FirstKept(k: nat, n: nat, run: Run, x: Bytes)
    requires k > 0 && n >= 3 && Inputs(run) != [] && AtRank(TreeAfter(k, run), Target(1, |Inputs(run)|, n), x)
    ensures RankOf(x, Inputs(run), Target(1, |Inputs(run)|, n), Allowed(|Inputs(run)|, n))
  {
    var min, max, log := RunRepresents(k, run);
    var tot := |Inputs(run)|;
    RankKept(k, TreeAfter(k, run), tot, Inputs(run), log, Target(1, tot, n), x);
    FirstTarget(tot, n);
  }

  lemma FirstTarget(tot: nat, n: nat)
    requires n >= 2
    ensures Target(1, tot, n) <= Allowed(tot, n) + 1
  {
    CeilingFloor(tot, n - 1);
  }

  lemma CeilingFloor(x: nat, d: nat)
    requires d > 0
    ensures (x + d - 1) / d <= x / d + 1
  {
    var q := x / d;
    assert x == d * q + x % d;
    if x % d == 0 { DivModUnique(x + d - 1, d, q, d - 1); } else { DivModUnique(x + d - 1, d, q + 1, x % d - 1); Distribute(d, q, 1); }
  }

  /** So with up to three quantiles every run whatever keeps the promise. */
  lemma FewKept(k: nat, n: nat, run: Run)
    requires k > 0 && 2 <= n <= 3
    ensures Keeps(k, n, run)
  {
    if Inputs(run) == [] {
      KeptUpToSafe(k, n, run);
    } else if n == 3 {
      forall x | AtRank(TreeAfter(k, run), Target(1, |Inputs(run)|, n), x)
        ensures RankOf(x, Inputs(run), Target(1, |Inputs(run)|, n), Allowed(|Inputs(run)|, n))
      {
        FirstKept(k, n, run, x);
      }
    }
  }

  // --------------------------------------------------------------------------------- runs that break it

  /** With `retained` low values retained, `gain` of them too many, quantile `i` is a low value and too far off. */
  predicate Beats(tot: nat, n: nat, i: nat, retained: nat, gain: nat) {
    && 1 <= i <= n - 2 && tot > 0
    && Target(i, tot, n) <= retained && retained + Allowed(tot, n) < Target(i, tot, n) + gain
  }

  lemma {:induction false} NothingBelowLow(t: Tree)
    ensures Retained(t, Below(LOW)) == 0
  {
    if t != [] {
      NothingBelowLow(t[..|t| - 1]);
      CountNone(t[|t| - 1], Below(LOW));
    }
  }

  lemma BeatenBreaks(k: nat, n: nat, s: seq<Bytes>, i: nat, retained: nat, gain: nat)
    requires k > 0 && Beats(|s|, n, i, retained, gain)
    requires Count(s, LOWS) + gain == retained == Retained(TreeOf(k, s), LOWS)
    ensures !Keeps(k, n, RunOf(s)) && Inputs(RunOf(s)) == s
  {
    RunOfAdds(s);
    var t := TreeAfter(k, RunOf(s));
    NothingBelowLow(t);
    TargetRange(i, |s|, n);
    assert AtRank(t, Target(i, |s|, n), LOW);
    assert !RankOf(LOW, s, Target(i, |s|, n), Allowed(|s|, n));
  }

  lemma NextLeaf(k: nat, s: seq<Bytes>, t: Tree, e: Bytes, more: seq<Bytes>)
    requires k > 0 && Reaches(k, s, t) && EmptyTo(t, 1) && more == s + [e]
    ensures Retained(TreeOf(k, more), LOWS) == Retained(t, LOWS) + Count([e], LOWS)
  {
    assert Key(StreamFacts, 0);
    OneMoreInput(k, s, e);
    PushFirst(k, t, e);
    LeavesCount(t, [e], [], LOWS);
    assert Count([], LOWS) == 0;
  }

  /** A buffer that arrives at an empty level is retained there. */
  lemma ArrivedRetained(k: nat, t: Tree, level: nat, m: seq<Bytes>, h: nat, r: Tree)
    requires level >= 2 && EmptyTo(t, level) && Arrived(t, level, m, r) && FullWith(k, m, h)
    ensures Retained(r, LOWS) == Retained(t, LOWS) + Worth(level, h) && EmptyTo(r, level - 1)
  {
    PlacedAt(t, level, m, r);
    ExtendKeeps(t, level + 1, LOWS, 0);
    RetainedUpdate(Extend(t, level + 1), level, m, LOWS);
    assert Key(BufferFacts, 0) && Count([], LOWS) == 0;
  }

  /** A climbing stream after `s`, which has left levels up to its own empty. */
  lemma ClimbsRetained(k: nat, s: seq<Bytes>, t: Tree, c: nat, h: nat, p: seq<Bytes>) returns (r: Tree)
    requires k > 0 && 1 <= c && h <= k && IsClimbing(k, c, h, p) && Reaches(k, s, t) && EmptyTo(t, c + 1)
    ensures Reaches(k, s + p, r) && Retained(r, LOWS) == Retained(t, LOWS) + Worth(c + 1, h) && EmptyTo(r, c)
  {
    var m;
    m, r := Climbs(k, s, t, c, h, p, c + 1);
    ArrivedRetained(k, t, c + 1, m, h, r);
  }

  lemma FirstClimb(k: nat, c: nat, h: nat, p: seq<Bytes>) returns (r: Tree)
    requires k > 0 && 1 <= c && h <= k && IsClimbing(k, c, h, p)
    ensures Reaches(k, p, r) && Retained(r, LOWS) == Worth(c + 1, h) && EmptyTo(r, c)
  {
    assert Reaches(k, [], []);
    r := ClimbsRetained(k, [], [], c, h, p);
    assert [] + p == p;
  }

  /** A climbing stream and one element more. */
  function JustBeyond(k: nat, c: nat, h: nat, e: Bytes): (s: seq<Bytes>)
    requires 1 <= c && h <= k
  {
    Climbing(k, c, h) + [e]
  }

  lemma JustBeyondIs(k: nat, c: nat, h: nat, e: Bytes, s: seq<Bytes>)
    requires k > 0 && 1 <= c && h <= k && s == JustBeyond(k, c, h, e)
    ensures |s| == k * Pow2(c) + 1
    ensures Retained(TreeOf(k, s), LOWS) == Worth(c + 1, h) + Count([e], LOWS) == Count(s, LOWS) + Gain(c, h)
  {
    var p := Climbing(k, c, h);
    assert IsClimbing(k, c, h, p);
    var t := FirstClimb(k, c, h, p);
    NextLeaf(k, p, t, e, s);
    ClimbingCounts(k, c, h, p);
    CountConcat(p, [e], LOWS);
  }

  lemma ClimbingCounts(k: nat, c: nat, h: nat, p: seq<Bytes>)
    requires 1 <= c && h <= k && IsClimbing(k, c, h, p)
    ensures |p| == k * Pow2(c) && Count(p, LOWS) + Gain(c, h) == Worth(c + 1, h)
  {
    assert Key(StreamFacts, 0);
    ClimbingLows(k, c, h);
  }
}

/**
 * How bad the displayed quantiles can get: streams of two values on which every collapse rounds up, so
 * that the error is all that the collapses can cost, and more than the header promises.
 */
module QuantileWorstCase {
  import opened Sealing
  import opened Arithmetic
  import opened ByteStrings
  import opened QuantileSummary
  import opened QuantileAbsorb
  import opened QuantileGrowth
  import opened QuantileSplitters
  import opened QuantileTable
  import opened QuantileRuns

  const LOW: Bytes := []
  const HIGH: Bytes := [0]

  /** The cut that counts the low values. */
  const LOWS := UpTo(LOW)

  // ----------------------------------------------------------------------------------- the streams

  /** What fills both leaves. */
  function Block(k: nat, lows: nat): (s: seq<Bytes>)
    requires lows <= 2 * k
    ensures |s| == 2 * k
  {
    seq(lows, _ => LOW) + seq(2 * k - lows, _ => HIGH)
  }

  /** One low value fewer, if there is one. */
  function Fewer(h: nat): (r: nat) {
    if h == 0 then 0 else h - 1
  }

  /** A stream that arrives above level `level` as one buffer with `h` low values; collapses round up while there are any. */
  function Climbing(k: nat, level: nat, h: nat): (s: seq<Bytes>)
    requires 1 <= level && h <= k
    decreases level
  {
    if level == 1 then Block(k, h + Fewer(h)) else Climbing(k, level - 1, h) + Climbing(k, level - 1, Fewer(h))
  }

  predicate ClimbableTo(k: nat, hs: seq<nat>, n: nat)
    requires n <= |hs|
  {
    forall i :: 0 <= i < n ==> hs[i] <= k
  }

  /** At every level there are enough low values for all collapses to round up. */
  predicate AllRoundUp(hs: seq<nat>) {
    forall i :: 0 <= i < |hs| ==> i + 1 <= hs[i]
  }

  /** One buffer for each level, from the top down. */
  function Stacking(k: nat, hs: seq<nat>): (s: seq<Bytes>)
    requires ClimbableTo(k, hs, |hs|)
  {
    if hs == [] then [] else Climbing(k, |hs|, hs[|hs| - 1]) + Stacking(k, hs[..|hs| - 1])
  }

  function Worst(k: nat, hs: seq<nat>, last: nat): (s: seq<Bytes>)
    requires ClimbableTo(k, hs, |hs|) && last <= 2 * k
  {
    Stacking(k, hs) + Block(k, last)
  }

  // --------------------------------------------------------------------------------- what is counted

  lemma BlockLows(k: nat, lows: nat)
    requires lows <= 2 * k
    ensures Count(Block(k, lows), LOWS) == lows
  {
    var a, b: seq<Bytes> := seq(lows, _ => LOW), seq(2 * k - lows, _ => HIGH);
    CountConcat(a, b, LOWS);
    CountAll(a, LOWS);
    CountNone(b, LOWS);
  }

  /** By how much the climb to a level over-counts: its own collapse, and those of its two halves. */
  function Gain(level: nat, h: nat): (n: nat) {
    if level == 0 || h == 0 then 0 else Gain(level - 1, h) + Gain(level - 1, h - 1) + Weight(level)
  }

  /** The same where all collapses round up. */
  function Excess(level: nat): (n: nat) {
    if level == 0 then 0 else 2 * Excess(level - 1) + Weight(level)
  }

  lemma {:induction false} FullGain(level: nat, h: nat)
    requires level <= h
    ensures Gain(level, h) == Excess(level)
  {
    if level > 0 {
      FullGain(level - 1, h);
      FullGain(level - 1, h - 1);
    }
  }

  /** With one low value too few for that, one collapse does not round up. */
  lemma {:induction false} ShortGain(level: nat)
    requires level >= 1
    ensures Gain(level, level - 1) + 1 == Excess(level)
  {
    if level > 1 {
      FullGain(level - 1, level - 1);
      ShortGain(level - 1);
    } else {
      assert Excess(0) == 0 && Weight(1) == 1;
    }
  }

  /** A stream over-counted by its gain when it arrives with `h` low values. */
  ghost predicate Climber(k: nat, level: nat, h: nat, s: seq<Bytes>) {
    forall u {:trigger Key(StreamFacts, u)} :: Key(StreamFacts, u) ==> |s| == k * Pow2(level) && Count(s, LOWS) + Gain(level, h) == Worth(level + 1, h)
  }

  lemma {:induction false} ClimbingLows(k: nat, level: nat, h: nat)
    requires 1 <= level && h <= k
    ensures Climber(k, level, h, Climbing(k, level, h))
    decreases level
  {
    if level == 1 {
      BlockLows(k, h + Fewer(h));
      assert Pow2(1) == 2;
    } else {
      ClimbingLows(k, level - 1, h);
      ClimbingLows(k, level - 1, Fewer(h));
      TwoHalves(k, level, h, Climbing(k, level - 1, h), Climbing(k, level - 1, Fewer(h)));
    }
  }

  lemma TwoHalves(k: nat, level: nat, h: nat, p: seq<Bytes>, q: seq<Bytes>)
    requires level > 1 && Climber(k, level - 1, h, p) && Climber(k, level - 1, Fewer(h), q)
    ensures Climber(k, level, h, p + q)
  {
    assert Key(BufferFacts, 0) && Key(StreamFacts, 0);
    CountConcat(p, q, LOWS);
    if h > 0 { HalfMore(level, h); }
    Halves(k, level);
  }

  lemma HalfMore(level: nat, h: nat)
    requires level > 1 && h >= 1
    ensures Worth(level + 1, h) == Worth(level, h) + Worth(level, h - 1) + Weight(level)
  {
    WorthAdds(level, h - 1, 1);
  }

  lemma Halves(k: nat, level: nat)
    requires level >= 1
    ensures k * Pow2(level) == k * Pow2(level - 1) + k * Pow2(level - 1)
  {
    assert Pow2(level) == Pow2(level - 1) + Pow2(level - 1);
    Distribute(k, Pow2(level - 1), Pow2(level - 1));
  }

  lemma Distribute(k: nat, a: nat, b: nat)
    ensures k * (a + b) == k * a + k * b
  {
  }

  /** What the buffers of a stack retain of the low values. */
  function Stacked(hs: seq<nat>): (n: nat) {
    if hs == [] then 0 else Stacked(hs[..|hs| - 1]) + Worth(|hs| + 1, hs[|hs| - 1])
  }

  function AllGain(hs: seq<nat>): (n: nat) {
    if hs == [] then 0 else AllGain(hs[..|hs| - 1]) + Gain(|hs|, hs[|hs| - 1])
  }

  lemma {:induction false} AllGainFull(hs: seq<nat>)
    requires AllRoundUp(hs)
    ensures AllGain(hs) == AllExcess(|hs|)
  {
    if hs != [] {
      AllGainFull(hs[..|hs| - 1]);
      FullGain(|hs|, hs[|hs| - 1]);
    }
  }

  function AllExcess(levels: nat): (n: nat) {
    if levels == 0 then 0 else AllExcess(levels - 1) + Excess(levels)
  }

  lemma {:induction false} StackingLows(k: nat, hs: seq<nat>)
    requires ClimbableTo(k, hs, |hs|)
    ensures StackingIs(k, hs, Stacking(k, hs))
  {
    if hs == [] {
      assert Pow2(1) == 2 && Stacking(k, hs) == [];
    } else {
      var n := |hs|;
      ClimbingLows(k, n, hs[n - 1]);
      StackingLows(k, hs[..n - 1]);
      OnTop(k, hs, Climbing(k, n, hs[n - 1]), Stacking(k, hs[..n - 1]));
    }
  }

  /** A stream over-counted by all gains when its parts are stacked. */
  ghost predicate StackingIs(k: nat, hs: seq<nat>, s: seq<Bytes>) {
    forall u {:trigger Key(StreamFacts, u)} :: Key(StreamFacts, u) ==> |s| + 2 * k == k * Pow2(|hs| + 1) && Count(s, LOWS) + AllGain(hs) == Stacked(hs)
  }

  lemma OnTop(k: nat, hs: seq<nat>, p: seq<Bytes>, q: seq<Bytes>)
    requires hs != [] && Climber(k, |hs|, hs[|hs| - 1], p) && StackingIs(k, hs[..|hs| - 1], q)
    ensures StackingIs(k, hs, p + q)
  {
    assert Key(BufferFacts, 0) && Key(StreamFacts, 0);
    CountConcat(p, q, LOWS);
    Halves(k, |hs| + 1);
  }

  lemma {:induction false} AllExcessIs(levels: nat)
    ensures 2 * Excess(levels) == levels * Pow2(levels)
    ensures AllExcess(levels) + Pow2(levels) == levels * Pow2(levels) + 1
  {
    if levels == 0 {
      assert Pow2(0) == 1;
    } else {
      AllExcessIs(levels - 1);
      var p := Pow2(levels - 1);
      assert Pow2(levels) == 2 * p;
      OneLevelMore(levels, p);
    }
  }

  lemma OneLevelMore(n: nat, p: nat)
    requires n >= 1
    ensures n * (2 * p) == 2 * ((n - 1) * p) + 2 * p
  {
  }

  // ------------------------------------------------------------------------------- how the tree grows

  /** The tree once full leaves have been collapsed. */
  function After(k: nat, s: seq<Bytes>): (t: Tree) {
    Settle(k, TreeOf(k, s))
  }

  /** The same, handed on from step to step. */
  ghost predicate Reaches(k: nat, s: seq<Bytes>, t: Tree) {
    forall u {:trigger Key(StreamFacts, u)} :: Key(StreamFacts, u) ==> After(k, s) == t
  }

  /** Levels 0 to `n` hold nothing. */
  ghost predicate EmptyTo(t: Tree, n: nat) {
    forall j :: 0 <= j <= n && j < |t| ==> t[j] == []
  }

  function WithLeaves(t: Tree, a: seq<Bytes>, b: seq<Bytes>): (r: Tree) {
    Extend(t, 2)[0 := a][1 := b]
  }

  lemma PushLeaf(k: nat, t: Tree, a: seq<Bytes>, b: seq<Bytes>, e: Bytes)
    ensures Push(k, WithLeaves(t, a, b), e) == if |a| < k then WithLeaves(t, a + [e], b) else WithLeaves(t, a, b + [e])
  {
    assert Extend(WithLeaves(t, a, b), 2) == WithLeaves(t, a, b);
  }

  lemma NoLeaves(t: Tree)
    requires EmptyTo(t, 1)
    ensures Extend(t, 2) == WithLeaves(t, [], [])
  {
  }

  /** What the first and the second leaf hold after `i` elements of a block. */
  function First(k: nat, b: seq<Bytes>, i: nat): (r: seq<Bytes>)
    requires i <= |b|
  {
    if i < k then b[..i] else b[..k]
  }

  function Second(k: nat, b: seq<Bytes>, i: nat): (r: seq<Bytes>)
    requires i <= |b|
  {
    if i < k then [] else b[k..i]
  }

  lemma NextInLeaf(k: nat, b: seq<Bytes>, i: nat)
    requires i < |b| == 2 * k
    ensures if |First(k, b, i)| < k then First(k, b, i + 1) == First(k, b, i) + [b[i]] && Second(k, b, i + 1) == Second(k, b, i)
            else First(k, b, i + 1) == First(k, b, i) && Second(k, b, i + 1) == Second(k, b, i) + [b[i]]
    ensures |First(k, b, i)| < k || |Second(k, b, i)| < k
  {
  }

  lemma {:induction false} FillLeaves(k: nat, s: seq<Bytes>, t: Tree, b: seq<Bytes>, i: nat)
    requires k > 0 && Reaches(k, s, t) && EmptyTo(t, 1) && 1 <= i <= |b| == 2 * k
    ensures Built(k, s + b[..i], WithLeaves(t, First(k, b, i), Second(k, b, i)))
    decreases i
  {
    var e, before := b[i - 1], s + b[..i - 1];
    TakeOne(s, b, i);
    if i == 1 {
      FirstInLeaf(k, s, t, b);
    } else {
      FillLeaves(k, s, t, b, i - 1);
      LeafGrows(k, t, b, i - 1);
      BuiltFrom(k, before, WithLeaves(t, First(k, b, i - 1), Second(k, b, i - 1)), e, WithLeaves(t, First(k, b, i), Second(k, b, i)));
    }
  }

  lemma TakeOne(s: seq<Bytes>, b: seq<Bytes>, i: nat)
    requires 1 <= i <= |b|
    ensures s + b[..i] == s + b[..i - 1] + [b[i - 1]] && (i == 1 ==> s + b[..i - 1] == s)
  {
  }

  lemma FirstInLeaf(k: nat, s: seq<Bytes>, t: Tree, b: seq<Bytes>)
    requires k > 0 && Reaches(k, s, t) && EmptyTo(t, 1) && |b| == 2 * k
    ensures Built(k, s + [b[0]], WithLeaves(t, First(k, b, 1), Second(k, b, 1)))
  {
    assert Key(BufferFacts, 0) && Key(StreamFacts, 0);
    OneMoreInput(k, s, b[0]);
    PushFirst(k, t, b[0]);
    assert First(k, b, 1) == [b[0]] && Second(k, b, 1) == [];
  }

  lemma LeafGrows(k: nat, t: Tree, b: seq<Bytes>, i: nat)
    requires k > 0 && 1 <= i < |b| == 2 * k
    ensures Grown(k, WithLeaves(t, First(k, b, i), Second(k, b, i)), b[i], WithLeaves(t, First(k, b, i + 1), Second(k, b, i + 1)))
  {
    NextInLeaf(k, b, i);
    PushLeaf(k, t, First(k, b, i), Second(k, b, i), b[i]);
  }

  lemma PushFirst(k: nat, t: Tree, e: Bytes)
    requires k > 0 && EmptyTo(t, 1)
    ensures Push(k, t, e) == WithLeaves(t, [e], [])
  {
    var grown := Extend(t, 2);
    assert grown[0] == [] && grown[1] == [] && grown[0] + [e] == [e];
  }

  /** What a block becomes when its leaves are collapsed. */
  function Collapsed(k: nat, b: seq<Bytes>): (m: seq<Bytes>)
    requires |b| == 2 * k
  {
    Evens(Interleave(Sort(b[k..]), Sort(b[..k])))
  }

  lemma ArriveExtended(t: Tree, size: nat, level: nat, buf: seq<Bytes>)
    requires size <= level
    ensures Arrive(Extend(t, size), level, buf) == Arrive(t, level, buf)
  {
    if |t| < size {
      assert Extend(Extend(t, size), level + 1) == Extend(t, level + 1);
    } else {
      assert Extend(t, size) == t;
    }
  }

  lemma FullBlock(k: nat, s: seq<Bytes>, t: Tree, b: seq<Bytes>)
    requires k > 0 && |b| == 2 * k && Reaches(k, s, t) && EmptyTo(t, 1)
    ensures TreeOf(k, s + b) == WithLeaves(t, b[..k], b[k..])
  {
    FillLeaves(k, s, t, b, 2 * k);
    assert b[..2 * k] == b && b[k..2 * k] == b[k..] && Key(BufferFacts, 0) && Key(StreamFacts, 0);
  }

  lemma BlockArrives(k: nat, s: seq<Bytes>, t: Tree, b: seq<Bytes>)
    requires k > 0 && |b| == 2 * k && Reaches(k, s, t) && EmptyTo(t, 1)
    ensures Reaches(k, s + b, Arrive(t, 2, Collapsed(k, b)))
  {
    FullBlock(k, s, t, b);
    LeavesArrive(k, t, b[..k], b[k..]);
  }

  lemma LeavesArrive(k: nat, t: Tree, a: seq<Bytes>, b: seq<Bytes>)
    requires k > 0 && |a| == |b| == k && EmptyTo(t, 1)
    ensures Settle(k, WithLeaves(t, a, b)) == Arrive(t, 2, Evens(Interleave(Sort(b), Sort(a))))
  {
    var u := WithLeaves(t, a, b);
    var v := u[0 := []][1 := Sort(b)];
    SortSorts(b);
    assert v[1] != [];
    NoLeaves(t);
    assert v[1 := []] == Extend(t, 2);
    ArriveExtended(t, 2, 2, Evens(Interleave(Sort(b), Sort(a))));
  }

  /** A sorted buffer of `k` elements, `h` of them low. */
  ghost predicate FullWith(k: nat, m: seq<Bytes>, h: nat) {
    forall u {:trigger Key(BufferFacts, u)} :: Key(BufferFacts, u) ==> |m| == k && Sorted(m) && Count(m, LOWS) == h
  }

  /** Two buffers with an odd number of low values, or none: the collapse rounds up. */
  lemma RoundsUp(k: nat, a: seq<Bytes>, b: seq<Bytes>, h: nat)
    requires |a| == |b| == k && Sorted(a) && Sorted(b) && Count(a, LOWS) + Count(b, LOWS) == h + Fewer(h)
    ensures FullWith(k, Evens(Interleave(a, b)), h)
  {
    EvensCollapse(a, b);
  }

  lemma HalvesCount(b: seq<Bytes>, k: nat, c: Cut)
    requires |b| == 2 * k
    ensures Count(Sort(b[k..]), c) + Count(Sort(b[..k]), c) == Count(b, c)
  {
    assert b == b[..k] + b[k..];
    CountConcat(b[..k], b[k..], c);
    CountSort(b[..k], c);
    CountSort(b[k..], c);
  }

  lemma SortKeeps(s: seq<Bytes>)
    ensures |Sort(s)| == |s| && Sorted(Sort(s))
  {
    SortSorts(s);
  }

  lemma BlockRoundsUp(k: nat, h: nat, b: seq<Bytes>)
    requires h <= k && |b| == 2 * k && Count(b, LOWS) == h + Fewer(h)
    ensures FullWith(k, Collapsed(k, b), h)
  {
    HalvesCount(b, k, LOWS);
    SortKeeps(b[..k]);
    SortKeeps(b[k..]);
    RoundsUp(k, Sort(b[k..]), Sort(b[..k]), h);
  }

  ghost predicate IsClimbing(k: nat, level: nat, h: nat, c: seq<Bytes>) {
    forall u {:trigger Key(StreamFacts, u)} :: Key(StreamFacts, u) ==> 1 <= level && h <= k && c == Climbing(k, level, h)
  }

  lemma ClimbingParts(k: nat, level: nat, h: nat, c: seq<Bytes>) returns (p: seq<Bytes>, q: seq<Bytes>)
    requires 1 < level && h <= k && IsClimbing(k, level, h, c)
    ensures IsClimbing(k, level - 1, h, p) && IsClimbing(k, level - 1, Fewer(h), q) && c == p + q
  {
    assert Key(StreamFacts, 0);
    p, q := Climbing(k, level - 1, h), Climbing(k, level - 1, Fewer(h));
  }

  /** While the levels below are empty, a climbing stream arrives as one buffer above them. */
  lemma {:induction false} Climbs(k: nat, s: seq<Bytes>, t: Tree, level: nat, h: nat, c: seq<Bytes>, above: nat) returns (m: seq<Bytes>, r: Tree)
    requires k > 0 && 1 <= level && h <= k && IsClimbing(k, level, h, c) && Reaches(k, s, t) && EmptyTo(t, level) && above == level + 1
    ensures FullWith(k, m, h) && Reaches(k, s + c, r) && Arrived(t, above, m, r)
    decreases level
  {
    if level == 1 {
      m, r := ClimbsOne(k, s, t, h, c);
    } else {
      var p, q := ClimbingParts(k, level, h, c);
      var m1, t1 := Climbs(k, s, t, level - 1, h, p, level);
      StillEmpty(t, level, m1, t1);
      var m2, t2 := Climbs(k, s + p, t1, level - 1, Fewer(h), q, level);
      m := BothArrive(k, s, p, q, c, t, level, h, m1, t1, m2, t2, above);
      r := t2;
    }
  }

  lemma ClimbsOne(k: nat, s: seq<Bytes>, t: Tree, h: nat, c: seq<Bytes>) returns (m: seq<Bytes>, r: Tree)
    requires k > 0 && h <= k && IsClimbing(k, 1, h, c) && Reaches(k, s, t) && EmptyTo(t, 1)
    ensures FullWith(k, m, h) && Reaches(k, s + c, r) && Arrived(t, 2, m, r)
  {
    BlockFirst(k, h, c);
    m := Collapsed(k, c);
    r := Arrive(t, 2, m);
    BlockArrives(k, s, t, c);
    BlockRoundsUp(k, h, c);
  }

  lemma BlockFirst(k: nat, h: nat, c: seq<Bytes>)
    requires h <= k && IsClimbing(k, 1, h, c)
    ensures |c| == 2 * k && Count(c, LOWS) == h + Fewer(h)
  {
    assert Key(StreamFacts, 0);
    BlockLows(k, h + Fewer(h));
  }

  lemma BothArrive(k: nat, s: seq<Bytes>, p: seq<Bytes>, q: seq<Bytes>, pq: seq<Bytes>, t: Tree, level: nat, h: nat,
                   m1: seq<Bytes>, t1: Tree, m2: seq<Bytes>, t2: Tree, above: nat) returns (m: seq<Bytes>)
    requires k > 0 && 1 <= level && h <= k && EmptyTo(t, level) && FullWith(k, m1, h) && FullWith(k, m2, Fewer(h))
    requires Arrived(t, level, m1, t1) && Arrived(t1, level, m2, t2) && Reaches(k, s + p + q, t2)
    requires pq == p + q && above == level + 1
    ensures FullWith(k, m, h) && Reaches(k, s + pq, t2) && Arrived(t, above, m, t2)
  {
    assert s + pq == s + p + q && Key(BufferFacts, 0) && Key(StreamFacts, 0);
    m := Evens(Interleave(m1, m2));
    RoundsUp(k, m1, m2, h);
    PlacedAt(t, level, m1, t1);
    GoesOnAbove(t, level, m1, m2);
  }

  lemma StillEmpty(t: Tree, level: nat, m: seq<Bytes>, r: Tree)
    requires level >= 1 && EmptyTo(t, level) && Arrived(t, level, m, r)
    ensures EmptyTo(r, level - 1)
  {
    PlacedAt(t, level, m, r);
  }

  lemma PlacedAt(t: Tree, level: nat, m: seq<Bytes>, r: Tree)
    requires level >= 1 && EmptyTo(t, level) && Arrived(t, level, m, r)
    ensures r == Extend(t, level + 1)[level := m] && EmptyTo(r, level - 1)
  {
    assert Key(BufferFacts, 0) && Key(StreamFacts, 0);
  }

  lemma GoesOnAbove(t: Tree, level: nat, m1: seq<Bytes>, m2: seq<Bytes>)
    requires EmptyTo(t, level) && m1 != []
    ensures Arrive(Extend(t, level + 1)[level := m1], level, m2) == Arrive(t, level + 1, Evens(Interleave(m1, m2)))
  {
    var u := Extend(t, level + 1)[level := m1];
    assert u[level := []] == Extend(t, level + 1);
    ArriveExtended(t, level + 1, level + 1, Evens(Interleave(m1, m2)));
  }

  /** A tree with a buffer for each of `hs` on top of `t`. */
  ghost predicate Stack(k: nat, t: Tree, hs: seq<nat>, r: Tree) {
    && EmptyTo(r, 1) && Retained(r, LOWS) == Retained(t, LOWS) + Stacked(hs)
    && |r| == (if hs != [] && |t| < |hs| + 2 then |hs| + 2 else |t|)
    && (forall j :: 2 <= j < |r| ==> if j <= |hs| + 1 then |r[j]| == k else j < |t| && r[j] == t[j])
  }

  ghost predicate IsStacking(k: nat, hs: seq<nat>, c: seq<Bytes>) {
    forall u {:trigger Key(StreamFacts, u)} :: Key(StreamFacts, u) ==> ClimbableTo(k, hs, |hs|) && c == Stacking(k, hs)
  }

  lemma StackingParts(k: nat, hs: seq<nat>, c: seq<Bytes>) returns (p: seq<Bytes>, q: seq<Bytes>)
    requires hs != [] && IsStacking(k, hs, c)
    ensures hs[|hs| - 1] <= k && IsClimbing(k, |hs|, hs[|hs| - 1], p) && IsStacking(k, hs[..|hs| - 1], q) && c == p + q
  {
    assert Key(StreamFacts, 0);
    p, q := Climbing(k, |hs|, hs[|hs| - 1]), Stacking(k, hs[..|hs| - 1]);
  }

  lemma StackingNothing(k: nat, s: seq<Bytes>, t: Tree, c: seq<Bytes>)
    requires IsStacking(k, [], c) && Reaches(k, s, t) && EmptyTo(t, 1)
    ensures Reaches(k, s + c, t) && Stack(k, t, [], t)
  {
    assert Key(StreamFacts, 0);
    assert s + c == s;
  }

  lemma {:induction false} Stacks(k: nat, s: seq<Bytes>, t: Tree, hs: seq<nat>, c: seq<Bytes>) returns (r: Tree)
    requires k > 0 && IsStacking(k, hs, c) && Reaches(k, s, t) && EmptyTo(t, |hs| + 1)
    ensures Reaches(k, s + c, r) && Stack(k, t, hs, r)
    decreases |hs|
  {
    if hs == [] {
      StackingNothing(k, s, t, c);
      r := t;
    } else {
      var n, init := |hs|, hs[..|hs| - 1];
      var p, q := StackingParts(k, hs, c);
      var m, t1 := Climbs(k, s, t, n, hs[n - 1], p, n + 1);
      StillEmpty(t, n + 1, m, t1);
      r := Stacks(k, s + p, t1, init, q);
      assert s + c == s + p + q;
      OneMoreOnStack(k, t, hs, m, t1, r);
    }
  }

  lemma OneMoreOnStack(k: nat, t: Tree, hs: seq<nat>, m: seq<Bytes>, t1: Tree, r: Tree)
    requires hs != [] && EmptyTo(t, |hs| + 1) && Arrived(t, |hs| + 1, m, t1)
    requires FullWith(k, m, hs[|hs| - 1]) && Stack(k, t1, hs[..|hs| - 1], r)
    ensures Stack(k, t, hs, r)
  {
    var n := |hs|;
    PlacedAt(t, n + 1, m, t1);
    ExtendKeeps(t, n + 2, LOWS, 0);
    RetainedUpdate(Extend(t, n + 2), n + 1, m, LOWS);
    assert Count([], LOWS) == 0 && Key(BufferFacts, 0) && Key(StreamFacts, 0);
  }

  /** After the whole stream all levels are full, and the low values are over-counted by all that was rounded up. */
  lemma WorstTree(k: nat, hs: seq<nat>, last: nat, whole: seq<Bytes>)
    requires k > 0 && ClimbableTo(k, hs, |hs|) && last <= 2 * k && hs != [] && whole == Worst(k, hs, last)
    ensures |whole| == k * Pow2(|hs| + 1) && AllFull(k, TreeOf(k, whole), |hs|)
    ensures Retained(TreeOf(k, whole), LOWS) == Stacked(hs) + last == Count(whole, LOWS) + AllGain(hs)
  {
    var s, b := Stacking(k, hs), Block(k, last);
    var t := StackFromNothing(k, hs, s);
    StackingLows(k, hs);
    BlockLows(k, last);
    LastBlock(k, hs, s, t, b, last, whole);
  }

  lemma StackFromNothing(k: nat, hs: seq<nat>, s: seq<Bytes>) returns (t: Tree)
    requires k > 0 && ClimbableTo(k, hs, |hs|) && s == Stacking(k, hs)
    ensures Reaches(k, s, t) && Stack(k, [], hs, t)
  {
    assert Reaches(k, [], []);
    t := Stacks(k, [], [], hs, s);
    assert [] + s == s;
  }

  lemma LastBlock(k: nat, hs: seq<nat>, s: seq<Bytes>, t: Tree, b: seq<Bytes>, last: nat, whole: seq<Bytes>)
    requires k > 0 && hs != [] && Reaches(k, s, t) && Stack(k, [], hs, t) && StackingIs(k, hs, s)
    requires |b| == 2 * k && Count(b, LOWS) == last && whole == s + b
    ensures |whole| == k * Pow2(|hs| + 1) && AllFull(k, TreeOf(k, whole), |hs|)
    ensures Retained(TreeOf(k, whole), LOWS) == Stacked(hs) + last == Count(whole, LOWS) + AllGain(hs)
  {
    CountConcat(s, b, LOWS);
    FullBlock(k, s, t, b);
    LeafCounts(k, t, b, LOWS);
    FullLeaves(k, t, hs, b[..k], b[k..]);
    StackTotals(k, hs, s, t);
  }

  lemma StackTotals(k: nat, hs: seq<nat>, s: seq<Bytes>, t: Tree)
    requires Stack(k, [], hs, t) && StackingIs(k, hs, s)
    ensures |s| + 2 * k == k * Pow2(|hs| + 1) && Retained(t, LOWS) == Stacked(hs) == Count(s, LOWS) + AllGain(hs)
  {
    assert Key(StreamFacts, 0);
  }

  lemma LeafCounts(k: nat, t: Tree, b: seq<Bytes>, c: Cut)
    requires EmptyTo(t, 1) && k <= |b|
    ensures Retained(WithLeaves(t, b[..k], b[k..]), c) == Retained(t, c) + Count(b, c)
  {
    LeavesCount(t, b[..k], b[k..], c);
    assert b == b[..k] + b[k..];
    CountConcat(b[..k], b[k..], c);
  }

  lemma FullLeaves(k: nat, t: Tree, hs: seq<nat>, a: seq<Bytes>, b: seq<Bytes>)
    requires hs != [] && Stack(k, [], hs, t) && |a| == |b| == k
    ensures AllFull(k, WithLeaves(t, a, b), |hs|)
  {
  }

  /** The leaves and `levels` levels above them are full. */
  ghost predicate AllFull(k: nat, t: Tree, levels: nat) {
    |t| == levels + 2 && forall j :: 0 <= j < |t| ==> |t[j]| == k
  }

  lemma LeavesCount(t: Tree, a: seq<Bytes>, b: seq<Bytes>, c: Cut)
    requires EmptyTo(t, 1)
    ensures Retained(WithLeaves(t, a, b), c) == Retained(t, c) + Count(a, c) + Count(b, c)
  {
    var g := Extend(t, 2);
    assert g[0] == [] && g[1] == [] && Count([], c) == 0;
    ExtendKeeps(t, 2, c, 0);
    RetainedUpdate(g, 0, a, c);
    RetainedUpdate(g[0 := a], 1, b, c);
  }

  // ------------------------------------------------------------- no more than the collapses can cost

  lemma {:induction false} FullMass(k: nat, t: Tree, l: nat)
    requires 1 <= l < |t| && forall j :: 0 <= j < |t| ==> |t[j]| == k
    ensures MassAbove(t, l) + k * Weight(l + 1) == k * Weight(|t|)
    decreases |t|
  {
    var top := |t| - 1;
    if top > l {
      FullMass(k, t[..top], l);
      WorthIsProduct(top, k);
      Swap(Weight(top), k);
      Distribute(k, Weight(top), Weight(top));
    }
  }

  /** In a full tree every level has cost the weight of the top less its own. */
  lemma LevelCost(k: nat, t: Tree, inputs: seq<Bytes>, log: seq<nat>, levels: nat, l: nat)
    requires k > 0 && AllFull(k, t, levels) && Summarises(k, t, inputs, log) && 1 <= l <= levels
    ensures Times(log, l) * Weight(l) + Weight(l) == Pow2(levels)
  {
    FullMass(k, t, l);
    LiftedTimes(k, log, l);
    CostOfLevel(k, Weight(l), Times(log, l), Pow2(levels));
  }

  lemma CostOfLevel(k: nat, w: nat, times: nat, p: nat)
    requires k > 0 && 2 * w * k * times + k * (2 * w) == k * (2 * p)
    ensures times * w + w == p
  {
    assert 2 * w * k * times == 2 * k * (times * w) by { LevelShare(k, 0, times, w); }
    Distribute(2 * k, times * w, w);
    CancelLeft(2 * k, times * w + w, p);
    CancelLeft(2 * k, p, times * w + w);
  }

  lemma {:induction false} CostUpTo(k: nat, t: Tree, inputs: seq<Bytes>, log: seq<nat>, levels: nat, l: nat)
    requires k > 0 && AllFull(k, t, levels) && Summarises(k, t, inputs, log) && l <= levels
    ensures CostByLevel(log, l) + Pow2(l) == l * Pow2(levels) + 1
  {
    if l == 0 {
      assert Pow2(0) == 1;
    } else {
      CostUpTo(k, t, inputs, log, levels, l - 1);
      LevelCost(k, t, inputs, log, levels, l);
      assert Pow2(l) == 2 * Pow2(l - 1) && Weight(l) == Pow2(l - 1);
      assert l * Pow2(levels) == (l - 1) * Pow2(levels) + Pow2(levels);
    }
  }

  /** The streams are the worst there are: whatever was rounded up, and nothing else, is what the collapses cost. */
  lemma WorstCost(k: nat, hs: seq<nat>, last: nat, s: seq<Bytes>, log: seq<nat>)
    requires k > 0 && ClimbableTo(k, hs, |hs|) && AllRoundUp(hs) && last <= 2 * k && hs != [] && s == Worst(k, hs, last)
    requires Summarises(k, TreeOf(k, s), s, log)
    ensures Retained(TreeOf(k, s), LOWS) - Count(s, LOWS) == Cost(log) == AllExcess(|hs|)
  {
    var levels := |hs|;
    WorstTree(k, hs, last, s);
    AllGainFull(hs);
    CostUpTo(k, TreeOf(k, s), s, log, levels, levels);
    CostRegrouped(log, levels);
    AllExcessIs(levels);
  }

  // ------------------------------------------------------------------------- hitting a target rank

  /** Numbers of low values for each level: `a`, and one more for each bit of `r`; the last bit is left over. */
  lemma {:induction false} ChooseHeights(a: nat, r: nat, levels: nat) returns (hs: seq<nat>, bit: nat)
    requires r < Pow2(levels + 1)
    ensures |hs| == levels && (forall i :: 0 <= i < levels ==> a <= hs[i] <= a + 1) && bit <= 1
    ensures Stacked(hs) + 2 * a + bit == Worth(levels + 2, a) + r
  {
    if levels == 0 {
      assert Pow2(1) == 2 && Worth(2, a) == 2 * a;
      hs, bit := [], r;
      return;
    }
    var p := Pow2(levels);
    var less, h := if r >= p then r - p else r, if r >= p then a + 1 else a;
    assert Pow2(levels + 1) == 2 * p && Worth(levels + 2, a) == 2 * Worth(levels + 1, a);
    var below;
    below, bit := ChooseHeights(a, less, levels - 1);
    OneMoreHeight(a, levels, below, h);
    hs := below + [h];
  }

  lemma OneMoreHeight(a: nat, levels: nat, hs: seq<nat>, h: nat)
    requires levels >= 1 && |hs| == levels - 1 && a <= h <= a + 1
    ensures Stacked(hs + [h]) == Stacked(hs) + Worth(levels + 1, a) + if h == a then 0 else Pow2(levels)
  {
    assert (hs + [h])[..levels - 1] == hs;
    WorthAdds(levels + 1, a, h - a);
  }

  /**
   * When a tree of so many levels can break the promise for `n` quantiles: its collapses can cost more than
   * is allowed, and there are enough low values for all of them to round up.
   */
  predicate Breakable(k: nat, n: nat, levels: nat) {
    && n >= 3 && levels >= 1 && 2 * k <= (levels - 1) * (n - 1)
    && levels * (n - 1) <= (n - 2) * k && n - 1 <= k * Pow2(levels + 1)
  }

  /** The target of the last interior quantile. */
  function LastTarget(k: nat, n: nat, levels: nat): (t: int)
    requires n >= 2
  {
    Target(n - 2, k * Pow2(levels + 1), n)
  }

  lemma {:induction false} PowPositive(n: nat)
    ensures Pow2(n) > 0
  {
  }

  lemma TargetFits(k: nat, n: nat, levels: nat)
    requires Breakable(k, n, levels)
    ensures Pow2(levels + 1) > 0 && levels * Pow2(levels + 1) <= LastTarget(k, n, levels) < k * Pow2(levels + 1)
  {
    var d, p, t := n - 1, Pow2(levels + 1), LastTarget(k, n, levels);
    PowPositive(levels + 1);
    TargetRounds(n - 2, k * p, n);
    FitsBelow(d, k * p, t);
    FitsAbove(d, k, p, levels, t);
  }

  lemma FitsBelow(d: nat, tot: nat, t: int)
    requires 1 <= d <= tot && d * (t - 1) < (d - 1) * tot
    ensures t < tot
  {
    if t >= tot { LeastOver(d, tot, t); }
  }

  lemma LeastOver(d: nat, tot: nat, t: int)
    requires 1 <= d <= tot <= t
    ensures d * (t - 1) >= (d - 1) * tot
  {
    Order(d, tot - 1, t - 1);
    assert d * (tot - 1) == d * tot - d && (d - 1) * tot == d * tot - tot;
  }

  lemma FitsAbove(d: nat, k: nat, p: nat, levels: nat, t: int)
    requires d >= 1 && levels * d <= (d - 1) * k && (d - 1) * (k * p) <= d * t
    ensures levels * p <= t
  {
    MulMonotone(levels * d, (d - 1) * k, p);
    Reassociate(levels, d, p);
    Reassociate(d - 1, k, p);
    Reassociate(d, levels, p);
    Swap(levels, d);
    if levels * p > t { StrictOrder(d, t, levels * p); }
  }

  lemma StrictOrder(d: nat, a: int, b: int)
    requires d > 0 && a < b
    ensures d * a < d * b
  {
  }

  lemma QuotientBetween(t: nat, p: nat, lo: nat, hi: nat)
    requires p > 0 && lo * p <= t < hi * p
    ensures lo <= t / p < hi && t == t / p * p + t % p
  {
    var q := t / p;
    if q < lo { MulMonotone(q + 1, lo, p); }
    if q >= hi { MulMonotone(hi, q, p); }
  }

  /** What each level and the leaves get of low values, for the last target. */
  ghost predicate Chooses(k: nat, n: nat, levels: nat, hs: seq<nat>, last: nat) {
    n >= 2 && |hs| == levels && ClimbableTo(k, hs, |hs|) && AllRoundUp(hs) && last <= 2 * k && Stacked(hs) + last == LastTarget(k, n, levels)
  }

  lemma Choose(k: nat, n: nat, levels: nat) returns (hs: seq<nat>, last: nat)
    requires Breakable(k, n, levels)
    ensures Chooses(k, n, levels, hs, last)
  {
    var t, p := LastTarget(k, n, levels), Pow2(levels + 1);
    TargetFits(k, n, levels);
    QuotientBetween(t, p, levels, k);
    var bit;
    hs, bit := ChooseHeights(t / p, t % p, levels);
    last := 2 * (t / p) + bit;
    WorthIsProduct(levels + 2, t / p);
    Swap(p, t / p);
  }

  lemma {:induction false} CountWider(s: seq<Bytes>, c: Cut, d: Cut)
    requires forall e :: Under(e, c) ==> Under(e, d)
    ensures Count(s, c) <= Count(s, d)
  {
    if s != [] { CountWider(s[..|s| - 1], c, d); }
  }

  lemma {:induction false} RetainedWider(t: Tree, c: Cut, d: Cut)
    requires forall e :: Under(e, c) ==> Under(e, d)
    ensures Retained(t, c) <= Retained(t, d)
  {
    if t != [] {
      var top := |t| - 1;
      RetainedWider(t[..top], c, d);
      CountWider(t[top], c, d);
      WorthMonotone(top, Count(t[top], c), Count(t[top], d));
    }
  }

  /** If the low values are retained as often as the target says, the low value is what is shown. */
  lemma LowIsShown(t: Tree, target: int, x: Bytes)
    requires Retained(t, LOWS) == target && AtRank(t, target, x)
    ensures x == LOW
  {
    if x != LOW { RetainedWider(t, LOWS, Below(x)); }
  }

  /** The error that the header allows: `epsilon * tot`, where `epsilon = 1 / (n - 1)`. */
  function Allowed(tot: nat, n: nat): (e: nat)
    requires n >= 2
  {
    tot / (n - 1)
  }

  /** A stream whose low values are retained as often as the last target says, though there are fewer. */
  ghost predicate Overshoots(k: nat, n: nat, levels: nat, s: seq<Bytes>, tree: Tree) {
    && n >= 2 && |s| == k * Pow2(levels + 1) && Retained(tree, LOWS) == LastTarget(k, n, levels)
    && Count(s, LOWS) + AllExcess(levels) == LastTarget(k, n, levels)
  }

  lemma ChosenOvershoots(k: nat, n: nat, levels: nat, hs: seq<nat>, last: nat, s: seq<Bytes>)
    requires k > 0 && levels > 0 && Chooses(k, n, levels, hs, last) && s == Worst(k, hs, last)
    ensures Overshoots(k, n, levels, s, TreeOf(k, s))
  {
    WorstTree(k, hs, last, s);
    AllGainFull(hs);
  }

  /**
   * The last interior quantile of such a stream is further from its target than the promise allows: fewer
   * inputs than the target, less `tot / (n - 1)`, are at or below it.
   */
  lemma PromiseBroken(k: nat, n: nat, levels: nat, s: seq<Bytes>, tree: Tree, x: Bytes)
    requires k > 0 && Breakable(k, n, levels) && Overshoots(k, n, levels, s, tree)
    requires AtRank(tree, LastTarget(k, n, levels), x)
    ensures Count(s, UpTo(x)) + AllExcess(levels) == LastTarget(k, n, levels)
    ensures Allowed(|s|, n) < AllExcess(levels) && !RankOf(x, s, LastTarget(k, n, levels), Allowed(|s|, n))
  {
    LowIsShown(tree, LastTarget(k, n, levels), x);
    TooMuch(k, n, levels);
    QuotientBelow(|s|, n - 1, AllExcess(levels));
  }

  lemma TooMuch(k: nat, n: nat, levels: nat)
    requires Breakable(k, n, levels)
    ensures AllExcess(levels) * (n - 1) > k * Pow2(levels + 1)
  {
    var p := Pow2(levels);
    AllExcessIs(levels);
    assert Pow2(levels + 1) == 2 * p;
    MulMonotone(2 * k, (levels - 1) * (n - 1), p);
    MoreThan(k, n - 1, levels, p, AllExcess(levels));
  }

  lemma MoreThan(k: nat, d: nat, levels: nat, p: nat, e: nat)
    requires d >= 1 && levels >= 1 && 2 * k * p <= (levels - 1) * d * p && e + p == levels * p + 1
    ensures e * d > k * (2 * p)
  {
    assert e == (levels - 1) * p + 1;
    Reassociate(levels - 1, d, p);
    Reassociate(levels - 1, p, d);
    assert ((levels - 1) * p + 1) * d == (levels - 1) * p * d + d;
    assert k * (2 * p) == 2 * k * p;
  }

  lemma QuotientBelow(x: nat, d: nat, e: nat)
    requires d > 0 && e * d > x
    ensures x / d < e
  {
    Swap(x / d, d);
    if x / d >= e { MulMonotone(e, x / d, d); }
  }

  // ---------------------------------------------------------------------------------- every table

  /** From so many levels on, a table with `n` quantiles can break the promise. */
  function FirstBreak(k: nat, n: nat): (levels: nat)
    requires n >= 2
  {
    (2 * k + n - 2) / (n - 1) + 1
  }

  /**
   * The promise holds up to `2k / (n - 1)` levels, rounded down; it can be broken from one level more than
   * that, rounded up, for every table with five quantiles or more.
   */
  lemma EveryTableBreaks(k: nat, b: nat, n: nat)
    requires Sized(k, b, n) && n >= 5
    ensures Breakable(k, n, FirstBreak(k, n))
    ensures 2 * k / (n - 1) < FirstBreak(k, n) <= 2 * k / (n - 1) + 2
  {
    var d, c := n - 1, FirstBreak(k, n) - 1;
    RoundedUp(2 * k, d, c);
    EnoughRoom(k, d, c);
    AffordableBound(k, b, n);
    FewQuantiles(k, d, b - 3, c + 2);
  }

  lemma EnoughRoom(k: nat, d: nat, c: nat)
    requires k >= 16 && d >= 4 && c * d < 2 * k + d
    ensures (c + 1) * d <= (d - 1) * k
  {
    assert (c + 1) * d == c * d + d;
    Order(d - 3, 16, k);
    assert (d - 1) * k == (d - 3) * k + 2 * k;
  }

  lemma FewQuantiles(k: nat, d: nat, b: nat, e: nat)
    requires d * b <= 4 * k && b >= 6
    ensures d <= k * Pow2(e)
  {
    Order(d, 6, b);
    PowPositive(e);
    MulGrows(k, Pow2(e));
  }

  lemma RoundedUp(x: nat, d: nat, c: nat)
    requires d > 0 && c == (x + d - 1) / d
    ensures x <= c * d < x + d && x / d <= c <= x / d + 1
  {
    Swap(c, d);
    var q := x / d;
    assert x == d * q + x % d;
    if x % d == 0 { DivModUnique(x + d - 1, d, q, d - 1); } else { DivModUnique(x + d - 1, d, q + 1, x % d - 1); Distribute(d, q, 1); }
  }

  function RunOf(s: seq<Bytes>): (run: Run) {
    if s == [] then Start else Add(RunOf(s[..|s| - 1]), s[|s| - 1])
  }

  lemma {:induction false} RunOfAdds(s: seq<Bytes>)
    ensures Inputs(RunOf(s)) == s && forall k :: TreeAfter(k, RunOf(s)) == TreeOf(k, s)
  {
    if s != [] { RunOfAdds(s[..|s| - 1]); }
  }

  lemma {:induction false} AffordableBefore(a: nat, b: nat, n: nat)
    requires 2 <= a <= b && n >= 2 && Affordable(b, n)
    ensures Affordable(a, n)
    decreases b - a
  {
    if a < b {
      assert Pow2(b - 2) == 2 * Pow2(b - 3);
      OneMoreTwice(b - 3, Pow2(b - 3));
      AffordableBefore(a, b - 1, n);
    }
  }

  lemma OneMoreTwice(a: nat, p: nat)
    ensures a * p <= (a + 1) * (2 * p)
  {
  }

  lemma SizedOnce(k: nat, b: nat, k1: nat, b1: nat, n: nat)
    requires Sized(k, b, n) && Sized(k1, b1, n)
    ensures k == k1
  {
    if b < b1 { AffordableBefore(b, b1 - 1, n); }
    if b1 < b { AffordableBefore(b1, b - 1, n); }
    PowPositive(b - 1);
    CancelFactor(k, k1, Pow2(b - 1));
    CancelFactor(k1, k, Pow2(b - 1));
  }

  /** What such a table shows in the end, and that it is not what the header promises. */
  method BreakPromise(n: nat, k: nat, ghost b: nat, levels: nat, hs: seq<nat>, last: nat) returns (run: Run, q: seq<Bytes>)
    requires n <= MAX_INT && Sized(k, b, n) && Breakable(k, n, levels) && Chooses(k, n, levels, hs, last)
    ensures |Inputs(run)| == k * Pow2(levels + 1) && |q| == n
    ensures Count(Inputs(run), UpTo(q[n - 2])) + AllExcess(levels) == LastTarget(k, n, levels)
    ensures !RankOf(q[n - 2], Inputs(run), Target(n - 2, |Inputs(run)|, n), Allowed(|Inputs(run)|, n))
  {
    var s := Worst(k, hs, last);
    ChosenOvershoots(k, n, levels, hs, last, s);
    run := RunOf(s);
    RunOfAdds(s);
    ghost var k1, b1, log;
    q, k1, b1, log := Report(run, n);
    SizedOnce(k, b, k1, b1, n);
    NotEmpty(k, n, levels);
    PromiseBroken(k, n, levels, s, TreeOf(k, s), q[n - 2]);
  }

  lemma NotEmpty(k: nat, n: nat, levels: nat)
    requires Breakable(k, n, levels)
    ensures k * Pow2(levels + 1) > 0
  {
  }

  /**
   * Percentiles: with 101 quantiles, `k` is 1024; over as many elements as the table is made for, the
   * error reaches 15032385537 where 10995116277 is allowed.
   */
  lemma Percentiles(k: nat, b: nat, n: nat, levels: nat)
    requires k == 1024 && b == 31 && n == 101 && levels == 29
    ensures Sized(k, b, n) && Breakable(k, n, levels) && k * Pow2(levels + 1) == MAX_TOT_ELEMS
    ensures AllExcess(levels) == 15032385537 && Allowed(MAX_TOT_ELEMS, n) == 10995116277
  {
    SomePowers(levels);
    AllExcessIs(levels);
  }

  lemma SomePowers(l: nat)
    requires l == 29
    ensures Pow2(l - 1) == 268435456 && Pow2(l) == 536870912 && Pow2(l + 1) == 1073741824
  {
    assert Pow2(1) == 2 && Pow2(2) == 4 && Pow2(3) == 8;
    Pow2Adds(2, 2);
    Pow2Adds(4, 3);
    Pow2Adds(7, 7);
    Pow2Adds(14, 14);
    Pow2Adds(1, 28);
    Pow2Adds(1, 29);
  }
}

/**
 * The values behind a quantile table entry: buffers of a Munro-Paterson tree, what each
 * retained element stands for, and what merging two full buffers into one costs in rank.
 */
module QuantileSummary {
  import opened Sealing
  import opened ByteStrings

  /** The contents of `buffer_`, level by level; a null pointer and an empty vector both hold nothing. */
  type Tree = seq<seq<Bytes>>

  /** How many inputs `n` elements of a level stand for: themselves in the leaves, twice as many from level to level. */
  function Worth(level: nat, n: nat): (w: nat)
    ensures n <= w
    ensures n == 0 ==> w == 0
  {
    if level <= 1 then n else 2 * Worth(level - 1, n)
  }

  /** How many inputs one element of a level stands for. */
  function Weight(level: nat): (w: nat) {
    Worth(level, 1)
  }

  lemma {:induction false} WorthIsProduct(level: nat, n: nat)
    ensures Worth(level, n) == Weight(level) * n
  {
    if level > 1 { WorthIsProduct(level - 1, n); }
  }

  lemma {:induction false} WorthAdds(level: nat, m: nat, n: nat)
    ensures Worth(level, m + n) == Worth(level, m) + Worth(level, n)
  {
    if level > 1 { WorthAdds(level - 1, m, n); }
  }

  /** Downward closed sets of elements, the ranks that a summary can be asked about. */
  datatype Cut = UpTo(x: Bytes) | Below(x: Bytes) | Everything

  predicate Under(e: Bytes, c: Cut) {
    match c
    case UpTo(x) => AtMost(e, x)
    case Below(x) => Less(e, x)
    case Everything => true
  }

  lemma UnderDownward(a: Bytes, b: Bytes, c: Cut)
    requires AtMost(a, b) && Under(b, c)
    ensures Under(a, c)
  {
    match c
    case UpTo(x) => AtMostTransitive(a, b, x);
    case Below(x) => AtMostLess(a, b, x);
    case Everything =>
  }

  /** The rank of a cut in a sequence. */
  function Count(s: seq<Bytes>, c: Cut): (n: nat)
    ensures n <= |s|
  {
    if s == [] then 0 else Count(s[..|s| - 1], c) + (if Under(s[|s| - 1], c) then 1 else 0)
  }

  lemma {:induction false} CountConcat(s: seq<Bytes>, t: seq<Bytes>, c: Cut)
    ensures Count(s + t, c) == Count(s, c) + Count(t, c)
  {
    if t == [] {
      assert s + t == s;
    } else {
      assert (s + t)[..|s + t| - 1] == s + t[..|t| - 1];
      CountConcat(s, t[..|t| - 1], c);
    }
  }

  lemma {:induction false} CountAll(s: seq<Bytes>, c: Cut)
    requires forall i :: 0 <= i < |s| ==> Under(s[i], c)
    ensures Count(s, c) == |s|
  {
    if s != [] { CountAll(s[..|s| - 1], c); }
  }

  lemma {:induction false} CountNone(s: seq<Bytes>, c: Cut)
    requires forall i :: 0 <= i < |s| ==> !Under(s[i], c)
    ensures Count(s, c) == 0
  {
    if s != [] { CountNone(s[..|s| - 1], c); }
  }

  lemma CountEverything(s: seq<Bytes>)
    ensures Count(s, Everything) == |s|
  {
    CountAll(s, Everything);
  }

  lemma CountLast(s: seq<Bytes>, x: Bytes, t: seq<Bytes>, c: Cut)
    requires t == s + [x]
    ensures Count(t, c) == Count(s, c) + Count([x], c)
  {
    CountConcat(s, [x], c);
  }

  lemma {:induction false} CountInsert(s: seq<Bytes>, x: Bytes, c: Cut)
    ensures Count(Insert(s, x), c) == Count(s, c) + Count([x], c)
  {
    if s == [] || AtMost(s[|s| - 1], x) {
      CountConcat(s, [x], c);
    } else {
      var init, last := s[..|s| - 1], s[|s| - 1];
      CountInsert(init, x, c);
      CountLast(init, last, s, c);
      CountLast(Insert(init, x), last, Insert(s, x), c);
    }
  }

  /** Sorting changes no rank. */
  lemma {:induction false} CountSort(s: seq<Bytes>, c: Cut)
    ensures Count(Sort(s), c) == Count(s, c)
  {
    if s != [] {
      CountSort(s[..|s| - 1], c);
      CountInsert(Sort(s[..|s| - 1]), s[|s| - 1], c);
      assert s == s[..|s| - 1] + [s[|s| - 1]];
      CountConcat(s[..|s| - 1], [s[|s| - 1]], c);
    }
  }

  // ---------------------------------------------------------------- collapsing two buffers

  /** The merge of two sorted buffers; on a tie the element of `b` comes first. */
  function Interleave(a: seq<Bytes>, b: seq<Bytes>): (r: seq<Bytes>) {
    if a == [] then b
    else if b == [] then a
    else if AtMost(b[0], a[0]) then [b[0]] + Interleave(a, b[1..])
    else [a[0]] + Interleave(a[1..], b)
  }

  /** Positions 0, 2, 4, ... of a sequence. */
  function Evens(s: seq<Bytes>): (r: seq<Bytes>)
    ensures |r| == (|s| + 1) / 2
  {
    if s == [] then []
    else if |s| % 2 == 1 then Evens(s[..|s| - 1]) + [s[|s| - 1]]
    else Evens(s[..|s| - 1])
  }

  lemma {:induction false} EvensAt(s: seq<Bytes>, i: nat)
    requires i < |Evens(s)|
    ensures 2 * i < |s| && Evens(s)[i] == s[2 * i]
  {
    if i < |Evens(s[..|s| - 1])| { EvensAt(s[..|s| - 1], i); }
  }

  /** A merge after `i` elements of `a` and `j` of `b`: what is kept so far, and what is left to merge. */
  ghost predicate Merging(a: seq<Bytes>, b: seq<Bytes>, i: nat, j: nat, kept: seq<Bytes>) {
    forall k {:trigger Key(BufferFacts, k)} :: Key(BufferFacts, k) ==>
      && i <= |a| && j <= |b| && i + j <= |Interleave(a, b)|
      && Interleave(a, b)[i + j..] == Interleave(a[i..], b[j..])
      && kept == Evens(Interleave(a, b)[..i + j])
  }

  /** Every other element of the merge of `a` and `b`, from the first on. */
  ghost predicate IsEveryOther(a: seq<Bytes>, b: seq<Bytes>, kept: seq<Bytes>) {
    forall k {:trigger Key(BufferFacts, k)} :: Key(BufferFacts, k) ==> kept == Evens(Interleave(a, b))
  }

  /** One step of the merge: the smaller head is next, and it is kept at even positions. */
  lemma MergeStep(a: seq<Bytes>, b: seq<Bytes>, i: nat, j: nat, kept: seq<Bytes>, fromB: bool, i1: nat, j1: nat, kept1: seq<Bytes>)
    requires i <= |a| && j <= |b| && Merging(a, b, i, j, kept) && (i < |a| || j < |b|)
    requires fromB <==> i == |a| || (j < |b| && AtMost(b[j], a[i]))
    requires if fromB then i1 == i && j1 == j + 1 else i1 == i + 1 && j1 == j
    requires kept1 == if (i + j) % 2 == 0 then kept + [if fromB then b[j] else a[i]] else kept
    ensures Merging(a, b, i1, j1, kept1)
  {
    var all, rest, x := Interleave(a, b), Interleave(a[i1..], b[j1..]), if fromB then b[j] else a[i];
    MergeLeft(a, b, i, j, kept);
    InterleaveNext(a, b, i, j, fromB, i1, j1);
    MergeNext(a, b, i1, j1, kept, kept1, all, rest, x);
  }

  lemma MergeLeft(a: seq<Bytes>, b: seq<Bytes>, i: nat, j: nat, kept: seq<Bytes>)
    requires i <= |a| && j <= |b| && Merging(a, b, i, j, kept)
    ensures var all := Interleave(a, b); i + j <= |all| && all[i + j..] == Interleave(a[i..], b[j..]) && kept == Evens(all[..i + j])
  {
    assert Key(BufferFacts, 0);
  }

  lemma MergeNext(a: seq<Bytes>, b: seq<Bytes>, i: nat, j: nat, kept: seq<Bytes>, kept1: seq<Bytes>, all: seq<Bytes>, rest: seq<Bytes>, x: Bytes)
    requires i <= |a| && j <= |b| && all == Interleave(a, b) && rest == Interleave(a[i..], b[j..])
    requires 0 < i + j <= |all| + 1 && all[i + j - 1..] == [x] + rest && kept == Evens(all[..i + j - 1])
    requires kept1 == if (i + j - 1) % 2 == 0 then kept + [x] else kept
    ensures Merging(a, b, i, j, kept1)
  {
    NextOf(all, i + j - 1, x, rest, kept);
  }

  lemma NextOf(all: seq<Bytes>, n: nat, x: Bytes, rest: seq<Bytes>, kept: seq<Bytes>)
    requires n <= |all| && all[n..] == [x] + rest && kept == Evens(all[..n])
    ensures n < |all| && all[n + 1..] == rest && Evens(all[..n + 1]) == if n % 2 == 0 then kept + [x] else kept
  {
    assert all[n] == all[n..][0] && all[n + 1..] == all[n..][1..];
    EvensPrefix(all, n);
  }

  lemma InterleaveNext(a: seq<Bytes>, b: seq<Bytes>, i: nat, j: nat, fromB: bool, i1: nat, j1: nat)
    requires i <= |a| && j <= |b| && (i < |a| || j < |b|)
    requires fromB <==> i == |a| || (j < |b| && AtMost(b[j], a[i]))
    requires if fromB then i1 == i && j1 == j + 1 else i1 == i + 1 && j1 == j
    ensures Interleave(a[i..], b[j..]) == [if fromB then b[j] else a[i]] + Interleave(a[i1..], b[j1..])
  {
    if i < |a| { assert a[i..] == [a[i]] + a[i + 1..]; }
    if j < |b| { assert b[j..] == [b[j]] + b[j + 1..]; }
  }

  lemma EvensPrefix(s: seq<Bytes>, n: nat)
    requires n < |s|
    ensures Evens(s[..n + 1]) == if n % 2 == 0 then Evens(s[..n]) + [s[n]] else Evens(s[..n])
  {
    assert s[..n + 1][..n] == s[..n];
  }

  lemma MergeStart(a: seq<Bytes>, b: seq<Bytes>)
    ensures Merging(a, b, 0, 0, [])
  {
    assert Key(BufferFacts, 0);
    assert a[0..] == a && b[0..] == b;
  }

  lemma MergeDone(a: seq<Bytes>, b: seq<Bytes>, kept: seq<Bytes>)
    requires Merging(a, b, |a|, |b|, kept)
    ensures IsEveryOther(a, b, kept) && (|a| == |b| && Sorted(a) && Sorted(b) ==> IsCollapse(a, b, kept))
  {
    assert Key(BufferFacts, 0);
    InterleavePermutes(a, b, Everything);
    assert Interleave(a, b)[..|a| + |b|] == Interleave(a, b);
    if |a| == |b| && Sorted(a) && Sorted(b) { EvensCollapse(a, b); }
  }

  lemma {:induction false} InterleavePermutes(a: seq<Bytes>, b: seq<Bytes>, c: Cut)
    ensures |Interleave(a, b)| == |a| + |b|
    ensures Count(Interleave(a, b), c) == Count(a, c) + Count(b, c)
    ensures forall x :: x in Interleave(a, b) ==> x in a || x in b
    decreases |a| + |b|
  {
    if a == [] || b == [] {
    } else if AtMost(b[0], a[0]) {
      InterleavePermutes(a, b[1..], c);
      CountConcat([b[0]], Interleave(a, b[1..]), c);
      assert b == [b[0]] + b[1..];
      CountConcat([b[0]], b[1..], c);
    } else {
      InterleavePermutes(a[1..], b, c);
      CountConcat([a[0]], Interleave(a[1..], b), c);
      assert a == [a[0]] + a[1..];
      CountConcat([a[0]], a[1..], c);
    }
  }

  lemma {:induction false} InterleaveSorted(a: seq<Bytes>, b: seq<Bytes>)
    requires Sorted(a) && Sorted(b)
    ensures Sorted(Interleave(a, b))
    decreases |a| + |b|
  {
    if a == [] || b == [] {
    } else if AtMost(b[0], a[0]) {
      InterleaveSorted(a, b[1..]);
      SmallestFirst(b[0], Interleave(a, b[1..]), a, b[1..]);
    } else {
      LessImpliesAtMost(a[0], b[0]);
      InterleaveSorted(a[1..], b);
      SmallestFirst(a[0], Interleave(a[1..], b), a[1..], b);
    }
  }

  lemma SmallestFirst(x: Bytes, r: seq<Bytes>, a: seq<Bytes>, b: seq<Bytes>)
    requires Sorted(r) && Sorted(a) && Sorted(b)
    requires r == Interleave(a, b)
    requires a != [] ==> AtMost(x, a[0])
    requires b != [] ==> AtMost(x, b[0])
    ensures Sorted([x] + r)
  {
    InterleavePermutes(a, b, Everything);
    forall i | 0 <= i < |r| ensures AtMost(x, r[i]) {
      assert r[i] in r;
      if r[i] in a {
        var j :| 0 <= j < |a| && a[j] == r[i];
        if j > 0 { AtMostTransitive(x, a[0], a[j]); }
      } else {
        var j :| 0 <= j < |b| && b[j] == r[i];
        if j > 0 { AtMostTransitive(x, b[0], b[j]); }
      }
    }
  }

  /** Keeping every other element of a sorted sequence halves every rank, rounding up. */
  lemma {:induction false} EvensRank(s: seq<Bytes>, c: Cut)
    requires Sorted(s)
    ensures Count(Evens(s), c) == (Count(s, c) + 1) / 2
  {
    if s != [] {
      var init, last := s[..|s| - 1], s[|s| - 1];
      if Under(last, c) {
        forall i | 0 <= i < |s| ensures Under(s[i], c) {
          if i < |s| - 1 { UnderDownward(s[i], last, c); }
        }
        CountAll(s, c);
        forall i | 0 <= i < |Evens(s)| ensures Under(Evens(s)[i], c) { EvensAt(s, i); }
        CountAll(Evens(s), c);
      } else {
        EvensRank(init, c);
        if |s| % 2 == 1 {
          CountConcat(Evens(init), [last], c);
        }
      }
    }
  }

  /** What a collapse promises: half of the elements, in order, and every rank halved, rounding up. */
  ghost predicate IsCollapse(a: seq<Bytes>, b: seq<Bytes>, m: seq<Bytes>) {
    && |m| == |a| == |b|
    && Sorted(m)
    && (forall c :: 0 <= 2 * Count(m, c) - Count(a, c) - Count(b, c) <= 1)
    && (forall x :: x in m ==> x in a || x in b)
  }

  lemma EvensCollapse(a: seq<Bytes>, b: seq<Bytes>)
    requires Sorted(a) && Sorted(b) && |a| == |b|
    ensures IsCollapse(a, b, Evens(Interleave(a, b)))
  {
    var s := Interleave(a, b);
    InterleaveSorted(a, b);
    forall c ensures 0 <= 2 * Count(Evens(s), c) - Count(a, c) - Count(b, c) <= 1 {
      InterleavePermutes(a, b, c);
      EvensRank(s, c);
    }
    InterleavePermutes(a, b, Everything);
    forall x | x in Evens(s) ensures x in a || x in b {
      var i :| 0 <= i < |Evens(s)| && Evens(s)[i] == x;
      EvensAt(s, i);
    }
    forall i, j | 0 <= i < j < |Evens(s)| ensures AtMost(Evens(s)[i], Evens(s)[j]) { EvensAt(s, i); EvensAt(s, j); }
  }

  /** Collapsing two buffers of a level over-counts every rank by 0 or the level's weight. */
  lemma CollapseRank(a: seq<Bytes>, b: seq<Bytes>, m: seq<Bytes>, level: nat, c: Cut)
    requires IsCollapse(a, b, m) && 1 <= level
    ensures 0 <= Worth(level + 1, Count(m, c)) - Worth(level, Count(a, c)) - Worth(level, Count(b, c)) <= Weight(level)
  {
    var h := Count(m, c);
    WorthAdds(level, Count(a, c), Count(b, c));
    WorthAdds(level, h, h);
    if h + h == Count(a, c) + Count(b, c) + 1 { WorthAdds(level, Count(a, c) + Count(b, c), 1); }
  }

  // ------------------------------------------------------------------ the whole tree of buffers

  /** The weighted rank of a cut among everything a tree of buffers retains. */
  function Retained(tree: Tree, c: Cut): (n: nat) {
    if tree == [] then 0
    else
      var top := |tree| - 1;
      Retained(tree[..top], c) + Worth(top, Count(tree[top], c))
  }

  /** The number of inputs that the levels above `level` stand for. */
  function MassAbove(tree: Tree, level: nat): (n: nat) {
    if |tree| <= level + 1 then 0
    else
      var top := |tree| - 1;
      MassAbove(tree[..top], level) + Worth(top, |tree[top]|)
  }

  lemma {:induction false} RetainedUpdate(tree: Tree, j: nat, s: seq<Bytes>, c: Cut)
    requires j < |tree|
    ensures Retained(tree[j := s], c)
         == Retained(tree, c) - Worth(j, Count(tree[j], c)) + Worth(j, Count(s, c))
  {
    var top := |tree| - 1;
    if j < top {
      assert tree[j := s][..top] == tree[..top][j := s];
      RetainedUpdate(tree[..top], j, s, c);
    } else {
      assert tree[j := s][..top] == tree[..top];
    }
  }

  lemma {:induction false} MassAboveUpdate(tree: Tree, j: nat, s: seq<Bytes>, level: nat)
    requires j < |tree|
    ensures MassAbove(tree[j := s], level) == MassAbove(tree, level) +
            if j <= level then 0 else Worth(j, |s|) - Worth(j, |tree[j]|)
  {
    var top := |tree| - 1;
    if top <= level {
    } else if j < top {
      assert tree[j := s][..top] == tree[..top][j := s];
      MassAboveUpdate(tree[..top], j, s, level);
    } else {
      assert tree[j := s][..top] == tree[..top];
    }
  }

  /** What sits above a level is part of the whole. */
  lemma {:induction false} MassAboveAtMostRetained(tree: Tree, level: nat)
    ensures MassAbove(tree, level) <= Retained(tree, Everything)
  {
    if tree != [] {
      var top := |tree| - 1;
      MassAboveAtMostRetained(tree[..top], level);
      CountEverything(tree[top]);
    }
  }

  /** Growing the tree by empty levels, as `resize` does. */
  function Extend(tree: Tree, size: nat): (r: Tree)
    ensures |r| == if |tree| < size then size else |tree|
    ensures forall i :: 0 <= i < |r| ==> r[i] == if i < |tree| then tree[i] else []
  {
    if |tree| < size then tree + seq(size - |tree|, _ => []) else tree
  }

  lemma {:induction false} ExtendKeeps(tree: Tree, size: nat, c: Cut, level: nat)
    ensures Retained(Extend(tree, size), c) == Retained(tree, c)
    ensures MassAbove(Extend(tree, size), level) == MassAbove(tree, level)
    decreases size
  {
    if |tree| < size {
      assert Extend(tree, size)[..size - 1] == Extend(tree, size - 1);
      ExtendKeeps(tree, size - 1, c, level);
    }
  }

  // ------------------------------------------------------------------------ the error account

  /** The cost of a history of collapses: each adds the weight of the level it collapsed. */
  function Cost(log: seq<nat>): (e: nat) {
    if log == [] then 0 else Cost(log[..|log| - 1]) + Weight(log[|log| - 1])
  }

  /** How often a level was collapsed. */
  function Times(log: seq<nat>, level: nat): (n: nat) {
    if log == [] then 0
    else Times(log[..|log| - 1], level) + if log[|log| - 1] == level then 1 else 0
  }

  /** The mass that the collapses of one level lifted above it: `k` elements of twice its weight each time. */
  function Lifted(k: nat, log: seq<nat>, level: nat): (n: nat) {
    if log == [] then 0
    else Lifted(k, log[..|log| - 1], level) + if log[|log| - 1] == level then Worth(level + 1, k) else 0
  }

  lemma {:induction false} LiftedTimes(k: nat, log: seq<nat>, level: nat)
    ensures Lifted(k, log, level) == Weight(level + 1) * k * Times(log, level)
  {
    WorthIsProduct(level + 1, k);
    if log != [] { LiftedTimes(k, log[..|log| - 1], level); }
  }

  lemma {:induction false} LogConcat(k: nat, s: seq<nat>, t: seq<nat>, level: nat)
    ensures Cost(s + t) == Cost(s) + Cost(t)
    ensures Lifted(k, s + t, level) == Lifted(k, s, level) + Lifted(k, t, level)
  {
    if t == [] {
      assert s + t == s;
    } else {
      assert (s + t)[..|s + t| - 1] == s + t[..|t| - 1];
      LogConcat(k, s, t[..|t| - 1], level);
    }
  }

  /** The cost regrouped by level, over levels 1 to `levels`. */
  function CostByLevel(log: seq<nat>, levels: nat): (e: nat) {
    if levels == 0 then 0 else CostByLevel(log, levels - 1) + Times(log, levels) * Weight(levels)
  }

  lemma {:induction false} CostByLevelAppend(log: seq<nat>, x: nat, levels: nat)
    ensures CostByLevel(log + [x], levels) == CostByLevel(log, levels) + if 1 <= x <= levels then Weight(x) else 0
  {
    if levels > 0 {
      CostByLevelAppend(log, x, levels - 1);
      assert (log + [x])[..|log|] == log;
    }
  }

  lemma {:induction false} CostRegrouped(log: seq<nat>, levels: nat)
    requires forall l :: l in log ==> 1 <= l <= levels
    ensures Cost(log) == CostByLevel(log, levels)
  {
    if log == [] {
      NoCost(levels);
    } else {
      var init, last := log[..|log| - 1], log[|log| - 1];
      assert log == init + [last];
      assert last in log && forall l :: l in init ==> l in log;
      CostRegrouped(init, levels);
      CostByLevelAppend(init, last, levels);
    }
  }

  lemma {:induction false} NoCost(levels: nat)
    ensures CostByLevel([], levels) == 0
  {
    if levels > 0 { NoCost(levels - 1); }
  }

  /**
   * If every collapse at a level lifted `k` elements of twice its weight above it, and at most
   * `tot` inputs are above any level, then each level costs at most `tot / 2k`.
   */
  lemma {:induction false} CostBound(log: seq<nat>, k: nat, tot: nat, levels: nat)
    requires forall l :: 1 <= l <= levels ==> Lifted(k, log, l) <= tot
    ensures 2 * k * CostByLevel(log, levels) <= levels * tot
  {
    if levels > 0 {
      CostBound(log, k, tot, levels - 1);
      var t, w := Times(log, levels), Weight(levels);
      LiftedTimes(k, log, levels);
      assert Weight(levels + 1) == 2 * w;
      LevelShare(k, CostByLevel(log, levels - 1), t, w);
      assert levels * tot == (levels - 1) * tot + tot;
    }
  }

  lemma LevelShare(k: nat, below: nat, t: nat, w: nat)
    ensures 2 * k * (below + t * w) == 2 * k * below + 2 * w * k * t
  {
    assert 2 * k * (t * w) == 2 * w * k * t;
  }
}

/** Picking the quantiles: a weighted k-way merge of the buffers that stops at evenly spaced ranks. */
module QuantileSplitters {
  import opened ByteStrings
  import opened QuantileSummary
  import opened QuantileAbsorb

  /** The rank to reach for splitter `i`: `i * tot / (n - 1)`, rounded up. */
  function Target(i: nat, tot: nat, n: nat): (t: int)
    requires n >= 2
  {
    (i * tot + n - 2) / (n - 1)
  }

  lemma TargetRounds(i: nat, tot: nat, n: nat)
    requires n >= 2
    ensures (n - 1) * (Target(i, tot, n) - 1) < i * tot <= (n - 1) * Target(i, tot, n)
  {
    var d, x := n - 1, i * tot + n - 2;
    assert x == d * (x / d) + x % d;
  }

  lemma TargetRange(i: nat, tot: nat, n: nat)
    requires n >= 2 && tot > 0 && 1 <= i <= n - 1
    ensures 1 <= Target(i, tot, n) <= tot
    ensures Target(i - 1, tot, n) <= Target(i, tot, n)
  {
    var d, t, u := n - 1, Target(i, tot, n), Target(i - 1, tot, n);
    TargetRounds(i, tot, n);
    TargetRounds(i - 1, tot, n);
    Cancel(d, t, tot, i);
    assert i * tot == (i - 1) * tot + tot;
    if t < u { Order(d, t, u - 1); }
  }

  lemma Cancel(d: nat, t: int, tot: nat, i: nat)
    requires 1 <= i <= d && tot > 0
    requires d * (t - 1) < i * tot <= d * t
    ensures 1 <= t <= tot
  {
    assert i * tot > 0;
    if t < 1 { Order(d, t, 0); }
    assert i * tot <= d * tot;
    if t > tot { Order(d, tot, t - 1); }
  }

  lemma Order(d: nat, a: int, b: int)
    requires a <= b
    ensures d * a <= d * b
  {
  }

  // ---------------------------------------------------------------- the state of the merge

  /** The weight of the elements taken so far: `index[j]` of them from level `j`. */
  function Taken(index: seq<nat>): (s: nat) {
    if index == [] then 0
    else Taken(index[..|index| - 1]) + Worth(|index| - 1, index[|index| - 1])
  }

  lemma {:induction false} TakenUpdate(index: seq<nat>, j: nat)
    requires j < |index|
    ensures Taken(index[j := index[j] + 1]) == Taken(index) + Weight(j)
  {
    var top := |index| - 1;
    WorthAdds(j, index[j], 1);
    if j < top {
      assert index[j := index[j] + 1][..top] == index[..top][j := index[j] + 1];
      TakenUpdate(index[..top], j);
    } else {
      assert index[j := index[j] + 1][..top] == index[..top];
    }
  }

  lemma {:induction false} TakenNothing(index: seq<nat>)
    requires forall j :: 0 <= j < |index| ==> index[j] == 0
    ensures Taken(index) == 0
  {
    if index != [] { TakenNothing(index[..|index| - 1]); }
  }

  predicate InRange(tree: Tree, index: seq<nat>) {
    |index| == |tree| && forall j :: 0 <= j < |tree| ==> index[j] <= |tree[j]|
  }

  ghost predicate AllSorted(tree: Tree) {
    forall j :: 0 <= j < |tree| ==> Sorted(tree[j])
  }

  /** Everything taken is at most `x`, and everything left is at least `x`. */
  ghost predicate Divides(tree: Tree, index: seq<nat>, x: Bytes) {
    && InRange(tree, index)
    && (forall j, p {:trigger tree[j][p]} :: 0 <= j < |tree| && 0 <= p < index[j] ==> AtMost(tree[j][p], x))
    && (forall j, p {:trigger tree[j][p]} :: 0 <= j < |tree| && index[j] <= p < |tree[j]| ==> AtMost(x, tree[j][p]))
  }

  lemma {:induction false} LeftOver(tree: Tree, index: seq<nat>)
    requires InRange(tree, index)
    ensures (forall j :: 0 <= j < |tree| ==> index[j] == |tree[j]|) ==> Taken(index) == Retained(tree, Everything)
  {
    if tree != [] {
      var top := |tree| - 1;
      LeftOver(tree[..top], index[..top]);
      CountEverything(tree[top]);
    }
  }

  lemma CountAtMost(s: seq<Bytes>, c: Cut, n: nat)
    requires n <= |s| && forall p :: n <= p < |s| ==> !Under(s[p], c)
    ensures Count(s, c) <= n
  {
    assert s == s[..n] + s[n..];
    CountConcat(s[..n], s[n..], c);
    CountNone(s[n..], c);
  }

  lemma CountAtLeast(s: seq<Bytes>, c: Cut, n: nat)
    requires n <= |s| && forall p :: 0 <= p < n ==> Under(s[p], c)
    ensures Count(s, c) >= n
  {
    assert s == s[..n] + s[n..];
    CountConcat(s[..n], s[n..], c);
    CountAll(s[..n], c);
  }

  lemma {:induction false} WorthMonotone(level: nat, m: nat, n: nat)
    requires m <= n
    ensures Worth(level, m) <= Worth(level, n)
  {
    if level > 1 { WorthMonotone(level - 1, m, n); }
  }

  /** What is strictly below `x` has all been taken. */
  lemma {:induction false} RankBelow(tree: Tree, index: seq<nat>, x: Bytes)
    requires InRange(tree, index)
    requires forall j, p {:trigger tree[j][p]} :: 0 <= j < |tree| && index[j] <= p < |tree[j]| ==> AtMost(x, tree[j][p])
    ensures Retained(tree, Below(x)) <= Taken(index)
  {
    if tree != [] {
      var top := |tree| - 1;
      var t, ix := tree[..top], index[..top];
      forall j, p {:trigger t[j][p]} | 0 <= j < |t| && ix[j] <= p < |t[j]| ensures AtMost(x, t[j][p]) {
        assert t[j][p] == tree[j][p];
      }
      RankBelow(t, ix, x);
      CountAtMost(tree[top], Below(x), index[top]);
      WorthMonotone(top, Count(tree[top], Below(x)), index[top]);
    }
  }

  /** What has been taken is all at or below `x`. */
  lemma {:induction false} RankUpTo(tree: Tree, index: seq<nat>, x: Bytes)
    requires InRange(tree, index)
    requires forall j, p {:trigger tree[j][p]} :: 0 <= j < |tree| && 0 <= p < index[j] ==> AtMost(tree[j][p], x)
    ensures Taken(index) <= Retained(tree, UpTo(x))
  {
    if tree != [] {
      var top := |tree| - 1;
      var t, ix := tree[..top], index[..top];
      forall j, p {:trigger t[j][p]} | 0 <= j < |t| && 0 <= p < ix[j] ensures AtMost(t[j][p], x) {
        assert t[j][p] == tree[j][p];
      }
      RankUpTo(t, ix, x);
      CountAtLeast(tree[top], UpTo(x), index[top]);
      WorthMonotone(top, index[top], Count(tree[top], UpTo(x)));
    }
  }

  /** `s` is the smallest element left, at the head of buffer `id`. */
  ghost predicate Smallest(tree: Tree, index: seq<nat>, id: int, s: Bytes) {
    && InRange(tree, index)
    && 0 <= id < |tree| && index[id] < |tree[id]| && s == tree[id][index[id]]
    && (forall j :: 0 <= j < |tree| && index[j] < |tree[j]| ==> AtMost(s, tree[j][index[j]]))
  }

  /** The smallest head divides the elements too, before and after it is taken. */
  lemma HeadDivides(tree: Tree, index: seq<nat>, x: Bytes, id: int, s: Bytes)
    requires AllSorted(tree) && Divides(tree, index, x) && Smallest(tree, index, id, s)
    ensures AtMost(x, s) && Divides(tree, index, s) && Divides(tree, index[id := index[id] + 1], s)
  {
    assert s == tree[id][index[id]];
    forall j, p {:trigger tree[j][p]} | 0 <= j < |tree| && 0 <= p < index[j] ensures AtMost(tree[j][p], s) {
      AtMostTransitive(tree[j][p], x, s);
    }
    LessIrreflexive(s);
    forall j, p {:trigger tree[j][p]} | 0 <= j < |tree| && index[j] <= p < |tree[j]| ensures AtMost(s, tree[j][p]) {
      if p > index[j] {
        assert Sorted(tree[j]) && AtMost(tree[j][index[j]], tree[j][p]);
        AtMostTransitive(s, tree[j][index[j]], tree[j][p]);
      }
    }
  }

  /** Scan the heads of the buffers for the smallest; the last one wins a tie. */
  method FindSmallest(tree: Tree, index: seq<nat>, max: Bytes) returns (id: int, smallest: Bytes)
    requires InRange(tree, index)
    requires forall j, p {:trigger tree[j][p]} :: 0 <= j < |tree| && 0 <= p < |tree[j]| ==> AtMost(tree[j][p], max)
    ensures id == -1 <==> forall j :: 0 <= j < |tree| ==> index[j] == |tree[j]|
    ensures id != -1 ==> Smallest(tree, index, id, smallest)
  {
    smallest, id := max, -1;
    for j := 0 to |tree|
      invariant -1 <= id < j
      invariant id == -1 ==> smallest == max && forall i :: 0 <= i < j ==> index[i] == |tree[i]|
      invariant id >= 0 ==> index[id] < |tree[id]| && smallest == tree[id][index[id]]
      invariant id >= 0 ==> forall i :: 0 <= i < j && index[i] < |tree[i]| ==> AtMost(smallest, tree[i][index[i]])
    {
      if index[j] < |tree[j]| {
        var head := tree[j][index[j]];
        if !Less(smallest, head) {
          forall i | 0 <= i < j && index[i] < |tree[i]| ensures AtMost(head, tree[i][index[i]]) {
            if id >= 0 { AtMostTransitive(head, smallest, tree[i][index[i]]); }
          }
          LessIrreflexive(head);
          smallest, id := head, j;
        } else {
          LessImpliesAtMost(smallest, head);
        }
      }
    }
  }

  /** The weighted order statistic: less than `target` weighs below `x`, and at least `target` up to it. */
  ghost predicate AtRank(tree: Tree, target: int, x: Bytes) {
    Retained(tree, Below(x)) < target <= Retained(tree, UpTo(x))
  }

  ghost predicate Within(tree: Tree, lo: Bytes, hi: Bytes) {
    forall j, p {:trigger tree[j][p]} :: 0 <= j < |tree| && 0 <= p < |tree[j]| ==> AtMost(lo, tree[j][p]) && AtMost(tree[j][p], hi)
  }

  /** Take elements until the next one would reach the target; that one is the splitter. */
  method NextSplitter(tree: Tree, index0: seq<nat>, s0: nat, target: int, max: Bytes, ghost x0: Bytes)
    returns (index: seq<nat>, s: nat, splitter: Bytes)
    requires AllSorted(tree) && Divides(tree, index0, x0) && s0 == Taken(index0)
    requires s0 < target <= Retained(tree, Everything)
    requires forall j, p {:trigger tree[j][p]} :: 0 <= j < |tree| && 0 <= p < |tree[j]| ==> AtMost(tree[j][p], max)
    ensures Divides(tree, index, splitter) && s == Taken(index) && s < target
    ensures AtRank(tree, target, splitter)
    ensures AtMost(x0, splitter) && exists j :: 0 <= j < |tree| && splitter in tree[j]
  {
    index, s := index0, s0;
    ghost var x := x0;
    LessIrreflexive(x0);
    while true
      invariant Divides(tree, index, x) && AtMost(x0, x)
      invariant s == Taken(index) && s < target
      decreases target - s
    {
      var id, smallest := FindSmallest(tree, index, max);
      LeftOver(tree, index);
      HeadDivides(tree, index, x, id, smallest);
      AtMostTransitive(x0, x, smallest);
      TakenUpdate(index, id);
      if s + Weight(id) >= target {
        splitter := smallest;
        RankBelow(tree, index, smallest);
        RankUpTo(tree, index[id := index[id] + 1], smallest);
        return;
      }
      x := smallest;
      index, s := index[id := index[id] + 1], s + Weight(id);
    }
  }

  /** The two leaves may be unsorted; the levels above are sorted already. */
  function SortLeaves(tree: Tree): (r: Tree)
    ensures |r| == |tree|
    ensures forall j :: 0 <= j < |tree| ==> r[j] == if j < 2 then Sort(tree[j]) else tree[j]
  {
    seq(|tree|, j requires 0 <= j < |tree| => if j < 2 then Sort(tree[j]) else tree[j])
  }

  lemma {:induction false} SortLeavesKeeps(tree: Tree, c: Cut)
    ensures Retained(SortLeaves(tree), c) == Retained(tree, c)
  {
    if tree != [] {
      var top := |tree| - 1;
      assert SortLeaves(tree)[..top] == SortLeaves(tree[..top]);
      SortLeavesKeeps(tree[..top], c);
      CountSort(tree[top], c);
    }
  }

  lemma SortLeavesMembers(tree: Tree, j: nat, x: Bytes)
    requires j < |tree|
    ensures x in SortLeaves(tree)[j] <==> x in tree[j]
  {
    SortSorts(tree[j]);
    SameMembers(Sort(tree[j]), tree[j], x);
  }

  lemma SortLeavesSorts(tree: Tree, lo: Bytes, hi: Bytes)
    requires forall j :: 2 <= j < |tree| ==> Sorted(tree[j])
    requires forall j, x :: 0 <= j < |tree| && x in tree[j] ==> AtMost(lo, x) && AtMost(x, hi)
    ensures AllSorted(SortLeaves(tree)) && Within(SortLeaves(tree), lo, hi)
  {
    var t := SortLeaves(tree);
    forall j | 0 <= j < |t| ensures Sorted(t[j]) { SortSorts(tree[j]); }
    forall j, p {:trigger t[j][p]} | 0 <= j < |t| && 0 <= p < |t[j]| ensures AtMost(lo, t[j][p]) && AtMost(t[j][p], hi) {
      SortLeavesMembers(tree, j, t[j][p]);
    }
  }

  /** The first quantiles: the minimum, then splitters in order, splitter `i` at rank `targets[i]`. */
  ghost predicate Chosen(tree: Tree, targets: seq<int>, min: Bytes, q: seq<Bytes>) {
    && 1 <= |q| <= |targets| && q[0] == min && Sorted(q)
    && (forall i :: 1 <= i < |q| ==> AtRank(tree, targets[i], q[i]))
    && (forall i :: 1 <= i < |q| ==> exists j :: 0 <= j < |tree| && q[i] in tree[j])
  }

  lemma ChosenAppend(tree: Tree, targets: seq<int>, min: Bytes, q: seq<Bytes>, x: Bytes, splitter: Bytes)
    requires Chosen(tree, targets, min, q) && AtMost(q[|q| - 1], x) && AtMost(x, splitter)
    requires |q| < |targets| && AtRank(tree, targets[|q|], splitter)
    requires exists j :: 0 <= j < |tree| && splitter in tree[j]
    ensures Chosen(tree, targets, min, q + [splitter])
  {
    AtMostTransitive(q[|q| - 1], x, splitter);
    SortedAppend(q, splitter);
  }

  lemma MemberWithin(tree: Tree, lo: Bytes, hi: Bytes, x: Bytes)
    requires Within(tree, lo, hi) && exists j :: 0 <= j < |tree| && x in tree[j]
    ensures AtMost(x, hi)
  {
    var j :| 0 <= j < |tree| && x in tree[j];
    var p :| 0 <= p < |tree[j]| && tree[j][p] == x;
  }

  ghost predicate Reachable(targets: seq<int>, tot: nat) {
    && 1 <= |targets| && targets[0] == 0
    && (forall i :: 1 <= i < |targets| ==> 1 <= targets[i] <= tot && targets[i - 1] <= targets[i])
  }

  /** The targets of `n` quantiles; the first stands for the minimum, which needs no search. */
  function Targets(tot: nat, n: nat): (r: seq<int>)
    requires n >= 2
    ensures |r| == n - 1 && forall i :: 0 <= i < n - 1 ==> r[i] == Target(i, tot, n)
  {
    seq(n - 1, i requires 0 <= i < n - 1 => Target(i, tot, n))
  }

  lemma TargetsReachable(tot: nat, n: nat)
    requires n >= 2 && tot > 0
    ensures Reachable(Targets(tot, n), tot)
  {
    assert Target(0, tot, n) == 0 by { TargetRounds(0, tot, n); Zero(n - 1, Target(0, tot, n)); }
    forall i | 1 <= i < n - 1
      ensures 1 <= Targets(tot, n)[i] <= tot && Targets(tot, n)[i - 1] <= Targets(tot, n)[i]
    {
      TargetRange(i, tot, n);
    }
  }

  lemma Zero(d: nat, t: int)
    requires d * (t - 1) < 0 <= d * t
    ensures t == 0
  {
  }

  /** The minimum and the splitters after it. */
  method PickSplitters(tree: Tree, min: Bytes, max: Bytes, targets: seq<int>, tot: nat) returns (q: seq<Bytes>)
    requires tot == Retained(tree, Everything) && Reachable(targets, tot)
    requires AtMost(min, max) && AllSorted(tree) && Within(tree, min, max)
    ensures |q| == |targets| && Chosen(tree, targets, min, q) && AtMost(q[|q| - 1], max)
  {
    q := [min];
    var index: seq<nat>, s := seq(|tree|, _ => 0), 0;
    TakenNothing(index);
    LessIrreflexive(min);
    ghost var x := min;
    for i := 1 to |targets|
      invariant |q| == i && Chosen(tree, targets, min, q)
      invariant Divides(tree, index, x) && s == Taken(index)
      invariant AtMost(q[i - 1], x) && AtMost(q[i - 1], max)
      invariant s == 0 || s < targets[i - 1]
    {
      var splitter;
      ghost var x0 := x;
      index, s, splitter := NextSplitter(tree, index, s, targets[i], max, x);
      ChosenAppend(tree, targets, min, q, x0, splitter);
      MemberWithin(tree, min, max, splitter);
      LessIrreflexive(splitter);
      x := splitter;
      q := q + [splitter];
    }
  }

  /** All `n` quantiles, from the minimum to the maximum; the leaves are sorted in passing. */
  method ComputeQuantiles(tree: Tree, min: Bytes, max: Bytes, n: nat, tot: nat) returns (q: seq<Bytes>, sorted: Tree)
    requires n >= 2 && tot > 0 && tot == Retained(tree, Everything)
    requires AtMost(min, max)
    requires forall j :: 2 <= j < |tree| ==> Sorted(tree[j])
    requires forall j, x :: 0 <= j < |tree| && x in tree[j] ==> AtMost(min, x) && AtMost(x, max)
    ensures sorted == SortLeaves(tree)
    ensures |q| == n && q[n - 1] == max && Sorted(q) && Chosen(sorted, Targets(tot, n), min, q[..n - 1])
  {
    sorted := SortLeaves(tree);
    SortLeavesSorts(tree, min, max);
    SortLeavesKeeps(tree, Everything);
    var splitters := AllSplitters(sorted, min, max, n, tot);
    SortedAppend(splitters, max);
    q := splitters + [max];
    assert q[..n - 1] == splitters;
  }

  method AllSplitters(tree: Tree, min: Bytes, max: Bytes, n: nat, tot: nat) returns (q: seq<Bytes>)
    requires n >= 2 && tot > 0 && tot == Retained(tree, Everything)
    requires AtMost(min, max) && AllSorted(tree) && Within(tree, min, max)
    ensures |q| == n - 1 && Chosen(tree, Targets(tot, n), min, q) && AtMost(q[n - 2], max) && Sorted(q)
  {
    TargetsReachable(tot, n);
    q := PickSplitters(tree, min, max, Targets(tot, n), tot);
  }
}

/** What adding elements does to a tree of buffers, as functions on the tree: no collapse is left open. */
module QuantileGrowth {
  import opened Sealing
  import opened ByteStrings
  import opened QuantileSummary

  /** A full buffer goes to an empty level, or collapses with a full one into the buffer for the next level. */
  function Arrive(t: Tree, level: nat, buf: seq<Bytes>): (r: Tree)
    ensures |t| <= |r| && level < |r|
    decreases if level < |t| then |t| - level else 0
  {
    if level >= |t| || t[level] == [] then Extend(t, level + 1)[level := buf]
    else Arrive(t[level := []], level + 1, Evens(Interleave(t[level], buf)))
  }

  predicate BothFull(k: nat, t: Tree) {
    |t| >= 2 && |t[0]| == |t[1]| == k
  }

  /** Two full leaves are collapsed before the next element comes. */
  function Settle(k: nat, t: Tree): (r: Tree) {
    if BothFull(k, t) then Arrive(t[0 := []][1 := Sort(t[1])], 1, Sort(t[0])) else t
  }

  function Push(k: nat, t: Tree, e: Bytes): (r: Tree) {
    var grown := Extend(t, 2);
    var leaf := if |grown[0]| < k then 0 else 1;
    grown[leaf := grown[leaf] + [e]]
  }

  function Grow(k: nat, t: Tree, e: Bytes): (r: Tree) {
    Push(k, Settle(k, t), e)
  }

  /** Adding elements one after another. */
  function GrowAll(k: nat, t: Tree, elems: seq<Bytes>): (r: Tree) {
    if elems == [] then t else Grow(k, GrowAll(k, t, elems[..|elems| - 1]), elems[|elems| - 1])
  }

  lemma OneMoreElem(k: nat, t: Tree, elems: seq<Bytes>, e: Bytes)
    ensures GrowAll(k, t, elems + [e]) == Grow(k, GrowAll(k, t, elems), e)
  {
    assert (elems + [e])[..|elems|] == elems;
  }

  /** The tree that adding `inputs` one after another builds. */
  function TreeOf(k: nat, inputs: seq<Bytes>): (r: Tree) {
    if inputs == [] then [] else Grow(k, TreeOf(k, inputs[..|inputs| - 1]), inputs[|inputs| - 1])
  }

  lemma OneMoreInput(k: nat, inputs: seq<Bytes>, e: Bytes)
    ensures TreeOf(k, inputs + [e]) == Grow(k, TreeOf(k, inputs), e)
  {
    assert (inputs + [e])[..|inputs|] == inputs;
  }

  /** A buffer of another tree: elements for a leaf that is in use are added, any other buffer arrives as it is. */
  function Receive(k: nat, t: Tree, level: nat, buf: seq<Bytes>): (r: Tree) {
    if buf == [] then t
    else if level < 2 && level < |t| && t[level] != [] then GrowAll(k, t, buf)
    else Arrive(t, level, buf)
  }

  /** The first `n` buffers of another tree. */
  function MergeUpto(k: nat, t: Tree, buffers: Tree, n: nat): (r: Tree)
    requires n <= |buffers|
  {
    if n == 0 then t else Receive(k, MergeUpto(k, t, buffers, n - 1), n - 1, buffers[n - 1])
  }

  // ------------------------------------------------- the same as relations that methods only pass on

  ghost predicate Arrived(t: Tree, level: nat, buf: seq<Bytes>, after: Tree) {
    forall u {:trigger Key(BufferFacts, u)} :: Key(BufferFacts, u) ==> after == Arrive(t, level, buf)
  }

  ghost predicate Settled(k: nat, t: Tree, after: Tree) {
    forall u {:trigger Key(BufferFacts, u)} :: Key(BufferFacts, u) ==> after == Settle(k, t)
  }

  ghost predicate Grown(k: nat, t: Tree, e: Bytes, after: Tree) {
    forall u {:trigger Key(BufferFacts, u)} :: Key(BufferFacts, u) ==> after == Grow(k, t, e)
  }

  ghost predicate Built(k: nat, inputs: seq<Bytes>, t: Tree) {
    forall u {:trigger Key(StreamFacts, u)} :: Key(StreamFacts, u) ==> t == TreeOf(k, inputs)
  }

  ghost predicate GrownAll(k: nat, t: Tree, elems: seq<Bytes>, after: Tree) {
    forall u {:trigger Key(BufferFacts, u)} :: Key(BufferFacts, u) ==> after == GrowAll(k, t, elems)
  }

  ghost predicate Received(k: nat, t: Tree, level: nat, buf: seq<Bytes>, after: Tree) {
    forall u {:trigger Key(BufferFacts, u)} :: Key(BufferFacts, u) ==> after == Receive(k, t, level, buf)
  }

  ghost predicate Merged(k: nat, t: Tree, buffers: Tree, n: nat, after: Tree) {
    forall u {:trigger Key(StreamFacts, u)} :: Key(StreamFacts, u) ==> n <= |buffers| && after == MergeUpto(k, t, buffers, n)
  }

  lemma GrownNothing(k: nat, t: Tree, elems: seq<Bytes>)
    ensures GrownAll(k, t, elems[..0], t)
  {
  }

  lemma GrownMore(k: nat, t: Tree, elems: seq<Bytes>, i: nat, before: Tree, after: Tree)
    requires i < |elems| && GrownAll(k, t, elems[..i], before) && Grown(k, before, elems[i], after)
    ensures GrownAll(k, t, elems[..i + 1], after)
  {
    assert Key(BufferFacts, 0);
    assert elems[..i + 1] == elems[..i] + [elems[i]];
    OneMoreElem(k, t, elems[..i], elems[i]);
  }

  lemma ReceivedPlaced(k: nat, t: Tree, level: nat, buf: seq<Bytes>)
    requires buf != [] && (level >= |t| || t[level] == [])
    ensures Received(k, t, level, buf, Extend(t, level + 1)[level := buf])
  {
  }

  lemma ReceivedCarried(k: nat, t: Tree, level: nat, buf: seq<Bytes>, after: Tree)
    requires buf != [] && level >= 2 && Arrived(t, level, buf, after)
    ensures Received(k, t, level, buf, after)
  {
    assert Key(BufferFacts, 0);
  }

  lemma ReceivedAdded(k: nat, t: Tree, level: nat, buf: seq<Bytes>, after: Tree)
    requires buf != [] && level < 2 && level < |t| && t[level] != [] && GrownAll(k, t, buf, after)
    ensures Received(k, t, level, buf, after)
  {
    assert Key(BufferFacts, 0);
  }

  lemma ReceivedNothing(k: nat, t: Tree, level: nat)
    ensures Received(k, t, level, [], t)
  {
  }

  lemma MergedNothing(k: nat, t: Tree, buffers: Tree)
    ensures Merged(k, t, buffers, 0, t)
  {
  }

  lemma MergedMore(k: nat, t: Tree, buffers: Tree, n: nat, before: Tree, after: Tree)
    requires n < |buffers| && Merged(k, t, buffers, n, before) && Received(k, before, n, buffers[n], after)
    ensures Merged(k, t, buffers, n + 1, after)
  {
    assert Key(BufferFacts, 0) && Key(StreamFacts, 0);
  }

  lemma ArriveEnds(t: Tree, level: nat, buf: seq<Bytes>, merged: seq<Bytes>, after: Tree)
    requires level < |t| && t[level] != [] && IsEveryOther(t[level], buf, merged)
    requires level + 1 < |t| ==> t[level + 1] == []
    requires after == Extend(t[level := []], level + 2)[level + 1 := merged]
    ensures Arrived(t, level, buf, after)
  {
    assert Key(BufferFacts, 0);
  }

  lemma ArriveGoesOn(t: Tree, level: nat, buf: seq<Bytes>, merged: seq<Bytes>, after: Tree)
    requires level < |t| && t[level] != [] && IsEveryOther(t[level], buf, merged)
    requires Arrived(t[level := []], level + 1, merged, after)
    ensures Arrived(t, level, buf, after)
  {
    assert Key(BufferFacts, 0);
  }

  lemma LeavesSettle(k: nat, t: Tree, after: Tree)
    requires BothFull(k, t) && Arrived(t[0 := []][1 := Sort(t[1])], 1, Sort(t[0]), after)
    ensures Settled(k, t, after)
  {
    assert Key(BufferFacts, 0);
  }

  lemma SettledAlready(k: nat, t: Tree)
    requires !BothFull(k, t)
    ensures Settled(k, t, t)
  {
  }

  lemma GrowsBy(k: nat, t: Tree, roomy: Tree, e: Bytes, after: Tree)
    requires Settled(k, t, roomy) && after == Push(k, roomy, e)
    ensures Grown(k, t, e, after)
  {
    assert Key(BufferFacts, 0);
  }

  lemma BuiltFrom(k: nat, inputs: seq<Bytes>, t: Tree, e: Bytes, after: Tree)
    requires Built(k, inputs, t) && Grown(k, t, e, after)
    ensures Built(k, inputs + [e], after)
  {
    assert Key(BufferFacts, 0) && Key(StreamFacts, 0);
    OneMoreInput(k, inputs, e);
  }
}

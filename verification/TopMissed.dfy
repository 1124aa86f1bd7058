/**
 * A run in which a merge misses a candidate: three candidates on one side, and on the other more elements
 * than it has room for, so that it has weights for two of the three in its sketch.
 */
module TopMissed {
  import opened Sealing
  import opened HeapShape
  import opened ByteStrings
  import opened TabEntry
  import opened WeightTables
  import opened WeightedRuns
  import opened TopHeap
  import opened TopSketch
  import opened TopWalk
  import opened TopTable

  const A: Bytes := [1]
  const B: Bytes := [2]
  const C: Bytes := [3]

  /** `A` has a column of its own. */
  function Columns(): (place: Hash) {
    (e: Bytes, row: nat) => Place(if e == A then 0 else 1, false)
  }

  function Ours(): (run: Run) {
    Add(Add(Add(Start, A, 1), B, 2), C, 3)
  }

  /** Heavy elements that fill a table with room for ten. */
  function Rivals(n: nat): (run: Run)
    requires n <= 10
  {
    if n == 0 then Start else Add(Rivals(n - 1), [10 + n], 100)
  }

  function Theirs(): (run: Run) {
    Add(Add(Rivals(10), A, 10), B, 5)
  }

  /** What is in the sketch of the other table. */
  function Share(): (s: seq<(Bytes, int)>) {
    [(A, 10), (B, 5)]
  }

  lemma ColumnsFit()
    ensures InRange(Columns(), 2)
  {
  }

  lemma {:induction false} AllClean(s: seq<(Bytes, int)>, e: Bytes, n: nat)
    requires forall f :: f != e && Net(s, f) != 0 ==> (f == A) != (e == A)
    ensures CleanRows(Columns(), s, e, n) == n
  {
    if n > 0 {
      AllClean(s, e, n - 1);
      assert Clean(Columns(), s, e, n - 1);
    }
  }

  lemma NetOfNone(f: Bytes)
    ensures Net([], f) == 0
  {
  }

  lemma NetOfOne(f: Bytes)
    ensures Net([(A, 10)], f) == if f == A then 10 else 0
  {
    assert [(A, 10)][..0] == [];
    NetOfNone(f);
  }

  lemma NetOfShare(f: Bytes)
    ensures Net(Share(), f) == if f == A then 10 else if f == B then 5 else 0
  {
    assert Share()[..1] == [(A, 10)];
    NetOfOne(f);
  }

  /** With these columns every estimate is exact. */
  lemma NothingYet(nTabs: nat)
    requires nTabs > 0
    ensures Estimated(Columns(), nTabs, [], A) == 0
  {
    forall f ensures Net([], f) == 0 { NetOfNone(f); }
    AllClean([], A, nTabs);
    MajorityExact(Columns(), nTabs, [], A);
  }

  lemma OnlyFirst(nTabs: nat)
    requires nTabs > 0
    ensures Estimated(Columns(), nTabs, [(A, 10)], B) == 0
  {
    forall f ensures Net([(A, 10)], f) == if f == A then 10 else 0 { NetOfOne(f); }
    AllClean([(A, 10)], B, nTabs);
    MajorityExact(Columns(), nTabs, [(A, 10)], B);
  }

  lemma ShareClean(nTabs: nat)
    requires nTabs > 0
    ensures Net(Share(), A) == 10 && Net(Share(), B) == 5 && 2 * CleanRows(Columns(), Share(), A, nTabs) > nTabs
  {
    forall f ensures Net(Share(), f) == if f == A then 10 else if f == B then 5 else 0 { NetOfShare(f); }
    AllClean(Share(), A, nTabs);
  }

  // ------------------------------------------------------------------------------------ one side

  lemma TookLast(place: Hash, nTabs: nat, max: nat, a: State, e: Bytes, w: int, b: State)
    requires Took(place, nTabs, max, a, e, w, b) && e !in a.m && |a.h| < max
    requires a.h != [] ==> a.h[Parent(|a.h|)].weight <= w
    ensures b == State(a.m[e := w], a.h + [Elem(e, w)], a.s)
  {
    assert Key(EntryFacts, 0);
    var t := a.h + [Elem(e, w)];
    assert a.h != [] ==> t[Parent(|a.h|)] == a.h[Parent(|a.h|)];
  }

  /** A table after a run, and what of it went to the sketch. */
  ghost predicate InRun(entry: TopEntry, nTabs: nat, run: Run, swept: seq<(Bytes, int)>)
    reads entry, entry.tops, entry.sketch
  {
    forall k {:trigger Key(TableFacts, k)} :: Key(TableFacts, k) ==>
      && entry.Valid() && entry.stream == Stream(run) && entry.Swept() == swept
      && entry.param == 1 && entry.nTabs == nTabs && entry.tabSize == 2 && entry.place == Columns()
  }

  /** A new element that is no lighter than those before it. */
  method AddLast(entry: TopEntry, e: Bytes, w: int, nTabs: nat, ghost run: Run)
    requires InRun(entry, nTabs, run, []) && e !in entry.tops.contents && |entry.tops.heap| < 10
    requires forall x :: x in entry.tops.heap ==> x.weight <= w
    modifies entry, entry.tops, entry.sketch
    ensures InRun(entry, nTabs, Add(run, e, w), []) && (entry.sketch == old(entry.sketch) || fresh(entry.sketch))
    ensures entry.tops.contents == old(entry.tops.contents)[e := w] && entry.tops.heap == old(entry.tops.heap) + [Elem(e, w)]
  {
    assert Key(TableFacts, 0);
    ghost var a := entry.Now();
    entry.AddWeightedElem(e, w);
    TookLast(entry.place, nTabs, 10, a, e, w, entry.Now());
  }

  method Begin(nTabs: nat) returns (entry: TopEntry)
    requires nTabs > 0
    ensures fresh(entry) && fresh(entry.tops) && (entry.sketch != null ==> fresh(entry.sketch))
    ensures InRun(entry, nTabs, Start, []) && entry.tops.contents == map[] && entry.tops.heap == []
  {
    ColumnsFit();
    entry := new TopEntry(1, nTabs, 2, Columns());
    assert entry.tops.heap == [];
  }

  method Candidates(nTabs: nat) returns (entry: TopEntry)
    requires nTabs > 0
    ensures fresh(entry) && fresh(entry.tops) && (entry.sketch != null ==> fresh(entry.sketch))
    ensures InRun(entry, nTabs, Ours(), []) && entry.tops.heap == Three(A, B, C)
  {
    entry := Begin(nTabs);
    AddLast(entry, A, 1, nTabs, Start);
    AddLast(entry, B, 2, nTabs, Add(Start, A, 1));
    AddLast(entry, C, 3, nTabs, Add(Add(Start, A, 1), B, 2));
  }

  // ------------------------------------------------------------------------------------ the other side

  /** The first `n` rivals are the candidates. */
  ghost predicate AllRivals(m: Weights, h: seq<Elem>, n: nat) {
    && |h| == n && (forall v :: v in m ==> |v| == 1 && 10 < v[0] <= 10 + n && m[v] == 100)
    && (forall x :: x in h ==> x.weight == 100)
  }

  /** The table is full of them. */
  ghost predicate FullOfRivals(m: Weights) {
    |m| == 10 && forall v :: v in m ==> v != A && v != B && m[v] == 100
  }

  lemma OneMoreRival(m: Weights, h: seq<Elem>, n: nat, e: Bytes)
    requires AllRivals(m, h, n) && n < 10 && e == [11 + n]
    ensures e !in m && AllRivals(m[e := 100], h + [Elem(e, 100)], n + 1)
  {
  }

  lemma TookSwept(place: Hash, nTabs: nat, a: State, e: Bytes, w: int, b: State)
    requires nTabs > 0 && Took(place, nTabs, 10, a, e, w, b) && FullOfRivals(a.m) && |a.h| == 10 && e !in a.m
    requires Estimated(place, nTabs, a.s, e) == 0 && w < 100
    ensures b == State(a.m, a.h, a.s + [(e, w)])
  {
    assert Key(EntryFacts, 0);
  }

  method FillRivals(nTabs: nat) returns (entry: TopEntry)
    requires nTabs > 0
    ensures fresh(entry) && fresh(entry.tops) && (entry.sketch != null ==> fresh(entry.sketch))
    ensures InRun(entry, nTabs, Rivals(10), []) && FullOfRivals(entry.tops.contents)
  {
    entry := Begin(nTabs);
    for i := 0 to 10
      invariant fresh(entry) && fresh(entry.tops) && (entry.sketch != null ==> fresh(entry.sketch))
      invariant InRun(entry, nTabs, Rivals(i), []) && AllRivals(entry.tops.contents, entry.tops.heap, i)
    {
      OneMoreRival(entry.tops.contents, entry.tops.heap, i, [11 + i]);
      AddLast(entry, [11 + i], 100, nTabs, Rivals(i));
    }
    assert Key(TableFacts, 0);
  }

  /** An element too light to be a candidate. */
  method AddLight(entry: TopEntry, e: Bytes, w: int, nTabs: nat, ghost run: Run, ghost swept: seq<(Bytes, int)>, ghost after: seq<(Bytes, int)>)
    requires InRun(entry, nTabs, run, swept) && after == swept + [(e, w)] && FullOfRivals(entry.tops.contents) && (e == A || e == B) && w < 100
    requires nTabs > 0 && Estimated(Columns(), nTabs, swept, e) == 0
    modifies entry, entry.tops, entry.sketch
    ensures InRun(entry, nTabs, Add(run, e, w), after) && (entry.sketch == old(entry.sketch) || fresh(entry.sketch))
    ensures FullOfRivals(entry.tops.contents)
  {
    assert Key(TableFacts, 0);
    ghost var a := entry.Now();
    entry.AddWeightedElem(e, w);
    TookSwept(entry.place, nTabs, a, e, w, entry.Now());
  }

  method Others(nTabs: nat) returns (out: Flushed)
    requires nTabs > 0
    ensures Describes(Columns(), 10, out, Share(), Stream(Theirs()))
    ensures out.Flushed? && out.nTabs == nTabs && out.tabSize == 2 && |out.pairs| <= 10
  {
    var entry := FillRivals(nTabs);
    NothingYet(nTabs);
    AddLight(entry, A, 10, nTabs, Rivals(10), [], [(A, 10)]);
    OnlyFirst(nTabs);
    AddLight(entry, B, 5, nTabs, Add(Rivals(10), A, 10), [(A, 10)], Share());
    out := FlushOthers(entry, nTabs);
  }

  method FlushOthers(entry: TopEntry, nTabs: nat) returns (out: Flushed)
    requires nTabs > 0 && InRun(entry, nTabs, Theirs(), Share()) && FullOfRivals(entry.tops.contents)
    modifies entry, entry.tops
    ensures Describes(Columns(), 10, out, Share(), Stream(Theirs()))
    ensures out.Flushed? && out.nTabs == nTabs && out.tabSize == 2 && |out.pairs| <= 10
  {
    assert Key(TableFacts, 0);
    out := entry.Flush();
    assert out.Flushed? && out.nTabs > 0 by { assert Key(ShareFacts, 0); }
  }

  // ---------------------------------------------------------------------------------------- the merge

  /**
   * The run `Join(Ours(), Theirs())` in a `top(1)` table: when the second is merged into the first, step 1
   * meets `A` twice and never `B`, so what there was for `B` in the other sketch is in ours now, and not
   * with the candidate.
   */
  method MergeMisses(nTabs: nat) returns (entry: TopEntry, ghost moved: seq<(Bytes, int)>)
    requires nTabs > 0
    ensures entry.Valid() && entry.stream == Stream(Join(Ours(), Theirs()))
    ensures |moved| == 3 && moved[0] == (A, 10) && moved[1].0 == A && moved[2].0 == C
    ensures Adjusted(Columns(), nTabs, Three(A, B, C), Share(), moved, entry.Swept())
    ensures Net(Share() + Negated(moved), B) == Net(Share(), B) == 5
  {
    entry := Candidates(nTabs);
    var out := Others(nTabs);
    moved := MergeOthers(entry, out, nTabs);
    MissesSecond(nTabs, moved, entry.Swept());
  }

  method MergeOthers(entry: TopEntry, out: Flushed, nTabs: nat) returns (ghost moved: seq<(Bytes, int)>)
    requires nTabs > 0 && InRun(entry, nTabs, Ours(), []) && entry.tops.heap == Three(A, B, C)
    requires Describes(Columns(), 10, out, Share(), Stream(Theirs()))
    requires out.Flushed? && out.nTabs == nTabs && out.tabSize == 2 && |out.pairs| <= 10
    modifies entry, entry.tops, entry.sketch
    ensures entry.Valid() && entry.stream == Stream(Ours()) + Stream(Theirs())
    ensures Adjusted(Columns(), nTabs, Three(A, B, C), Share(), moved, entry.Swept())
  {
    assert Key(TableFacts, 0);
    var status;
    ghost var states;
    status, moved, states := entry.Merge(out, Share(), Stream(Theirs()));
  }

  lemma MissesSecond(nTabs: nat, moved: seq<(Bytes, int)>, swept: seq<(Bytes, int)>)
    requires nTabs > 0 && Adjusted(Columns(), nTabs, Three(A, B, C), Share(), moved, swept)
    ensures |moved| == 3 && moved[0] == (A, 10) && moved[1].0 == A && moved[2].0 == C
    ensures Net(Share() + Negated(moved), B) == Net(Share(), B) == 5
  {
    assert Key(WalkFacts, 0);
    ShareClean(nTabs);
    ShareLeft(Columns(), nTabs, A, B, C, Share(), moved, Walk(Three(A, B, C), moved));
  }
}

/**
 * `unique` tables: keep the smallest distinct hashes, in a heap with the largest first, and a set to find
 * them in. The table is exactly the selection over everything added, across merges.
 */
module UniqueTable {
  import opened Arithmetic
  import opened HeapShape
  import opened ByteStrings
  import opened TabEntry
  import opened WeightedRuns
  import opened BoundedHeap

  // ----------------------------------------------------------------------------- the selection

  /** `kept` are the `min(max, #distinct)` smallest of `all`. */
  ghost predicate Smallest(max: nat, all: set<nat>, kept: set<nat>) {
    && kept <= all && |kept| == (if |all| < max then |all| else max)
    && forall k, x :: k in kept && x in all && x !in kept ==> k < x
  }

  /** The selection is unique. */
  lemma SmallestUnique(max: nat, all: set<nat>, a: set<nat>, b: set<nat>)
    requires Smallest(max, all, a) && Smallest(max, all, b)
    ensures a == b
  {
    if a <= b { SubsetSize(a, b); }
    if b <= a { SubsetSize(b, a); }
  }

  lemma RoomKeepsAll(max: nat, all: set<nat>, kept: set<nat>, h: nat)
    requires Smallest(max, all, kept) && |kept| < max && h !in kept
    ensures Smallest(max, all + {h}, kept + {h})
  {
    SubsetSize(kept, all);
    assert |kept + {h}| == |kept| + 1;
  }

  lemma SmallerReplaces(max: nat, all: set<nat>, kept: set<nat>, h: nat, m: nat)
    requires Smallest(max, all, kept) && |kept| == max && h !in kept && m in kept && h < m && forall k :: k in kept ==> k <= m
    ensures Smallest(max, all + {h}, kept - {m} + {h})
  {
    SubsetSize(kept, all);
    assert h !in all && |all + {h}| == |all| + 1;
    assert |kept - {m} + {h}| == |kept|;
  }

  lemma LargerIsDropped(max: nat, all: set<nat>, kept: set<nat>, h: nat, m: nat)
    requires Smallest(max, all, kept) && |kept| == max && h !in kept && m in kept && h >= m && forall k :: k in kept ==> k <= m
    ensures Smallest(max, all + {h}, kept)
  {
    SubsetSize(kept, all);
    SubsetSize(all, all + {h});
  }

  /** Merging the selection from a set is as good as merging the set. */
  lemma MergeSmallest(max: nat, all: set<nat>, all1: set<nat>, kept1: set<nat>, kept: set<nat>)
    requires Smallest(max, all1, kept1) && Smallest(max, all + kept1, kept)
    ensures Smallest(max, all + all1, kept)
  {
    if |kept1| < max {
      SubsetSize(kept1, all1);
    } else {
      SubsetSize(kept1, all + kept1);
      SubsetSize(all + kept1, all + all1);
      forall k, x | k in kept && x in all + all1 && x !in kept ensures k < x {
        if x !in all + kept1 { DroppedIsLarger(max, all, all1, kept1, kept, k, x); }
      }
    }
  }

  lemma DroppedIsLarger(max: nat, all: set<nat>, all1: set<nat>, kept1: set<nat>, kept: set<nat>, k: nat, x: nat)
    requires Smallest(max, all1, kept1) && Smallest(max, all + kept1, kept) && |kept1| == max
    requires k in kept && x in all1 && x !in all + kept1
    ensures k < x
  {
    if k !in kept1 {
      if kept1 <= kept {
        assert |kept1 + {k}| == |kept1| + 1;
        SubsetSize(kept1 + {k}, kept);
      }
      var y :| y in kept1 && y !in kept;
      assert k < y && y < x;
    }
  }

  // ------------------------------------------------------------------------------- the entry

  /** The order of the heap: larger hashes first. */
  function Larger(): (less: (nat, nat) -> bool) {
    (a: nat, b: nat) => a > b
  }

  /** The heap holds exactly the set, each hash once. */
  ghost predicate Holds(heap: seq<nat>, hashes: set<nat>) {
    IsHeap(Larger(), heap, |heap|) && multiset(heap) == multiset(hashes)
  }

  lemma HoldsAll(heap: seq<nat>, hashes: set<nat>)
    requires multiset(heap) == multiset(hashes)
    ensures |heap| == |hashes| && forall x :: x in heap <==> x in hashes
  {
    assert |multiset(heap)| == |heap| && |multiset(hashes)| == |hashes|;
    forall x ensures x in heap <==> x in hashes { assert x in heap <==> x in multiset(heap); }
  }

  lemma RootLargest(heap: seq<nat>, hashes: set<nat>)
    requires Holds(heap, hashes) && heap != []
    ensures heap[0] in hashes && forall x :: x in hashes ==> x <= heap[0]
  {
    HoldsAll(heap, hashes);
    forall x | x in hashes ensures x <= heap[0] {
      var i :| 0 <= i < |heap| && heap[i] == x;
      RootLeast(Larger(), heap, |heap|, i);
    }
  }

  lemma AddToSet(hashes: set<nat>, h: nat)
    requires h !in hashes
    ensures multiset(hashes + {h}) == multiset(hashes) + multiset{h}
  {
  }

  lemma ExchangeInSet(hashes: set<nat>, m: nat, h: nat)
    requires h !in hashes && m in hashes
    ensures multiset(hashes - {m} + {h}) == multiset(hashes) - multiset{m} + multiset{h}
  {
  }

  /** What `Flush` writes: nothing, or how many emits are not in the string and the hashes, largest first; `broken` if a string then goes on otherwise. */
  datatype Flushed = Nothing | Flushed(extra: int, hashes: seq<nat>, broken: bool)

  ghost predicate Describes(max: nat, val: Flushed, all: set<nat>) {
    exists kept: set<nat> :: Smallest(max, all, kept) && multiset(HashesOf(val)) == multiset(kept)
  }

  /** The string goes on with something that is no hash, or after the last. */
  predicate IsBroken(val: Flushed) {
    val.Flushed? && val.broken
  }

  function HashesOf(val: Flushed): (s: seq<nat>) {
    if val.Flushed? then val.hashes else []
  }

  function AsSet(s: seq<nat>): (r: set<nat>) {
    set x | x in s
  }

  class UniqueEntry {
    const maxElems: nat
    var heap: seq<nat>
    var exists_: set<nat>
    var isSorted: bool
    var tot: int
    /** All hashes ever added. */
    ghost var all: set<nat>

    ghost predicate Valid() reads this {
      Holds(heap, exists_) && Smallest(maxElems, all, exists_) && (isSorted ==> DescendingFrom(Smaller(), heap, 0))
    }

    constructor (maxElems: nat)
      ensures Valid() && all == {} && tot == 0 && this.maxElems == maxElems
    {
      this.maxElems := maxElems;
      heap, exists_, isSorted, tot, all := [], {}, false, 0, {};
    }

    method AddHash(hash: nat)
      requires Valid()
      modifies this
      ensures Valid() && all == old(all) + {hash} && tot == old(tot) + 1
    {
      tot := tot + 1;
      HoldsAll(heap, exists_);
      if maxElems == 0 {
        all := all + {hash};
      } else if hash in exists_ {
        assert all + {hash} == all;
      } else if |heap| < maxElems {
        Insert(hash);
      } else if hash < heap[0] {
        Exchange(hash);
      } else {
        RootLargest(heap, exists_);
        LargerIsDropped(maxElems, all, exists_, hash, heap[0]);
        all := all + {hash};
      }
    }

    method Insert(hash: nat)
      requires Valid() && hash !in exists_ && |exists_| < maxElems
      modifies this
      ensures Valid() && all == old(all) + {hash} && tot == old(tot)
    {
      isSorted := false;
      LowLast(Larger(), heap, hash);
      AddToSet(exists_, hash);
      RoomKeepsAll(maxElems, all, exists_, hash);
      heap := FixHeapUp(Larger(), heap + [hash], |heap|);
      exists_, all := exists_ + {hash}, all + {hash};
    }

    method Exchange(hash: nat)
      requires Valid() && hash !in exists_ && |exists_| == maxElems && heap != [] && hash < heap[0]
      modifies this
      ensures Valid() && all == old(all) + {hash} && tot == old(tot)
    {
      isSorted := false;
      RootLargest(heap, exists_);
      ExchangeRoot(Larger(), heap, hash);
      ExchangeInSet(exists_, heap[0], hash);
      SmallerReplaces(maxElems, all, exists_, hash, heap[0]);
      exists_ := exists_ - {heap[0]};
      heap := FixHeapDown(Larger(), heap[0 := hash], 0, |heap|);
      exists_, all := exists_ + {hash}, all + {hash};
    }

    /** Largest first, which is a heap too. */
    method MakeSortedHeap()
      requires Valid()
      modifies this`heap, this`isSorted
      ensures Valid() && isSorted
    {
      if !isSorted {
        var ascending := BoundedHeap.Sort(Larger(), heap);
        heap := ReHeap(Larger(), ascending);
        ReversedDescends(ascending);
        isSorted := true;
      }
    }

    method Clear()
      modifies this
      ensures isSorted == old(isSorted) && Valid() && all == {} && tot == 0
    {
      heap, exists_, tot, all := [], {}, 0, {};
    }

    /** An empty table writes nothing and is left as it is. */
    method Flush() returns (out: Flushed)
      requires Valid()
      modifies this
      ensures Valid() && Describes(maxElems, out, old(all)) && Decreasing(HashesOf(out)) && !IsBroken(out)
      ensures if old(heap) == [] then out == Nothing && unchanged(this)
              else out.Flushed? && out.extra + |out.hashes| == old(tot) && out.hashes != [] && all == {} && tot == 0
    {
      HoldsAll(heap, exists_);
      var ne := |heap|;
      if ne == 0 {
        assert exists_ == {};
        return Nothing;
      }
      MakeSortedHeap();
      HoldsAll(heap, exists_);
      DistinctDecreases(heap, exists_);
      out := Flushed(tot - ne, heap, false);
      Clear();
    }

    method AddAll(hashes: seq<nat>)
      requires Valid()
      modifies this
      ensures Valid() && all == old(all) + AsSet(hashes) && tot == old(tot) + |hashes|
    {
      for i := 0 to |hashes|
        invariant Valid() && all == old(all) + AsSet(hashes[..i]) && tot == old(tot) + i
      {
        assert AsSet(hashes[..i + 1]) == AsSet(hashes[..i]) + {hashes[i]} by { assert hashes[..i + 1] == hashes[..i] + [hashes[i]]; }
        AddHash(hashes[i]);
      }
      assert hashes[..|hashes|] == hashes;
    }

    /**
     * Merge what another entry flushed after the hashes `all1`; a string without hashes adds nothing, not
     * even its count. A string that turns out to be broken is refused, but the hashes before are added.
     */
    method Merge(val: Flushed, ghost all1: set<nat>) returns (status: MergeStatus)
      requires Valid() && (!IsBroken(val) ==> Describes(maxElems, val, all1))
      modifies this
      ensures Valid() && status == if IsBroken(val) then MergeError else MergeOk
      ensures all == old(all) + if IsBroken(val) then AsSet(val.hashes) else all1
      ensures tot == old(tot) + if IsBroken(val) then |val.hashes| else if HashesOf(val) == [] then 0 else val.extra + |val.hashes|
    {
      if val.Nothing? || (val.hashes == [] && !val.broken) {
        assert all + AsSet(HashesOf(val)) == all;
        StandFor(all, val, all1);
        return MergeOk;
      }
      AddAll(val.hashes);
      if val.broken {
        return MergeError;
      }
      tot := tot + val.extra;
      StandFor(old(all), val, all1);
      status := MergeOk;
    }

    /** Hashes that stand for a set are as good as the set. */
    ghost method StandFor(all0: set<nat>, val: Flushed, all1: set<nat>)
      requires Valid() && all == all0 + AsSet(HashesOf(val)) && Describes(maxElems, val, all1)
      modifies this`all
      ensures Valid() && all == all0 + all1
    {
      Merged(maxElems, all0, val, all1, exists_);
      all := all0 + all1;
    }
  }

  function Smaller(): (less: (nat, nat) -> bool) {
    (a: nat, b: nat) => a < b
  }

  ghost predicate Decreasing(s: seq<nat>) {
    forall i, j :: 0 <= i < j < |s| ==> s[i] > s[j]
  }

  lemma ReversedDescends(s: seq<nat>)
    requires DescendingFrom(Larger(), s, 0)
    ensures DescendingFrom(Smaller(), Reversed(s), 0)
  {
    var n, r := |s|, Reversed(s);
    forall i, j | 0 <= i < j < n ensures Above(Smaller(), r[j], r[i]) {
      assert Above(Larger(), s[n - 1 - i], s[n - 1 - j]);
    }
  }

  /** Descending and without repetition is decreasing. */
  lemma DistinctDecreases(heap: seq<nat>, hashes: set<nat>)
    requires multiset(heap) == multiset(hashes) && DescendingFrom(Smaller(), heap, 0)
    ensures Decreasing(heap)
  {
    forall i, j | 0 <= i < j < |heap| ensures heap[i] > heap[j] {
      assert Above(Smaller(), heap[j], heap[i]);
      if heap[i] == heap[j] { Twice(heap, i, j); }
    }
  }

  lemma Twice(s: seq<nat>, i: nat, j: nat)
    requires i < j < |s| && s[i] == s[j]
    ensures multiset(s)[s[i]] >= 2
  {
    var a, b := s[..j], s[j..];
    assert s == a + b && a[i] == s[i] && b[0] == s[i];
    assert multiset(s) == multiset(a) + multiset(b);
  }

  lemma Merged(max: nat, all: set<nat>, val: Flushed, all1: set<nat>, kept: set<nat>)
    requires Describes(max, val, all1) && Smallest(max, all + AsSet(HashesOf(val)), kept)
    ensures Smallest(max, all + all1, kept)
  {
    var kept1: set<nat> :| Smallest(max, all1, kept1) && multiset(HashesOf(val)) == multiset(kept1);
    HoldsAll(HashesOf(val), kept1);
    assert AsSet(HashesOf(val)) == kept1;
    MergeSmallest(max, all, all1, kept1, kept);
  }

  // ------------------------------------------------------------------------------------ runs

  /** The hashes of a stream. */
  function Hashes(hash: Bytes -> nat, s: seq<(Bytes, int)>): (r: set<nat>) {
    set p | p in s :: hash(p.0)
  }

  lemma HashesConcat(hash: Bytes -> nat, s: seq<(Bytes, int)>, t: seq<(Bytes, int)>)
    ensures Hashes(hash, s + t) == Hashes(hash, s) + Hashes(hash, t)
  {
  }

  lemma OneHash(hash: Bytes -> nat, s: seq<(Bytes, int)>, e: Bytes, w: int)
    ensures Hashes(hash, s + [(e, w)]) == Hashes(hash, s) + {hash(e)}
  {
    HashesConcat(hash, s, [(e, w)]);
    assert (e, w) in [(e, w)];
    assert Hashes(hash, [(e, w)]) == {hash(e)};
  }

  method Replay(run: Run, max: nat, hash: Bytes -> nat) returns (entry: UniqueEntry)
    ensures fresh(entry) && entry.Valid() && entry.maxElems == max && entry.all == Hashes(hash, Stream(run)) && entry.tot == Counted(run, max)
    decreases run, 1
  {
    match run
    case Start =>
      entry := new UniqueEntry(max);
    case Add(r, e, w) =>
      entry := Replay(r, max, hash);
      OneHash(hash, Stream(r), e, w);
      entry.AddHash(hash(e));
    case Join(a, b) =>
      entry := Replay(a, max, hash);
      var out := FlushRun(b, max, hash);
      HashesConcat(hash, Stream(a), Stream(b));
      var status := entry.Merge(out, Hashes(hash, Stream(b)));
  }

  method FlushRun(run: Run, max: nat, hash: Bytes -> nat) returns (out: Flushed)
    ensures Describes(max, out, Hashes(hash, Stream(run))) && !IsBroken(out) && Decreasing(HashesOf(out))
    ensures out.Flushed? ==> out.hashes != []
    ensures (if HashesOf(out) == [] then 0 else out.extra + |out.hashes|) == if max > 0 then Counted(run, max) else 0
    decreases run, 2
  {
    var entry := Replay(run, max, hash);
    EmptyTable(max, hash, Stream(run), entry.heap, entry.exists_);
    CountedExactly(run, max);
    out := entry.Flush();
  }

  lemma EmptyTable(max: nat, hash: Bytes -> nat, s: seq<(Bytes, int)>, heap: seq<nat>, kept: set<nat>)
    requires Smallest(max, Hashes(hash, s), kept) && multiset(heap) == multiset(kept)
    ensures heap == [] && max > 0 ==> s == []
    ensures max == 0 ==> heap == []
  {
    HoldsAll(heap, kept);
    if s != [] { assert hash(s[0].0) in Hashes(hash, s); }
  }

  /** After any run the table holds exactly the smallest distinct hashes of everything added anywhere. */
  method Report(run: Run, max: nat, hash: Bytes -> nat) returns (hashes: seq<nat>, tot: int)
    ensures Decreasing(hashes) && Smallest(max, Hashes(hash, Stream(run)), AsSet(hashes))
    ensures tot == |Stream(run)| <==> max > 0 || JoinedIn(run) == 0
  {
    var entry := Replay(run, max, hash);
    CountedExactly(run, max);
    entry.MakeSortedHeap();
    hashes, tot := entry.heap, entry.tot;
    HoldsAll(entry.heap, entry.exists_);
    DistinctDecreases(entry.heap, entry.exists_);
    assert AsSet(hashes) == entry.exists_;
  }
}

/**
 * `distinctsample` tables: keep the distinct elements with the smallest hashes, each with the sum of
 * its weights. The table equals the declarative selection over the whole stream, across merges.
 */
module DistinctSample {
  import opened Arithmetic
  import opened ByteStrings
  import opened TabEntry
  import opened WeightTables
  import opened WeightedRuns

  // --------------------------------------------------------------------------- hash order

  /** The order of `map_`: by digest, then by the element itself. */
  predicate Before(digest: Bytes -> Bytes, a: Bytes, b: Bytes) {
    Less(digest(a), digest(b)) || (digest(a) == digest(b) && Less(a, b))
  }

  lemma BeforeTransitive(digest: Bytes -> Bytes, a: Bytes, b: Bytes, c: Bytes)
    requires Before(digest, a, b) && Before(digest, b, c)
    ensures Before(digest, a, c)
  {
    if Less(digest(a), digest(b)) && Less(digest(b), digest(c)) {
      LessTransitive(digest(a), digest(b), digest(c));
    } else if digest(a) == digest(b) == digest(c) {
      LessTransitive(a, b, c);
    }
  }

  lemma BeforeTotal(digest: Bytes -> Bytes, a: Bytes, b: Bytes)
    ensures a != b ==> Before(digest, a, b) || Before(digest, b, a)
  {
    if a != b {
      if digest(a) != digest(b) { LessTotal(digest(a), digest(b)); } else { LessTotal(a, b); }
    }
  }

  lemma BeforeAsymmetric(digest: Bytes -> Bytes, a: Bytes, b: Bytes)
    requires Before(digest, a, b)
    ensures !Before(digest, b, a)
  {
    if Before(digest, b, a) {
      BeforeTransitive(digest, a, b, a);
      LessIrreflexive(digest(a));
      LessIrreflexive(a);
    }
  }

  lemma NeverBeforeItself(digest: Bytes -> Bytes, a: Bytes)
    ensures !Before(digest, a, a)
  {
    LessIrreflexive(digest(a));
    LessIrreflexive(a);
  }

  ghost predicate IsLast(digest: Bytes -> Bytes, s: set<Bytes>, x: Bytes) {
    x in s && forall v :: v in s && v != x ==> Before(digest, v, x)
  }

  ghost predicate IsFirst(digest: Bytes -> Bytes, s: set<Bytes>, x: Bytes) {
    x in s && forall v :: v in s && v != x ==> Before(digest, x, v)
  }

  lemma {:induction false} LastExists(digest: Bytes -> Bytes, s: set<Bytes>) returns (x: Bytes)
    requires s != {}
    ensures IsLast(digest, s, x)
    decreases |s|
  {
    x :| x in s;
    if s != {x} {
      var rest := s - {x};
      assert s == rest + {x} && |rest| < |s|;
      var y := LastExists(digest, rest);
      BeforeTotal(digest, x, y);
      if Before(digest, x, y) {
        x := y;
      } else {
        forall v | v in s && v != x ensures Before(digest, v, x) {
          if v != y { BeforeTransitive(digest, v, y, x); }
        }
      }
    }
  }

  lemma {:induction false} FirstExists(digest: Bytes -> Bytes, s: set<Bytes>) returns (x: Bytes)
    requires s != {}
    ensures IsFirst(digest, s, x)
    decreases |s|
  {
    x :| x in s;
    if s != {x} {
      var rest := s - {x};
      assert s == rest + {x} && |rest| < |s|;
      var y := FirstExists(digest, rest);
      BeforeTotal(digest, x, y);
      if Before(digest, y, x) {
        x := y;
      } else {
        forall v | v in s && v != x ensures Before(digest, x, v) {
          if v != y { BeforeTransitive(digest, x, y, v); }
        }
      }
    }
  }

  // ------------------------------------------------------------------------- the selection

  /** `m` holds the `min(k, #distinct)` first elements in hash order, each with its exact total. */
  ghost predicate IsSample(digest: Bytes -> Bytes, k: nat, totals: Weights, m: Weights) {
    && m.Keys <= totals.Keys
    && |m| == (if |totals| < k then |totals| else k)
    && (forall v :: v in m ==> m[v] == totals[v])
    && (forall v, u :: v in m && u in totals && u !in m ==> Before(digest, v, u))
  }

  /** The selection is unique. */
  lemma SampleUnique(digest: Bytes -> Bytes, k: nat, totals: Weights, m: Weights, n: Weights)
    requires IsSample(digest, k, totals, m) && IsSample(digest, k, totals, n)
    ensures m == n
  {
    assert |m.Keys| == |n.Keys|;
    if m.Keys != n.Keys {
      if m.Keys <= n.Keys { SubsetSize(m.Keys, n.Keys); }
      if n.Keys <= m.Keys { SubsetSize(n.Keys, m.Keys); }
      var v :| v in m.Keys && v !in n.Keys;
      var u :| u in n.Keys && u !in m.Keys;
      assert Before(digest, v, u) && Before(digest, u, v);
      BeforeAsymmetric(digest, v, u);
      assert false;
    }
  }

  /** A sample that is not full has dropped nothing. */
  lemma NotFull(digest: Bytes -> Bytes, k: nat, totals: Weights, m: Weights)
    requires IsSample(digest, k, totals, m) && |m| < k
    ensures m.Keys == totals.Keys
  {
    SubsetSize(m.Keys, totals.Keys);
  }

  /** What adding a weighted element does to a table. */
  ghost predicate Added(digest: Bytes -> Bytes, k: nat, m: Weights, e: Bytes, w: int, r: Weights) {
    if e in m then r == m[e := m[e] + w]
    else if |m| < k then r == m[e := w]
    else if forall v :: v in m ==> Before(digest, v, e) then r == m
    else exists last :: IsLast(digest, m.Keys, last) && r == (m - {last})[e := w]
  }

  /** Adding an element to the sample of a stream gives the sample of the longer stream: what was dropped never returns. */
  lemma AddedIsSample(digest: Bytes -> Bytes, k: nat, totals: Weights, m: Weights, e: Bytes, w: int, r: Weights)
    requires IsSample(digest, k, totals, m) && Added(digest, k, m, e, w, r)
    ensures IsSample(digest, k, Bump(totals, e, w), r)
  {
    if e in m {
      KnownIsSample(digest, k, totals, m, e, w);
    } else if |m| < k {
      NewIsSample(digest, k, totals, m, e, w);
    } else if forall v :: v in m ==> Before(digest, v, e) {
      DroppedIsSample(digest, k, totals, m, e, w);
    } else {
      var last :| IsLast(digest, m.Keys, last) && r == (m - {last})[e := w];
      ReplacedIsSample(digest, k, totals, m, e, w, last);
    }
  }

  lemma NextSample(digest: Bytes -> Bytes, k: nat, stream: seq<(Bytes, int)>, m: Weights, e: Bytes, w: int, r: Weights)
    requires IsSample(digest, k, Totals(stream), m) && Added(digest, k, m, e, w, r)
    ensures IsSample(digest, k, Totals(stream + [(e, w)]), r)
  {
    assert (stream + [(e, w)])[..|stream|] == stream;
    AddedIsSample(digest, k, Totals(stream), m, e, w, r);
  }

  lemma KnownIsSample(digest: Bytes -> Bytes, k: nat, totals: Weights, m: Weights, e: Bytes, w: int)
    requires IsSample(digest, k, totals, m) && e in m
    ensures IsSample(digest, k, Bump(totals, e, w), m[e := m[e] + w])
  {
    var t, r := Bump(totals, e, w), m[e := m[e] + w];
    assert r.Keys == m.Keys && t.Keys == totals.Keys;
    assert |r| == |r.Keys| && |t| == |t.Keys| && |m| == |m.Keys| && |totals| == |totals.Keys|;
  }

  lemma NewIsSample(digest: Bytes -> Bytes, k: nat, totals: Weights, m: Weights, e: Bytes, w: int)
    requires IsSample(digest, k, totals, m) && e !in m && |m| < k
    ensures IsSample(digest, k, Bump(totals, e, w), m[e := w])
  {
    NotFull(digest, k, totals, m);
    assert m == totals;
    assert m[e := w].Keys == m.Keys + {e} && |m[e := w].Keys| == |m.Keys| + 1;
    assert Bump(totals, e, w) == m[e := w];
  }

  lemma DroppedIsSample(digest: Bytes -> Bytes, k: nat, totals: Weights, m: Weights, e: Bytes, w: int)
    requires IsSample(digest, k, totals, m) && e !in m && |m| >= k
    requires forall v :: v in m ==> Before(digest, v, e)
    ensures IsSample(digest, k, Bump(totals, e, w), m)
  {
    var t := Bump(totals, e, w);
    assert t.Keys == totals.Keys + {e};
    SubsetSize(totals.Keys, t.Keys);
    assert |t| == |t.Keys| && |totals| == |totals.Keys|;
  }

  lemma ComesBefore(digest: Bytes -> Bytes, k: nat, totals: Weights, m: Weights, e: Bytes, last: Bytes)
    requires IsSample(digest, k, totals, m) && e !in m
    requires IsLast(digest, m.Keys, last) && exists v :: v in m && !Before(digest, v, e)
    ensures e !in totals && Before(digest, e, last)
  {
    var v0 :| v0 in m && !Before(digest, v0, e);
    BeforeTotal(digest, v0, e);
    if v0 != last { BeforeTransitive(digest, e, v0, last); }
  }

  lemma ReplacedIsSample(digest: Bytes -> Bytes, k: nat, totals: Weights, m: Weights, e: Bytes, w: int, last: Bytes)
    requires IsSample(digest, k, totals, m) && e !in m && |m| >= k
    requires IsLast(digest, m.Keys, last) && exists v :: v in m && !Before(digest, v, e)
    ensures IsSample(digest, k, Bump(totals, e, w), (m - {last})[e := w])
  {
    var t, r := Bump(totals, e, w), (m - {last})[e := w];
    MapShrinks(m, last);
    MapGrows(m - {last}, e, w);
    ComesBefore(digest, k, totals, m, e, last);
    MapGrows(totals, e, Get(totals, e) + w);
    forall v, u | v in r && u in t && u !in r ensures Before(digest, v, u) {
      ReplacedOrder(digest, k, totals, m, e, last, v, u);
    }
  }

  lemma ReplacedOrder(digest: Bytes -> Bytes, k: nat, totals: Weights, m: Weights, e: Bytes, last: Bytes, v: Bytes, u: Bytes)
    requires IsSample(digest, k, totals, m) && IsLast(digest, m.Keys, last) && Before(digest, e, last)
    requires (v == e || (v in m && v != last)) && u in totals && (u == last || u !in m)
    ensures Before(digest, v, u)
  {
    if u != last && v == e { BeforeTransitive(digest, e, last, u); }
  }

  /** Merging the sample of a stream into a table is as good as adding the whole stream. */
  lemma MergeIsSample(digest: Bytes -> Bytes, k: nat, b: Weights, a: Weights, sample: Weights, m: Weights)
    requires IsSample(digest, k, a, sample)
    requires IsSample(digest, k, Plus(b, sample), m)
    ensures IsSample(digest, k, Plus(b, a), m)
  {
    if |sample| < k {
      NotFull(digest, k, a, sample);
      assert sample == a;
    } else {
      MergedSizes(digest, k, b, a, sample, m);
      forall x | x in m ensures m[x] == Plus(b, a)[x] {
        MergedWeight(digest, k, b, a, sample, m, x);
      }
      forall x, y | x in m && y in Plus(b, a) && y !in m ensures Before(digest, x, y) {
        MergedOrder(digest, k, b, a, sample, m, x, y);
      }
    }
  }

  lemma MergedWeight(digest: Bytes -> Bytes, k: nat, b: Weights, a: Weights, sample: Weights, m: Weights, x: Bytes)
    requires IsSample(digest, k, a, sample) && |sample| >= k
    requires IsSample(digest, k, Plus(b, sample), m) && x in m
    ensures x in Plus(b, a) && m[x] == Plus(b, a)[x]
  {
    if x in a && x !in sample { TooMany(digest, k, a, b, sample, m, x); }
  }

  lemma MergedOrder(digest: Bytes -> Bytes, k: nat, b: Weights, a: Weights, sample: Weights, m: Weights, x: Bytes, y: Bytes)
    requires IsSample(digest, k, a, sample) && |sample| >= k
    requires IsSample(digest, k, Plus(b, sample), m)
    requires x in m && y in Plus(b, a) && y !in m
    ensures Before(digest, x, y)
  {
    if y !in Plus(b, sample) { StillBefore(digest, k, a, b, sample, m, x, y); }
  }

  lemma MergedSizes(digest: Bytes -> Bytes, k: nat, b: Weights, a: Weights, sample: Weights, m: Weights)
    requires sample.Keys <= a.Keys && |sample| == k
    requires IsSample(digest, k, Plus(b, sample), m)
    ensures m.Keys <= Plus(b, a).Keys && |m| == k <= |Plus(b, a)|
  {
    var u, v := Plus(b, sample), Plus(b, a);
    assert u.Keys == b.Keys + sample.Keys && v.Keys == b.Keys + a.Keys;
    SubsetSize(sample.Keys, u.Keys);
    SubsetSize(u.Keys, v.Keys);
    assert |u| == |u.Keys| && |v| == |v.Keys| && |sample| == |sample.Keys|;
  }

  /** An element that one side dropped cannot be in the merged sample: the `k` that displaced it are. */
  lemma TooMany(digest: Bytes -> Bytes, k: nat, a: Weights, b: Weights, sample: Weights, m: Weights, x: Bytes)
    requires IsSample(digest, k, a, sample) && |sample| >= k && x in a && x !in sample
    requires IsSample(digest, k, Plus(b, sample), m)
    ensures x !in m
  {
    var u := Plus(b, sample);
    assert |sample.Keys + {x}| == |sample.Keys| + 1 && |m.Keys| <= k;
    if x in m {
      forall s | s in sample ensures s in m {
        assert Before(digest, s, x) && s in u;
        BeforeAsymmetric(digest, s, x);
      }
      SubsetSize(sample.Keys + {x}, m.Keys);
    }
  }

  lemma StillBefore(digest: Bytes -> Bytes, k: nat, a: Weights, b: Weights, sample: Weights, m: Weights, x: Bytes, y: Bytes)
    requires IsSample(digest, k, a, sample) && |sample| >= k
    requires IsSample(digest, k, Plus(b, sample), m)
    requires x in m && y in a && y !in sample
    ensures Before(digest, x, y)
  {
    if x !in sample {
      assert |sample.Keys + {x}| == |sample.Keys| + 1 && |m.Keys| <= k;
      if sample.Keys <= m.Keys { SubsetSize(sample.Keys + {x}, m.Keys); }
      var s :| s in sample.Keys && s !in m.Keys;
      assert s in Plus(b, sample);
      BeforeTransitive(digest, x, s, y);
    }
  }

  // ------------------------------------------------------------------------------- the entry

  /** What `Flush` writes: nothing, or how many emits are not in the string and the pairs in hash order. */
  datatype Flushed = Nothing | Flushed(extra: int, pairs: seq<(Bytes, int)>)

  class SampleEntry {
    const maxElems: nat
    const digest: Bytes -> Bytes
    var nElems: nat
    var tot: int
    /** The elements, in a fixed-size array, and where each is. */
    const list: array<Elem>
    var index: map<Bytes, nat>
    /** What the table holds, and everything ever added. */
    ghost var contents: Weights
    ghost var stream: seq<(Bytes, int)>

    ghost predicate Consistent() reads this, list {
      list.Length == maxElems && nElems <= maxElems && Holds(list[..nElems], index, contents)
    }

    ghost predicate Valid() reads this, list {
      Consistent() && IsSample(digest, maxElems, Totals(stream), contents)
    }

    constructor (maxElems: nat, digest: Bytes -> Bytes)
      ensures Valid() && fresh(list) && stream == [] && tot == 0
      ensures this.maxElems == maxElems && this.digest == digest
    {
      this.maxElems, this.digest := maxElems, digest;
      list := new Elem[maxElems](_ => Elem([], 0));
      nElems, tot, index, contents, stream := 0, 0, map[], map[], [];
    }

    method AddToKnown(elem: Bytes, w: int)
      requires Consistent() && elem in index
      modifies list, this`contents
      ensures Consistent()
      ensures contents == old(contents)[elem := old(contents)[elem] + w]
    {
      var at := index[elem];
      ghost var s := list[..nElems];
      assert Found(s, index, contents, elem);
      ReweighHolds(s, index, contents, elem, s[at].weight + w);
      list[at] := Elem(elem, list[at].weight + w);
      contents := contents[elem := contents[elem] + w];
      assert list[..nElems] == s[at := Elem(elem, s[at].weight + w)];
    }

    method AppendNew(elem: Bytes, w: int)
      requires Consistent() && elem !in index && nElems < maxElems
      modifies this`index, this`nElems, list, this`contents
      ensures Consistent()
      ensures contents == old(contents)[elem := w]
    {
      ghost var s := list[..nElems];
      AppendHolds(s, index, contents, elem, w);
      list[nElems] := Elem(elem, w);
      index := index[elem := nElems];
      nElems := nElems + 1;
      contents := contents[elem := w];
      assert list[..nElems] == s + [Elem(elem, w)];
    }

    /** The last element in hash order gives up its place in the array. */
    method ReplaceLast(elem: Bytes, w: int)
      requires Consistent() && elem !in index && nElems > 0
      modifies this`index, list, this`contents
      ensures Consistent()
      ensures exists last :: IsLast(digest, old(contents).Keys, last) && contents == (old(contents) - {last})[elem := w]
    {
      ghost var s := list[..nElems];
      assert index.Keys != {} by { assert Placed(s, index, 0) && s[0].value in index; }
      ghost var _ := LastExists(digest, index.Keys);
      var last :| last in index.Keys && forall v :: v in index.Keys && v != last ==> Before(digest, v, last);
      assert IsLast(digest, contents.Keys, last);
      ReplaceHolds(s, index, contents, last, elem, w);
      var at := index[last];
      index := index - {last};
      list[at] := Elem(elem, w);
      index := index[elem := at];
      contents := (contents - {last})[elem := w];
      assert list[..nElems] == s[at := Elem(elem, w)];
    }

    method Update(elem: Bytes, w: int)
      requires Consistent()
      modifies this`index, this`nElems, this`contents, list
      ensures Consistent()
      ensures Added(digest, maxElems, old(contents), elem, w, contents)
    {
      NeverBeforeItself(digest, elem);
      assert |contents| == nElems;
      var atEnd := forall v :: v in index.Keys ==> Before(digest, v, elem);
      if atEnd && nElems >= maxElems {
        // too big for a full table: dropped
      } else if elem in index {
        AddToKnown(elem, w);
      } else if nElems < maxElems {
        AppendNew(elem, w);
      } else {
        ReplaceLast(elem, w);
      }
    }

    method AddWeightedElem(elem: Bytes, w: int)
      requires Valid()
      modifies this, list
      ensures Valid() && tot == old(tot) + 1 && stream == old(stream) + [(elem, w)]
    {
      tot := tot + 1;
      Update(elem, w);
      NextSample(digest, maxElems, stream, old(contents), elem, w, contents);
      stream := stream + [(elem, w)];
    }

    method Clear()
      modifies this
      ensures list.Length == maxElems ==> Valid()
      ensures stream == [] && tot == 0
    {
      tot, index, nElems, contents, stream := 0, map[], 0, map[], [];
    }

    /** The pairs in increasing hash order; an empty table writes nothing and is left as it is. */
    method Flush() returns (out: Flushed)
      requires Valid()
      modifies this
      ensures Valid()
      ensures Describes(digest, maxElems, out, old(stream))
      ensures old(nElems) == 0 ==> out == Nothing && unchanged(this)
      ensures old(nElems) > 0 ==> out.Flushed? && out.extra + |out.pairs| == old(tot) && stream == [] && tot == 0
    {
      if nElems == 0 {
        assert contents == map[];
        return Nothing;
      }
      var pairs := InHashOrder(digest, list[..nElems], index, contents);
      out := Flushed(tot - nElems, pairs);
      Clear();
    }

    /** Merge what another entry flushed after `stream1`. */
    method Merge(val: Flushed, ghost stream1: seq<(Bytes, int)>) returns (status: MergeStatus)
      requires Valid()
      requires Acceptable(val) ==> Describes(digest, maxElems, val, stream1)
      modifies this, list
      ensures status == if Acceptable(val) then MergeOk else MergeError
      ensures status == MergeError ==> unchanged(this) && unchanged(list)
      ensures status == MergeOk ==> Valid() && stream == old(stream) + stream1
      ensures status == MergeOk ==> tot == old(tot) + if val.Nothing? then 0 else val.extra + |val.pairs|
    {
      if val.Nothing? {
        assert stream + PairsOf(val) == stream;
        MergedStream(digest, maxElems, stream, val, stream1, contents);
        stream := stream + stream1;
        return MergeOk;
      }
      if |val.pairs| > maxElems {
        return MergeError;
      }
      AddAll(val.pairs);
      tot := tot + val.extra;
      MergedStream(digest, maxElems, old(stream), val, stream1, contents);
      stream := old(stream) + stream1;
      status := MergeOk;
    }

    method AddAll(pairs: seq<(Bytes, int)>)
      requires Valid()
      modifies this, list
      ensures Valid() && stream == old(stream) + pairs && tot == old(tot) + |pairs|
    {
      for i := 0 to |pairs|
        invariant Valid() && stream == old(stream) + pairs[..i] && tot == old(tot) + i
      {
        OneMorePair(old(stream), pairs, i);
        AddWeightedElem(pairs[i].0, pairs[i].1);
      }
      assert pairs[..|pairs|] == pairs;
    }

    predicate Acceptable(val: Flushed) {
      val.Nothing? || |val.pairs| <= maxElems
    }
  }

  /** What iterating over `map_` yields. */
  method InHashOrder(digest: Bytes -> Bytes, s: seq<Elem>, index: map<Bytes, nat>, ghost m: Weights) returns (pairs: seq<(Bytes, int)>)
    requires Holds(s, index, m)
    ensures Lists(digest, pairs, m)
  {
    pairs := [];
    var rest := index.Keys;
    ListingStarts(digest, m);
    while rest != {}
      invariant Listing(digest, pairs, m, rest)
      decreases |rest|
    {
      var first := FirstOf(digest, rest);
      ListingGoesOn(digest, pairs, m, rest, first);
      assert Found(s, index, m, first);
      pairs := pairs + [(first, s[index[first]].weight)];
      rest := rest - {first};
    }
    ListingEnds(digest, pairs, m);
  }

  method FirstOf(digest: Bytes -> Bytes, s: set<Bytes>) returns (first: Bytes)
    requires s != {}
    ensures IsFirst(digest, s, first)
  {
    ghost var _ := FirstExists(digest, s);
    first :| first in s && forall v :: v in s && v != first ==> Before(digest, first, v);
  }

  /** `pairs` lists the weights `m` in increasing hash order. */
  ghost predicate Lists(digest: Bytes -> Bytes, pairs: seq<(Bytes, int)>, m: Weights) {
    && (forall i, j :: 0 <= i < j < |pairs| ==> Before(digest, pairs[i].0, pairs[j].0))
    && (forall i :: 0 <= i < |pairs| ==> pairs[i].0 in m && m[pairs[i].0] == pairs[i].1)
    && |pairs| == |m| && Totals(pairs) == m
  }

  /** `pairs` lists all of `m` but `rest`, which comes after it. */
  ghost predicate Listing(digest: Bytes -> Bytes, pairs: seq<(Bytes, int)>, m: Weights, rest: set<Bytes>) {
    && rest <= m.Keys && Lists(digest, pairs, m - rest)
    && (forall v, u :: v in m.Keys - rest && u in rest ==> Before(digest, v, u))
  }

  lemma ListingStarts(digest: Bytes -> Bytes, m: Weights)
    ensures Listing(digest, [], m, m.Keys)
  {
    assert m - m.Keys == map[];
  }

  lemma ListingEnds(digest: Bytes -> Bytes, pairs: seq<(Bytes, int)>, m: Weights)
    requires Listing(digest, pairs, m, {})
    ensures Lists(digest, pairs, m)
  {
    assert m - {} == m;
  }

  lemma ListingGoesOn(digest: Bytes -> Bytes, pairs: seq<(Bytes, int)>, m: Weights, rest: set<Bytes>, first: Bytes)
    requires Listing(digest, pairs, m, rest) && IsFirst(digest, rest, first)
    ensures Listing(digest, pairs + [(first, m[first])], m, rest - {first})
  {
    ListsMore(digest, pairs, m - rest, first, m[first]);
    assert m - (rest - {first}) == (m - rest)[first := m[first]];
  }

  lemma ListsMore(digest: Bytes -> Bytes, pairs: seq<(Bytes, int)>, m: Weights, first: Bytes, w: int)
    requires Lists(digest, pairs, m) && first !in m
    requires forall v :: v in m ==> Before(digest, v, first)
    ensures Lists(digest, pairs + [(first, w)], m[first := w])
  {
    assert (pairs + [(first, w)])[..|pairs|] == pairs;
    MapGrows(m, first, w);
  }

  /** A flushed string that stands for `stream`. */
  ghost predicate Describes(digest: Bytes -> Bytes, k: nat, val: Flushed, stream: seq<(Bytes, int)>) {
    exists m :: IsSample(digest, k, Totals(stream), m) && Lists(digest, PairsOf(val), m)
  }

  function PairsOf(val: Flushed): (pairs: seq<(Bytes, int)>) {
    if val.Flushed? then val.pairs else []
  }

  /** Adding the pairs of a flushed string gives the sample of the stream they stand for. */
  lemma MergedStream(digest: Bytes -> Bytes, k: nat, stream: seq<(Bytes, int)>, val: Flushed, stream1: seq<(Bytes, int)>, m: Weights)
    requires Describes(digest, k, val, stream1)
    requires IsSample(digest, k, Totals(stream + PairsOf(val)), m)
    ensures IsSample(digest, k, Totals(stream + stream1), m)
  {
    var sample :| IsSample(digest, k, Totals(stream1), sample) && Lists(digest, PairsOf(val), sample);
    TotalsConcat(stream, PairsOf(val));
    TotalsConcat(stream, stream1);
    MergeIsSample(digest, k, Totals(stream), Totals(stream1), sample, m);
  }

  // ------------------------------------------------------------------------------------ runs

  method Replay(run: Run, k: nat, digest: Bytes -> Bytes) returns (entry: SampleEntry)
    ensures fresh(entry) && fresh(entry.list) && entry.Valid() && entry.stream == Stream(run)
    ensures entry.maxElems == k && entry.digest == digest
    ensures entry.tot == Counted(run, k)
    decreases run, 1
  {
    match run
    case Start =>
      entry := new SampleEntry(k, digest);
    case Add(r, e, w) =>
      entry := Replay(r, k, digest);
      entry.AddWeightedElem(e, w);
    case Join(a, b) =>
      entry := Replay(a, k, digest);
      var flushed := FlushRun(b, k, digest);
      var status := entry.Merge(flushed, Stream(b));
      assert status == MergeOk;
  }

  method FlushRun(run: Run, k: nat, digest: Bytes -> Bytes) returns (out: Flushed)
    ensures Describes(digest, k, out, Stream(run)) && |PairsOf(out)| <= k
    ensures (if out.Nothing? then 0 else out.extra + |out.pairs|) == if k > 0 then Counted(run, k) else 0
    decreases run, 2
  {
    var entry := Replay(run, k, digest);
    EmptyTable(digest, k, entry.stream, entry.contents);
    CountedExactly(run, k);
    out := entry.Flush();
  }

  /** With `k > 0`, only the empty stream leaves the table empty. */
  lemma EmptyTable(digest: Bytes -> Bytes, k: nat, stream: seq<(Bytes, int)>, m: Weights)
    requires IsSample(digest, k, Totals(stream), m)
    ensures |m| == 0 && k > 0 ==> stream == []
  {
    if stream != [] { assert stream[|stream| - 1].0 in Totals(stream); }
  }

  /** What a `distinctsample(k)` table shows after any run: the exact selection, in hash order, and the count. */
  method Report(run: Run, k: nat, digest: Bytes -> Bytes) returns (pairs: seq<(Bytes, int)>, tot: int)
    ensures exists m :: IsSample(digest, k, Totals(Stream(run)), m) && Lists(digest, pairs, m)
    ensures tot == |Stream(run)| <==> k > 0 || JoinedIn(run) == 0
  {
    var entry := Replay(run, k, digest);
    CountedExactly(run, k);
    pairs := InHashOrder(digest, entry.list[..entry.nElems], entry.index, entry.contents);
    tot := entry.tot;
  }
}

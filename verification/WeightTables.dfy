/** Weighted streams, the totals they add up to, and arrays of elements with an index into them. */
module WeightTables {
  import opened ByteStrings

  type Weights = map<Bytes, int>

  function Get(m: Weights, e: Bytes): (w: int) {
    if e in m then m[e] else 0
  }

  function Bump(m: Weights, e: Bytes, w: int): (r: Weights) {
    m[e := Get(m, e) + w]
  }

  /** The total weight of each distinct element of a stream. */
  function Totals(stream: seq<(Bytes, int)>): (r: Weights) {
    if stream == [] then map[]
    else
      var last := stream[|stream| - 1];
      Bump(Totals(stream[..|stream| - 1]), last.0, last.1)
  }

  /** Adding two tables pointwise. */
  function Plus(a: Weights, b: Weights): (r: Weights) {
    map e | e in a.Keys + b.Keys :: Get(a, e) + Get(b, e)
  }

  lemma PlusBump(a: Weights, b: Weights, e: Bytes, w: int)
    ensures Plus(a, Bump(b, e, w)) == Bump(Plus(a, b), e, w)
  {
    var l, r := Plus(a, Bump(b, e, w)), Bump(Plus(a, b), e, w);
    assert l.Keys == r.Keys;
    forall x | x in l ensures l[x] == r[x] {}
  }

  lemma PlusEmpty(a: Weights)
    ensures Plus(a, map[]) == a
  {
    assert Plus(a, map[]).Keys == a.Keys;
  }

  lemma {:induction false} TotalsConcat(s: seq<(Bytes, int)>, t: seq<(Bytes, int)>)
    ensures Totals(s + t) == Plus(Totals(s), Totals(t))
  {
    if t == [] {
      assert s + t == s;
      PlusEmpty(Totals(s));
    } else {
      var init, last := t[..|t| - 1], t[|t| - 1];
      assert (s + t)[..|s + t| - 1] == s + init && (s + t)[|s + t| - 1] == last;
      TotalsConcat(s, init);
      PlusBump(Totals(s), Totals(init), last.0, last.1);
    }
  }

  lemma OneMorePair(s: seq<(Bytes, int)>, t: seq<(Bytes, int)>, i: nat)
    requires i < |t|
    ensures s + t[..i] + [(t[i].0, t[i].1)] == s + t[..i + 1]
  {
    assert t[..i + 1] == t[..i] + [t[i]];
    assert t[i] == (t[i].0, t[i].1);
  }

  datatype Elem = Elem(value: Bytes, weight: int)

  /** The index leads from value `v` to its element. */
  ghost predicate Found(s: seq<Elem>, index: map<Bytes, nat>, m: Weights, v: Bytes) {
    v in index ==> v in m && index[v] < |s| && s[index[v]] == Elem(v, m[v])
  }

  /** The element at position `i` is where the index says. */
  ghost predicate Placed(s: seq<Elem>, index: map<Bytes, nat>, i: int) {
    0 <= i < |s| ==> s[i].value in index && index[s[i].value] == i
  }

  /** The array `s` and the map `index` into it hold exactly the weights `m`. */
  ghost predicate Holds(s: seq<Elem>, index: map<Bytes, nat>, m: Weights) {
    && index.Keys == m.Keys && |m| == |s|
    && (forall v {:trigger Found(s, index, m, v)} :: Found(s, index, m, v))
    && (forall i {:trigger Placed(s, index, i)} :: Placed(s, index, i))
  }

  lemma MapGrows(m: Weights, elem: Bytes, w: int)
    requires elem !in m
    ensures |m[elem := w]| == |m| + 1 && m[elem := w].Keys == m.Keys + {elem}
  {
    assert m[elem := w].Keys == m.Keys + {elem};
    assert |m.Keys + {elem}| == |m.Keys| + 1;
    assert |m[elem := w]| == |m[elem := w].Keys| && |m| == |m.Keys|;
  }

  lemma MapShrinks(m: Weights, last: Bytes)
    requires last in m
    ensures |m - {last}| == |m| - 1 && (m - {last}).Keys == m.Keys - {last}
  {
    assert (m - {last}).Keys == m.Keys - {last};
    assert |m.Keys - {last}| == |m.Keys| - 1;
    assert |m - {last}| == |(m - {last}).Keys| && |m| == |m.Keys|;
  }

  lemma MapSame(m: Weights, elem: Bytes, w: int)
    requires elem in m
    ensures |m[elem := w]| == |m| && m[elem := w].Keys == m.Keys
  {
    assert m[elem := w].Keys == m.Keys;
    assert |m[elem := w]| == |m[elem := w].Keys| && |m| == |m.Keys|;
  }

  lemma ReweighHolds(s: seq<Elem>, index: map<Bytes, nat>, m: Weights, elem: Bytes, w: int)
    requires Holds(s, index, m) && elem in index
    ensures Found(s, index, m, elem) && Holds(s[index[elem] := Elem(elem, w)], index, m[elem := w])
  {
    assert Found(s, index, m, elem);
    var s', m' := s[index[elem] := Elem(elem, w)], m[elem := w];
    MapSame(m, elem, w);
    forall v ensures Found(s', index, m', v) { assert Found(s, index, m, v); }
    forall i ensures Placed(s', index, i) { assert Placed(s, index, i); }
  }

  lemma AppendHolds(s: seq<Elem>, index: map<Bytes, nat>, m: Weights, elem: Bytes, w: int)
    requires Holds(s, index, m) && elem !in index
    ensures Holds(s + [Elem(elem, w)], index[elem := |s|], m[elem := w])
  {
    var s', index', m' := s + [Elem(elem, w)], index[elem := |s|], m[elem := w];
    MapGrows(m, elem, w);
    assert index'.Keys == index.Keys + {elem};
    forall v ensures Found(s', index', m', v) { assert Found(s, index, m, v); }
    forall i ensures Placed(s', index', i) { assert Placed(s, index, i); }
  }

  lemma ReplaceHolds(s: seq<Elem>, index: map<Bytes, nat>, m: Weights, last: Bytes, elem: Bytes, w: int)
    requires Holds(s, index, m) && last in index && elem !in index
    ensures Found(s, index, m, last)
    ensures Holds(s[index[last] := Elem(elem, w)], (index - {last})[elem := index[last]], (m - {last})[elem := w])
  {
    assert Found(s, index, m, last);
    var at := index[last];
    var s', index', m' := s[at := Elem(elem, w)], (index - {last})[elem := at], (m - {last})[elem := w];
    MapShrinks(m, last);
    MapGrows(m - {last}, elem, w);
    assert index'.Keys == index.Keys - {last} + {elem};
    forall v ensures Found(s', index', m', v) { assert Found(s, index, m, v); }
    forall i ensures Placed(s', index', i) { assert Placed(s, index, i); }
  }
}

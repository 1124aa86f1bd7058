/**
 * Quantiles of values. A table sorts encodings; for types whose encodings are in the order of the values,
 * what it shows are the encodings of the quantiles of the values.
 */
module QuantileValues {
  import opened ByteStrings
  import opened WireFormat
  import opened Values
  import opened ValueOrder
  import opened WireOrder
  import opened QuantileSummary
  import opened QuantileSplitters
  import opened QuantileTable
  import opened QuantileRuns

  /** Values that can be written and read back. */
  ghost predicate Readable(ops: Ops, v: Value) {
    Typed(ops, v) && AllPortable(ops, v)
  }

  ghost predicate AllReadable(ops: Ops, vs: seq<Value>) {
    Sortable(ops) && forall i :: 0 <= i < |vs| ==> Readable(ops, vs[i])
  }

  ghost function Encodings(ops: Ops, vs: seq<Value>): (s: seq<Bytes>)
    requires AllReadable(ops, vs)
    ensures |s| == |vs| && forall i :: 0 <= i < |vs| ==> s[i] == Encode(ops, vs[i], true)
  {
    if vs == [] then [] else Encodings(ops, vs[..|vs| - 1]) + [Encode(ops, vs[|vs| - 1], true)]
  }

  /** How many values come before `x`, or, if `too`, no later. */
  ghost function Rank(ops: Ops, vs: seq<Value>, x: Value, too: bool): (n: nat)
    requires AllReadable(ops, vs) && Readable(ops, x)
  {
    if vs == [] then 0
    else
      var c := Cmp(ops, vs[|vs| - 1], x);
      Rank(ops, vs[..|vs| - 1], x, too) + if c < 0 || (too && c == 0) then 1 else 0
  }

  lemma EncodingOrder(ops: Ops, v: Value, x: Value)
    requires Sortable(ops) && Readable(ops, v) && Readable(ops, x)
    ensures Less(Encode(ops, v, true), Encode(ops, x, true)) <==> Cmp(ops, v, x) < 0
    ensures AtMost(Encode(ops, v, true), Encode(ops, x, true)) <==> Cmp(ops, v, x) <= 0
  {
    OrderEmbedding(ops, v, x);
    OrderEmbedding(ops, x, v);
    CmpMirrors(ops, x, v);
  }

  /** The rank of an encoding among encodings is the rank of the value among values. */
  lemma {:induction false} SameRank(ops: Ops, vs: seq<Value>, x: Value, too: bool)
    requires AllReadable(ops, vs) && Readable(ops, x)
    ensures var e := Encode(ops, x, true); QuantileSummary.Count(Encodings(ops, vs), if too then UpTo(e) else Below(e)) == Rank(ops, vs, x, too)
  {
    if vs != [] {
      var init, last := vs[..|vs| - 1], vs[|vs| - 1];
      SameRank(ops, init, x, too);
      EncodingOrder(ops, last, x);
      assert Encodings(ops, vs)[..|vs| - 1] == Encodings(ops, init);
    }
  }

  /** The least, the greatest and between them, in order, values within `error` of their ranks. */
  ghost predicate ValueQuantiles(ops: Ops, xs: seq<Value>, n: nat, vs: seq<Value>, error: nat) {
    && AllReadable(ops, vs) && |xs| == n >= 2
    && (forall i :: 0 <= i < n ==> xs[i] in vs && Readable(ops, xs[i]))
    && (forall i, j :: 0 <= i < j < n ==> Cmp(ops, xs[i], xs[j]) <= 0)
    && (forall i :: 0 <= i < |vs| ==> Cmp(ops, xs[0], vs[i]) <= 0 && Cmp(ops, vs[i], xs[n - 1]) <= 0)
    && (forall i :: 1 <= i <= n - 2 ==>
          Rank(ops, vs, xs[i], false) < Target(i, |vs|, n) <= Rank(ops, vs, xs[i], true) + error)
  }

  /** The value behind an encoding. */
  lemma ValueOf(ops: Ops, vs: seq<Value>, e: Bytes) returns (x: Value)
    requires AllReadable(ops, vs) && e in Encodings(ops, vs)
    ensures x in vs && Readable(ops, x) && e == Encode(ops, x, true) && Decode(ops, e, true) == Got(x, [])
  {
    var i :| 0 <= i < |vs| && Encodings(ops, vs)[i] == e;
    x := vs[i];
    RoundTrip(ops, x, true, []);
    assert e + [] == e;
  }

  /** Quantile by quantile, what is read back is a value with that encoding. */
  ghost predicate ReadBack(ops: Ops, q: seq<Bytes>, xs: seq<Value>) {
    |xs| == |q| && forall i :: 0 <= i < |xs| ==> Readable(ops, xs[i]) && q[i] == Encode(ops, xs[i], true)
  }

  lemma QuantilesOfValues(ops: Ops, vs: seq<Value>, q: seq<Bytes>, n: nat, error: nat, xs: seq<Value>)
    requires AllReadable(ops, vs) && Quantiles(q, n, Encodings(ops, vs), error) && ReadBack(ops, q, xs)
    requires forall i :: 0 <= i < |xs| ==> xs[i] in vs
    ensures ValueQuantiles(ops, xs, n, vs, error)
  {
    forall i, j | 0 <= i < j < n ensures Cmp(ops, xs[i], xs[j]) <= 0 {
      assert AtMost(q[i], q[j]);
      EncodingOrder(ops, xs[i], xs[j]);
    }
    forall i | 0 <= i < |vs| ensures Cmp(ops, xs[0], vs[i]) <= 0 && Cmp(ops, vs[i], xs[n - 1]) <= 0 {
      assert Encodings(ops, vs)[i] in Encodings(ops, vs);
      EncodingOrder(ops, xs[0], vs[i]);
      EncodingOrder(ops, vs[i], xs[n - 1]);
    }
    forall i | 1 <= i <= n - 2 ensures Rank(ops, vs, xs[i], false) < Target(i, |vs|, n) <= Rank(ops, vs, xs[i], true) + error {
      assert RankOf(q[i], Encodings(ops, vs), Target(i, |vs|, n), error);
      SameRank(ops, vs, xs[i], false);
      SameRank(ops, vs, xs[i], true);
    }
  }

  method DecodeAll(ops: Ops, q: seq<Bytes>, ghost vs: seq<Value>) returns (xs: seq<Value>)
    requires AllReadable(ops, vs) && forall i :: 0 <= i < |q| ==> q[i] in Encodings(ops, vs)
    ensures ReadBack(ops, q, xs) && forall i :: 0 <= i < |xs| ==> xs[i] in vs
  {
    xs := [];
    for i := 0 to |q|
      invariant |xs| == i && forall j :: 0 <= j < i ==> xs[j] in vs && Readable(ops, xs[j]) && q[j] == Encode(ops, xs[j], true)
    {
      ghost var x := ValueOf(ops, vs, q[i]);
      var r := Decode(ops, q[i], true);
      xs := xs + [r.value];
    }
  }

  /** The quantiles shown after any run of adds and merges of encoded values, as values. */
  method ReportValues(run: Run, param: int, ops: Ops, ghost vs: seq<Value>) returns (xs: seq<Value>, ghost k: nat, ghost levels: nat, ghost error: nat)
    requires param <= MAX_INT && AllReadable(ops, vs) && vs != [] && Inputs(run) == Encodings(ops, vs)
    ensures ValueQuantiles(ops, xs, if param < 2 then 2 else param, vs, error)
    ensures Bounded(k, if param < 2 then 2 else param, levels, |vs|, error)
  {
    ghost var b, log;
    var q;
    q, k, b, log := Report(run, param);
    levels, error := Height(TreeAfter(k, run)), Cost(log);
    xs := DecodeAll(ops, q, vs);
    QuantilesOfValues(ops, vs, q, if param < 2 then 2 else param, error, xs);
  }
}

/** Values from one program to another: written by an encoder, read by a decoder. */
module Transfer {
  import opened ByteStrings
  import opened WireFormat
  import opened Values
  import opened Encoder
  import opened Decoder

  predicate Sendable(t: Type, v: Value) {
    Typed(Init(t), v) && AllPortable(Init(t), v)
  }

  /**
   * Values of any types, one after another in one string, come back as they were, with nothing left over,
   * provided no text has a NUL in it.
   */
  method Send(types: seq<Type>, values: seq<Value>) returns (ok: bool, received: seq<Value>)
    requires |types| == |values|
    requires forall i :: 0 <= i < |types| ==> Sendable(types[i], values[i])
    ensures ok && received == values
  {
    var data := WriteAll(types, values);
    var dec := new SzlDecoder(data);
    received := [];
    FrontAll(values);
    for i := 0 to |types|
      invariant dec.Valid() && dec.Rest() == All(types, values, i)
      invariant received == Front(values, i)
    {
      assert Sendable(types[i], values[i]);
      var v := ReadOne(dec, types[i], values[i], All(types, values, i + 1));
      FrontStep(values, i);
      received := received + [v];
    }
    ok := dec.p == |data|;
    assert |dec.Rest()| == 0;
  }

  method ReadOne(dec: SzlDecoder, t: Type, ghost v: Value, ghost rest: Bytes) returns (w: Value)
    requires Sendable(t, v) && dec.Valid() && dec.Rest() == Encode(Init(t), v, true) + rest
    modifies dec
    ensures w == v && dec.Valid() && dec.Rest() == rest
  {
    RoundTrip(Init(t), v, true, rest);
    var ok;
    ok, w := dec.GetValue(Init(t), true);
    assert ok;
  }

  /** The encodings of the values from position `i` on. */
  ghost function All(types: seq<Type>, values: seq<Value>, i: nat): (s: Bytes)
    requires |types| == |values| && i <= |types|
    requires forall j :: 0 <= j < |types| ==> Sendable(types[j], values[j])
    decreases |types| - i
  {
    if i == |types| then [] else assert Sendable(types[i], values[i]); Encode(Init(types[i]), values[i], true) + All(types, values, i + 1)
  }

  method WriteAll(types: seq<Type>, values: seq<Value>) returns (data: Bytes)
    requires |types| == |values|
    requires forall j :: 0 <= j < |types| ==> Sendable(types[j], values[j])
    ensures data == All(types, values, 0)
  {
    var enc := new SzlEncoder();
    for i := 0 to |types|
      invariant enc.data + All(types, values, i) == All(types, values, 0)
    {
      assert Sendable(types[i], values[i]);
      Associate(enc.data, Encode(Init(types[i]), values[i], true), All(types, values, i + 1));
      enc.PutValue(Init(types[i]), values[i], true);
    }
    data := enc.data;
  }

  function Front(values: seq<Value>, i: nat): (r: seq<Value>)
    requires i <= |values|
  {
    values[..i]
  }

  lemma FrontStep(values: seq<Value>, i: nat)
    requires i < |values|
    ensures Front(values, i + 1) == Front(values, i) + [values[i]]
  {
  }

  lemma FrontAll(values: seq<Value>)
    ensures Front(values, |values|) == values && Front(values, 0) == []
  {
  }
}

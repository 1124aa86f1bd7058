/**
 * Typed values on the wire: writing, reading and skipping values of nested tuple, array and map
 * types, driven by the flattened form of the type.
 */
module Values {
  import opened ByteStrings
  import opened WireFormat

  /** A type as declared. */
  datatype Type = BaseType(kind: Kind) | TupleType(fields: seq<Type>) | ArrayType(elem: Type) | MapType(index: Type, elem: Type)

  /** What is built from a type: tuples within tuples are gone, arrays and maps have operations of their own. */
  datatype Ops = Single(kind: Kind) | Tuple(flats: seq<Ops>) | Array(elem: Ops) | Map(key: Ops, value: Ops)

  function Init(t: Type): (ops: Ops)
    ensures ops.Tuple? <==> t.TupleType?
    ensures Flattened(ops)
  {
    match t
    case BaseType(kind) => Single(kind)
    case TupleType(fields) => Tuple(FlattenAll(fields))
    case ArrayType(elem) => Array(Init(elem))
    case MapType(index, elem) => Map(Init(index), Init(elem))
  }

  /** The flat fields of a tuple with these fields. */
  function FlattenAll(fields: seq<Type>): (flats: seq<Ops>)
    ensures forall i :: 0 <= i < |flats| ==> !flats[i].Tuple? && Flattened(flats[i])
    ensures |flats| == CountAll(fields)
  {
    if fields == [] then []
    else (if fields[0].TupleType? then FlattenAll(fields[0].fields) else [Init(fields[0])]) + FlattenAll(fields[1..])
  }

  /** The number of flat values, counted on the type. */
  function CountAll(fields: seq<Type>): (n: nat) {
    if fields == [] then 0
    else (if fields[0].TupleType? then CountAll(fields[0].fields) else 1) + CountAll(fields[1..])
  }

  predicate Flattened(ops: Ops) {
    match ops
    case Single(_) => true
    case Tuple(flats) => forall i :: 0 <= i < |flats| ==> !flats[i].Tuple? && Flattened(flats[i])
    case Array(elem) => Flattened(elem)
    case Map(key, value) => Flattened(key) && Flattened(value)
  }

  /** Values: tuples are stored flat, maps as keys and values in turn. */
  datatype Value = One(v: Base) | Vals(vals: seq<Value>)

  /** The operations for the value at position `i`. */
  function Slot(ops: Ops, i: nat): (slot: Ops)
    requires !ops.Single? && (ops.Tuple? ==> i < |ops.flats|)
    ensures slot < ops
  {
    match ops
    case Tuple(flats) => flats[i]
    case Array(elem) => elem
    case Map(key, value) => if i % 2 == 0 then key else value
  }

  /** A populated value of the type. */
  predicate Typed(ops: Ops, v: Value) {
    if ops.Single? then v.One? && Storable(ops.kind, v.v)
    else
      && v.Vals? && (ops.Tuple? ==> |v.vals| == |ops.flats|) && (ops.Map? ==> |v.vals| < TWO63)
      && forall i :: 0 <= i < |v.vals| ==> Typed(Slot(ops, i), v.vals[i])
  }

  /** No text anywhere in the value has a NUL in it. */
  predicate AllPortable(ops: Ops, v: Value)
    requires Typed(ops, v)
  {
    if ops.Single? then Portable(ops.kind, v.v)
    else forall i :: 0 <= i < |v.vals| ==> AllPortable(Slot(ops, i), v.vals[i])
  }

  function StartMark(ops: Ops): (tag: byte) {
    if ops.Array? then ARRAY_START else if ops.Map? then MAP_START else TUPLE_START
  }

  function EndMark(ops: Ops): (tag: byte) {
    if ops.Array? then ARRAY_END else if ops.Map? then MAP_END else TUPLE_END
  }

  // ----------------------------------------------------------------------------------- writing

  /** Tuples at top level have no marks; maps give the number of their keys and values. */
  function Encode(ops: Ops, v: Value, top: bool): (s: Bytes)
    requires Typed(ops, v)
    decreases v, 1, 0
  {
    if ops.Single? then Put(ops.kind, v.v)
    else Open(ops, |v.vals|, top) + EncodeFrom(ops, v, 0) + Close(ops, top)
  }

  function Open(ops: Ops, n: nat, top: bool): (s: Bytes) {
    if ops.Tuple? && top then [] else if ops.Map? then [MAP_START] + PutInt(n) else [StartMark(ops)]
  }

  function Close(ops: Ops, top: bool): (s: Bytes) {
    if ops.Tuple? && top then [] else [EndMark(ops)]
  }

  /** The values from position `i` on. */
  function EncodeFrom(ops: Ops, v: Value, i: nat): (s: Bytes)
    requires !ops.Single? && Typed(ops, v) && i <= |v.vals|
    decreases v, 0, |v.vals| - i
  {
    if i == |v.vals| then [] else Encode(Slot(ops, i), v.vals[i], false) + EncodeFrom(ops, v, i + 1)
  }

  // ----------------------------------------------------------------------------------- skipping

  function Mark(tag: byte, s: Bytes): (r: Read<()>)
    ensures r.Got? ==> |r.rest| < |s|
  {
    if s == [] || s[0] != tag then Failed else Got((), s[1..])
  }

  /** The mark before a value, and the length of a map. */
  function Opening(ops: Ops, s: Bytes, top: bool): (r: Read<int>)
    requires !ops.Single?
    ensures r.Got? ==> |r.rest| <= |s| && ((ops.Tuple? && top) || |r.rest| < |s|)
  {
    if ops.Tuple? && top then Got(0, s)
    else
      var m := Mark(StartMark(ops), s);
      if m.Failed? then Failed else if ops.Map? then GetInt(m.rest) else Got(0, m.rest)
  }

  function Closing(ops: Ops, s: Bytes, top: bool): (r: Read<()>)
    ensures r.Got? ==> |r.rest| <= |s|
  {
    if ops.Tuple? && top then Got((), s) else Mark(EndMark(ops), s)
  }

  /** How many values follow, if the type or the length says so; the length of a map may be nonsense. */
  function Announced(ops: Ops, len: int): (n: nat)
    requires ops.Tuple? || ops.Map?
  {
    if ops.Tuple? then |ops.flats| else if len < 0 then 0 else len
  }

  function SkipValue(ops: Ops, s: Bytes, top: bool): (r: Read<()>)
    ensures r.Got? ==> |r.rest| <= |s| && (!top ==> |r.rest| < |s|)
    decreases ops, 1, 0
  {
    if ops.Single? then Skip(ops.kind, s)
    else
      var o := Opening(ops, s, top);
      if o.Failed? then Failed
      else
        var body := if ops.Array? then Forget(Count(ops, o.rest)) else SkipVals(ops, o.rest, 0, Announced(ops, o.value));
        if body.Failed? then Failed else Closing(ops, body.rest, top)
  }

  /** Values at positions `i` to `n`. */
  function SkipVals(ops: Ops, s: Bytes, i: nat, n: nat): (r: Read<()>)
    requires !ops.Single? && i <= n && (ops.Tuple? ==> n <= |ops.flats|)
    ensures r.Got? ==> |r.rest| <= |s|
    decreases ops, 0, n - i
  {
    if i == n then Got((), s)
    else
      var one := SkipValue(Slot(ops, i), s, false);
      if one.Failed? then Failed else SkipVals(ops, one.rest, i + 1, n)
  }

  /** Array elements up to the end mark or the end of input, by skipping them; `rest` is where they end. */
  function Count(ops: Ops, s: Bytes): (r: Read<nat>)
    requires ops.Array?
    ensures r.Got? ==> |r.rest| <= |s|
    decreases ops, 0, |s|
  {
    if s == [] || s[0] == ARRAY_END then Got(0, s)
    else
      var one := SkipValue(ops.elem, s, false);
      if one.Failed? then Failed
      else
        var more := Count(ops, one.rest);
        if more.Failed? then Failed else Got(more.value + 1, more.rest)
  }

  // ------------------------------------------------------------------------------------ reading

  /** Arrays do not give their length: it is found by skipping the elements before reading them. */
  function Decode(ops: Ops, s: Bytes, top: bool): (r: Read<Value>)
    decreases ops, 1, 0
  {
    if ops.Single? then
      var b := Get(ops.kind, s);
      if b.Failed? then Failed else Got(One(b.value), b.rest)
    else
      var o := Opening(ops, s, top);
      if o.Failed? then Failed
      else
        var n := if ops.Array? then Count(ops, o.rest) else Got(Announced(ops, o.value), o.rest);
        if n.Failed? then Failed
        else
          var body := DecodeVals(ops, o.rest, 0, n.value);
          if body.Failed? then Failed
          else
            var c := Closing(ops, body.rest, top);
            if c.Failed? then Failed else Got(Vals(body.value), c.rest)
  }

  function DecodeVals(ops: Ops, s: Bytes, i: nat, n: nat): (r: Read<seq<Value>>)
    requires !ops.Single? && i <= n && (ops.Tuple? ==> n <= |ops.flats|)
    ensures r.Got? ==> |r.value| == n - i
    decreases ops, 0, n - i
  {
    if i == n then Got([], s)
    else
      var one := Decode(Slot(ops, i), s, false);
      if one.Failed? then Failed
      else
        var more := DecodeVals(ops, one.rest, i + 1, n);
        if more.Failed? then Failed else Got([one.value] + more.value, more.rest)
  }

  // ---------------------------------------------------------------- skipping does what reading does

  /** On every input, well formed or not, a value can be skipped exactly when it can be read, to the same place. */
  lemma {:induction false} SkipsValue(ops: Ops, s: Bytes, top: bool)
    ensures SkipValue(ops, s, top) == Forget(Decode(ops, s, top))
    decreases ops, 1, 0
  {
    if ops.Single? {
      SkipsBase(ops.kind, s);
    } else {
      var o := Opening(ops, s, top);
      if o.Got? {
        if ops.Array? { SkipsElements(ops, o.rest); } else { SkipsVals(ops, o.rest, 0, Announced(ops, o.value)); }
      }
    }
  }

  lemma {:induction false} SkipsVals(ops: Ops, s: Bytes, i: nat, n: nat)
    requires !ops.Single? && i <= n && (ops.Tuple? ==> n <= |ops.flats|)
    ensures SkipVals(ops, s, i, n) == Forget(DecodeVals(ops, s, i, n))
    decreases ops, 0, n - i
  {
    if i < n {
      SkipsValue(Slot(ops, i), s, false);
      var one := SkipValue(Slot(ops, i), s, false);
      if one.Got? { SkipsVals(ops, one.rest, i + 1, n); }
    }
  }

  lemma SkipsElements(ops: Ops, s: Bytes)
    requires ops.Array?
    ensures var n := Count(ops, s); n.Got? ==> Forget(DecodeVals(ops, s, 0, n.value)) == Got((), n.rest)
    decreases ops, 0, |s| + 1
  {
    if Count(ops, s).Got? { SkipsArray(ops, s, 0, Count(ops, s).value); }
  }

  /** The counting pass over an array ends where reading as many elements ends. */
  lemma {:induction false} SkipsArray(ops: Ops, s: Bytes, i: nat, n: nat)
    requires ops.Array? && Count(ops, s).Got? && n == i + Count(ops, s).value
    ensures Forget(DecodeVals(ops, s, i, n)) == Got((), Count(ops, s).rest)
    decreases ops, 0, |s|
  {
    if s != [] && s[0] != ARRAY_END {
      SkipsValue(ops.elem, s, false);
      var one := Decode(Slot(ops, i), s, false);
      SkipsArray(ops, one.rest, i + 1, n);
    }
  }

  // ------------------------------------------------------------------------------- the round trip

  /** Whatever follows it, a populated value is read back, up to exactly what follows it. */
  lemma {:induction false} RoundTrip(ops: Ops, v: Value, top: bool, rest: Bytes)
    requires Typed(ops, v) && AllPortable(ops, v)
    ensures Decode(ops, Encode(ops, v, top) + rest, top) == Got(v, rest)
    decreases v, 1, 0
  {
    if ops.Single? {
      BaseRoundTrip(ops.kind, v.v, rest);
    } else {
      var after := Close(ops, top) + rest;
      var s, body := Encode(ops, v, top) + rest, EncodeFrom(ops, v, 0) + after;
      Regroup(Open(ops, |v.vals|, top), EncodeFrom(ops, v, 0), Close(ops, top), rest);
      OpensWith(ops, |v.vals|, top, body);
      ValsRoundTrip(ops, v, 0, after);
      if ops.Array? { CountsAll(ops, v, 0, after, body); }
      Assembles(ops, s, top, if ops.Map? then |v.vals| else 0, body, v.vals, rest);
    }
  }

  lemma FromFirst(ops: Ops, v: Value, i: nat)
    requires !ops.Single? && Typed(ops, v) && i < |v.vals|
    ensures Typed(Slot(ops, i), v.vals[i]) && EncodeFrom(ops, v, i) == Encode(Slot(ops, i), v.vals[i], false) + EncodeFrom(ops, v, i + 1)
  {
  }

  lemma Regroup(a: Bytes, b: Bytes, c: Bytes, d: Bytes)
    ensures a + b + c + d == a + (b + (c + d))
  {
  }

  lemma Assembles(ops: Ops, s: Bytes, top: bool, len: int, body: Bytes, vals: seq<Value>, rest: Bytes)
    requires !ops.Single? && Opening(ops, s, top) == Got(len, body)
    requires if ops.Array? then Count(ops, body) == Got(|vals|, Close(ops, top) + rest) else Announced(ops, len) == |vals|
    requires DecodeVals(ops, body, 0, |vals|) == Got(vals[0..], Close(ops, top) + rest)
    ensures Decode(ops, s, top) == Got(Vals(vals), rest)
  {
    ClosesWith(ops, top, rest);
    assert vals[0..] == vals;
  }

  lemma OpensWith(ops: Ops, n: nat, top: bool, body: Bytes)
    requires !ops.Single? && (ops.Map? ==> n < TWO63)
    ensures Opening(ops, Open(ops, n, top) + body, top) == Got(if ops.Map? then n else 0, body)
  {
    if ops.Map? {
      assert Open(ops, n, top) + body == [MAP_START] + (PutInt(n) + body);
      IntRoundTrip(n, body);
    }
  }

  lemma ClosesWith(ops: Ops, top: bool, rest: Bytes)
    ensures Closing(ops, Close(ops, top) + rest, top) == Got((), rest)
  {
  }

  lemma {:induction false} ValsRoundTrip(ops: Ops, v: Value, i: nat, rest: Bytes)
    requires !ops.Single? && Typed(ops, v) && AllPortable(ops, v) && i <= |v.vals|
    ensures DecodeVals(ops, EncodeFrom(ops, v, i) + rest, i, |v.vals|) == Got(v.vals[i..], rest)
    decreases v, 0, |v.vals| - i
  {
    var s := EncodeFrom(ops, v, i) + rest;
    if i < |v.vals| {
      var x, more := v.vals[i], EncodeFrom(ops, v, i + 1) + rest;
      Splits(ops, v, i, rest, s, x, more);
      RoundTrip(Slot(ops, i), x, false, more);
      ValsRoundTrip(ops, v, i + 1, rest);
      ReadsOn(ops, s, i, v.vals, more, rest);
    } else {
      ReadsNone(ops, v, s, rest);
    }
  }

  lemma Splits(ops: Ops, v: Value, i: nat, rest: Bytes, s: Bytes, x: Value, more: Bytes)
    requires !ops.Single? && Typed(ops, v) && AllPortable(ops, v) && i < |v.vals| && x == v.vals[i]
    requires s == EncodeFrom(ops, v, i) + rest && more == EncodeFrom(ops, v, i + 1) + rest
    ensures Typed(Slot(ops, i), x) && AllPortable(Slot(ops, i), x) && s == Encode(Slot(ops, i), x, false) + more
  {
    Associate(Encode(Slot(ops, i), x, false), EncodeFrom(ops, v, i + 1), rest);
  }

  lemma ReadsOn(ops: Ops, s: Bytes, i: nat, vals: seq<Value>, more: Bytes, rest: Bytes)
    requires !ops.Single? && i < |vals| && (ops.Tuple? ==> |vals| <= |ops.flats|)
    requires Decode(Slot(ops, i), s, false) == Got(vals[i], more) && DecodeVals(ops, more, i + 1, |vals|) == Got(vals[i + 1..], rest)
    ensures DecodeVals(ops, s, i, |vals|) == Got(vals[i..], rest)
  {
    ReadsNext(ops, s, i, |vals|, vals[i], more, vals[i + 1..], rest);
    assert [vals[i]] + vals[i + 1..] == vals[i..];
  }

  lemma ReadsNone(ops: Ops, v: Value, s: Bytes, rest: Bytes)
    requires !ops.Single? && Typed(ops, v) && s == EncodeFrom(ops, v, |v.vals|) + rest
    ensures DecodeVals(ops, s, |v.vals|, |v.vals|) == Got(v.vals[|v.vals|..], rest)
  {
    assert EncodeFrom(ops, v, |v.vals|) == [] && v.vals[|v.vals|..] == [];
    assert [] + rest == rest;
  }

  lemma ReadsNext(ops: Ops, s: Bytes, i: nat, n: nat, x: Value, more: Bytes, vals: seq<Value>, rest: Bytes)
    requires !ops.Single? && i < n && (ops.Tuple? ==> n <= |ops.flats|)
    requires Decode(Slot(ops, i), s, false) == Got(x, more) && DecodeVals(ops, more, i + 1, n) == Got(vals, rest)
    ensures DecodeVals(ops, s, i, n) == Got([x] + vals, rest)
  {
  }

  /** No value begins with an end mark, so the counting pass counts them all. */
  lemma {:induction false} CountsAll(ops: Ops, v: Value, i: nat, rest: Bytes, s: Bytes)
    requires ops.Array? && Typed(ops, v) && AllPortable(ops, v) && i <= |v.vals| && (rest != [] && rest[0] == ARRAY_END)
    requires s == EncodeFrom(ops, v, i) + rest
    ensures Count(ops, s) == Got(|v.vals| - i, rest)
    decreases v, 0, |v.vals| - i
  {
    if i < |v.vals| {
      var more := EncodeFrom(ops, v, i + 1) + rest;
      CountsAll(ops, v, i + 1, rest, more);
      CountsNext(ops, v, i, rest, |v.vals| - (i + 1), s, more);
    } else {
      CountsNone(ops, v, rest, s);
    }
  }

  lemma CountsNone(ops: Ops, v: Value, rest: Bytes, s: Bytes)
    requires ops.Array? && Typed(ops, v) && rest != [] && rest[0] == ARRAY_END && s == EncodeFrom(ops, v, |v.vals|) + rest
    ensures Count(ops, s) == Got(0, rest)
  {
    assert EncodeFrom(ops, v, |v.vals|) == [] && s == rest;
  }

  lemma {:induction false} CountsNext(ops: Ops, v: Value, i: nat, rest: Bytes, n: nat, s: Bytes, more: Bytes)
    requires ops.Array? && Typed(ops, v) && AllPortable(ops, v) && i < |v.vals|
    requires s == EncodeFrom(ops, v, i) + rest && more == EncodeFrom(ops, v, i + 1) + rest && Count(ops, more) == Got(n, rest)
    ensures Count(ops, s) == Got(n + 1, rest)
    decreases v, 0, 0, 1
  {
    FirstSkips(ops, v, i, rest);
    CountsOne(ops, s, more, n, rest);
  }

  lemma {:induction false} FirstSkips(ops: Ops, v: Value, i: nat, rest: Bytes)
    requires ops.Array? && Typed(ops, v) && AllPortable(ops, v) && i < |v.vals|
    ensures var s := EncodeFrom(ops, v, i) + rest;
      SkipValue(ops.elem, s, false) == Got((), EncodeFrom(ops, v, i + 1) + rest) && s != [] && s[0] != ARRAY_END
    decreases v, 0, 0, 0
  {
    ElementOf(ops, v, i);
    FromFirst(ops, v, i);
    Associate(Encode(ops.elem, v.vals[i], false), EncodeFrom(ops, v, i + 1), rest);
    SkipsOver(ops.elem, v.vals[i], EncodeFrom(ops, v, i + 1) + rest);
  }

  lemma ElementOf(ops: Ops, v: Value, i: nat)
    requires ops.Array? && Typed(ops, v) && AllPortable(ops, v) && i < |v.vals|
    ensures Typed(ops.elem, v.vals[i]) && AllPortable(ops.elem, v.vals[i])
  {
    assert Slot(ops, i) == ops.elem;
  }

  lemma CountsOne(ops: Ops, s: Bytes, more: Bytes, n: nat, rest: Bytes)
    requires ops.Array? && SkipValue(ops.elem, s, false) == Got((), more) && s != [] && s[0] != ARRAY_END && Count(ops, more) == Got(n, rest)
    ensures Count(ops, s) == Got(n + 1, rest)
  {
  }

  lemma {:induction false} SkipsOver(ops: Ops, v: Value, more: Bytes)
    requires Typed(ops, v) && AllPortable(ops, v)
    ensures var s := Encode(ops, v, false) + more; SkipValue(ops, s, false) == Got((), more) && s != [] && s[0] != ARRAY_END
    decreases v, 2, 0
  {
    RoundTrip(ops, v, false, more);
    SkipsValue(ops, Encode(ops, v, false) + more, false);
    BeginsWell(ops, v);
  }

  lemma BeginsWell(ops: Ops, v: Value)
    requires Typed(ops, v)
    ensures var s := Encode(ops, v, false); s != [] && s[0] != ARRAY_END
  {
  }

  // ----------------------------------------------------------------------- exactly when it holds

  lemma {:induction false} UpToNulIsNulFree(s: Bytes)
    ensures var r := UpToNul(s); r.Got? ==> NulFree(r.value)
  {
    if s != [] && s[0] != 0 { UpToNulIsNulFree(s[1..]); }
  }

  /** Whatever is read has no NUL in its texts. */
  lemma {:induction false} ReadIsPortable(ops: Ops, s: Bytes, top: bool, v: Value)
    requires Forget(Decode(ops, s, top)).Got? && Decode(ops, s, top).value == v && Typed(ops, v)
    ensures AllPortable(ops, v)
    decreases ops, 1, 0
  {
    if ops.Single? {
      UpToNulIsNulFree(s[1..]);
    } else {
      var o := Opening(ops, s, top);
      assert v.vals[0..] == v.vals;
      ReadArePortable(ops, o.rest, 0, |v.vals|, v);
    }
  }

  lemma {:induction false} ReadArePortable(ops: Ops, s: Bytes, i: nat, n: nat, v: Value)
    requires !ops.Single? && Typed(ops, v) && i <= n == |v.vals|
    requires DecodeVals(ops, s, i, n).Got? && DecodeVals(ops, s, i, n).value == v.vals[i..]
    ensures forall j :: i <= j < n ==> AllPortable(Slot(ops, j), v.vals[j])
    decreases ops, 0, n - i
  {
    if i < n {
      var one := Decode(Slot(ops, i), s, false);
      assert [one.value] + DecodeVals(ops, one.rest, i + 1, n).value == v.vals[i..];
      assert one.value == v.vals[i..][0] && v.vals[i..][1..] == v.vals[i + 1..];
      ReadIsPortable(Slot(ops, i), s, false, v.vals[i]);
      ReadArePortable(ops, one.rest, i + 1, n, v);
    }
  }

  /** A value is read back if and only if no text in it has a NUL. */
  lemma RoundTripExactly(ops: Ops, v: Value, top: bool, rest: Bytes)
    requires Typed(ops, v)
    ensures Decode(ops, Encode(ops, v, top) + rest, top) == Got(v, rest) <==> AllPortable(ops, v)
  {
    if AllPortable(ops, v) {
      RoundTrip(ops, v, top, rest);
    } else if Decode(ops, Encode(ops, v, top) + rest, top) == Got(v, rest) {
      ReadIsPortable(ops, Encode(ops, v, top) + rest, top, v);
    }
  }
}

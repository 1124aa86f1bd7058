/** The encoder: an object that appends encodings to a string. */
module Encoder {
  import opened ByteStrings
  import opened WireFormat
  import opened Values

  /** The low bytes of a longer number are the shorter number. */
  lemma {:induction false} LowBytes(v: int, m: nat, n: nat)
    requires n <= m
    ensures BigEndian(v, m)[m - n..] == BigEndian(v, n)
    decreases m
  {
    if n > 0 {
      LowBytes(v / 256, m - 1, n - 1);
      var s := BigEndian(v / 256, m - 1);
      assert (s + [v % 256])[m - n..] == s[m - n..] + [v % 256];
    }
  }

  lemma Opened(data: Bytes, ops: Ops, n: nat, top: bool)
    ensures data + Open(ops, n, top) ==
      if ops.Tuple? && top then data else if ops.Map? then data + ([StartMark(ops)] + WireFormat.PutInt(n)) else data + [StartMark(ops)]
  {
  }

  /** A tag over the byte before the last `n` of 8. */
  lemma TagAt(digits: Bytes, n: nat, tag: byte)
    requires 1 <= n <= 8 == |digits|
    ensures ([0] + digits)[8 - n := tag][8 - n..] == [tag] + digits[8 - n..]
  {
    var k := 8 - n;
    assert ([0] + digits)[k := tag][k..] == [tag] + ([0] + digits)[k + 1..];
    assert ([0] + digits)[k + 1..] == digits[k..];
  }

  /** Where in the 9-byte buffer the tag goes. */
  method FindStart(v: nat) returns (start: nat)
    ensures start == 8 - Width(v)
  {
    start := 0;
    Powers();
    for i := 1 to 7
      invariant start == 0
      invariant forall j :: 1 <= j < i ==> v >= Pow256(j)
    {
      if v < Pow256(i) {
        start := 8 - i;
        assert i > 1 ==> v >= Pow256(i - 1);
        return;
      }
    }
    assert v >= Pow256(6);
  }

  /** `out` and the pending bytes `p[segment..q]` are the escaped first `q` bytes. */
  ghost predicate Pending(out: Bytes, p: Bytes, segment: nat, q: nat) {
    segment <= q <= |p| && out + p[segment..q] == Escaped(p[..q])
  }

  lemma PendingStep(out: Bytes, p: Bytes, segment: nat, q: nat)
    requires Pending(out, p, segment, q) && q < |p|
    ensures if p[q] == BYTES_TERM then Pending(out + p[segment..q] + [BYTES_TERM], p, q, q + 1) else Pending(out, p, segment, q + 1)
  {
    assert p[..q + 1] == p[..q] + [p[q]];
    EscapedConcat(p[..q], [p[q]]);
    assert Escaped([p[q]]) == EscapedByte(p[q]) by { assert [p[q]][1..] == []; }
    if p[q] == BYTES_TERM {
      assert p[q..q + 1] == [BYTES_TERM];
      assert out + p[segment..q] + [BYTES_TERM] + [BYTES_TERM] == Escaped(p[..q]) + [BYTES_TERM, BYTES_TERM];
    } else {
      assert p[segment..q + 1] == p[segment..q] + [p[q]];
      assert out + p[segment..q + 1] == out + p[segment..q] + [p[q]];
    }
  }

  /** Whole segments are copied; each terminator ends a segment and starts the next. */
  method Escape(p: Bytes) returns (out: Bytes)
    ensures out == Escaped(p)
  {
    out := [];
    var segment := 0;
    for q := 0 to |p|
      invariant Pending(out, p, segment, q)
    {
      PendingStep(out, p, segment, q);
      if p[q] == BYTES_TERM {
        out := out + p[segment..q];
        out := out + [BYTES_TERM];
        segment := q;
      }
    }
    assert p[..|p|] == p;
    out := out + p[segment..|p|];
  }

  lemma OneMoreValue(data: Bytes, ops: Ops, v: Value, i: nat)
    requires !ops.Single? && Typed(ops, v) && i < |v.vals|
    ensures data + EncodeFrom(ops, v, i) == data + Encode(Slot(ops, i), v.vals[i], false) + EncodeFrom(ops, v, i + 1)
  {
    FromFirst(ops, v, i);
    Associate(data, Encode(Slot(ops, i), v.vals[i], false), EncodeFrom(ops, v, i + 1));
  }

  class SzlEncoder {
    var data: Bytes

    constructor ()
      ensures data == []
    {
      data := [];
    }

    method PackP8(tagp1: byte, v: nat)
      requires tagp1 <= 240
      modifies this
      ensures data == old(data) + PutUnsigned(tagp1, v)
    {
      var start := FindStart(v);
      var buf: Bytes := [0] + BigEndian(v, 8);
      LowBytes(v, 8, 8 - start);
      TagAt(BigEndian(v, 8), 8 - start, tagp1 + 7 - start);
      buf := buf[start := tagp1 + 7 - start];
      data := data + buf[start..];
    }

    method PackN8(v: int)
      requires v < 0
      modifies this
      ensures data == old(data) + WireFormat.PutInt(v)
    {
      var start := FindStart(-(v + 1));
      var buf: Bytes := [0] + BigEndian(v, 8);
      LowBytes(v, 8, 8 - start);
      TagAt(BigEndian(v, 8), 8 - start, INTN1 - (7 - start));
      buf := buf[start := INTN1 - (7 - start)];
      data := data + buf[start..];
    }

    method PutInt(v: int)
      modifies this
      ensures data == old(data) + WireFormat.PutInt(v)
    {
      if v >= 0 { PackP8(INTP1, v); } else { PackN8(v); }
    }

    method PutBytes(p: Bytes)
      modifies this
      ensures data == old(data) + Put(Bytestring, Str(p))
    {
      data := data + [BYTES];
      var escaped := Escape(p);
      data := data + escaped;
      data := data + [BYTES_TERM, 0];
    }

    method PutString(s: Bytes)
      modifies this
      ensures data == old(data) + Put(Text, Str(s))
    {
      data := data + [STRING];
      data := data + s;
      data := data + [0];
    }

    method PutBase(kind: Kind, v: Base)
      requires Storable(kind, v)
      modifies this
      ensures data == old(data) + Put(kind, v)
    {
      match kind
      case Bool => data := data + [BOOL_FALSE + v.i];
      case Fingerprint => PackP8(FINGERPRINT1, v.i);
      case Time => PackP8(TIME1, v.i);
      case Int => PutInt(v.i);
      case Float => data := data + ([FLOAT] + v.s);
      case Bytestring => PutBytes(v.s);
      case Text => PutString(v.s);
    }

    method PutValue(ops: Ops, v: Value, top: bool)
      requires Typed(ops, v)
      modifies this
      ensures data == old(data) + Encode(ops, v, top)
      decreases v, 1
    {
      if ops.Single? {
        PutBase(ops.kind, v.v);
        return;
      }
      PutOpening(ops, |v.vals|, top);
      PutVals(ops, v);
      if !(ops.Tuple? && top) {
        data := data + [EndMark(ops)];
      }
      Regroup(old(data), Open(ops, |v.vals|, top), EncodeFrom(ops, v, 0), Close(ops, top));
    }

    method PutOpening(ops: Ops, n: nat, top: bool)
      modifies this
      ensures data == old(data) + Open(ops, n, top)
    {
      if !(ops.Tuple? && top) {
        data := data + [StartMark(ops)];
        if ops.Map? { PutInt(n); }
      }
      Associate(old(data), [StartMark(ops)], WireFormat.PutInt(n));
      Opened(old(data), ops, n, top);
    }

    method PutVals(ops: Ops, v: Value)
      requires !ops.Single? && Typed(ops, v)
      modifies this
      ensures data == old(data) + EncodeFrom(ops, v, 0)
      decreases v, 0
    {
      for i := 0 to |v.vals|
        invariant data + EncodeFrom(ops, v, i) == old(data) + EncodeFrom(ops, v, 0)
      {
        OneMoreValue(data, ops, v, i);
        PutValue(Slot(ops, i), v.vals[i], false);
      }
    }
  }
}

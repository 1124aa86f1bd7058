/**
 * The order of encodings. For numbers, text and tuples of them at top level the unsigned order of the
 * encoded bytes is the order of the values, so tables that sort encoded strings sort values; for byte
 * strings it is not, and it is said here exactly when.
 */
module WireOrder {
  import opened ByteStrings
  import opened WireFormat
  import opened Values
  import opened ValueOrder

  // ------------------------------------------------------------------------------- diverging strings

  /** The strings first differ at `i`, where `a` is smaller. Neither is then a prefix of the other. */
  ghost predicate UnderAt(a: Bytes, b: Bytes, i: nat) {
    i < |a| && i < |b| && a[..i] == b[..i] && a[i] < b[i]
  }

  ghost predicate Under(a: Bytes, b: Bytes) {
    exists i :: UnderAt(a, b, i)
  }

  lemma {:induction false} UnderIsLess(a: Bytes, b: Bytes, i: nat)
    requires UnderAt(a, b, i)
    ensures Less(a, b) && !Less(b, a) && !(a <= b) && !(b <= a)
  {
    if i > 0 {
      assert a[..i][0] == b[..i][0];
      assert a[1..][..i - 1] == a[..i][1..] == b[..i][1..] == b[1..][..i - 1];
      UnderIsLess(a[1..], b[1..], i - 1);
    }
  }

  lemma UnderFollowed(a: Bytes, b: Bytes, c: Bytes, d: Bytes)
    requires Under(a, b)
    ensures Under(a + c, b + d)
  {
    var i: nat :| UnderAt(a, b, i);
    assert (a + c)[..i] == a[..i] && (b + d)[..i] == b[..i];
    assert UnderAt(a + c, b + d, i);
  }

  lemma UnderAfter(c: Bytes, a: Bytes, b: Bytes)
    requires Under(a, b)
    ensures Under(c + a, c + b)
  {
    var i: nat :| UnderAt(a, b, i);
    assert (c + a)[..|c| + i] == c + a[..i] && (c + b)[..|c| + i] == c + b[..i];
    assert UnderAt(c + a, c + b, |c| + i);
  }

  lemma UnderFirst(a: Bytes, b: Bytes)
    requires a != [] && b != [] && a[0] < b[0]
    ensures Under(a, b)
  {
    assert UnderAt(a, b, 0);
  }

  // ------------------------------------------------------------------------------------ base values

  /** Big-endian numbers of the same length; `c` is what is above them. */
  lemma {:induction false} BigEndianOrder(u: int, v: int, n: nat, c: int)
    requires u < v && 0 <= u - c * Pow256(n) && v - c * Pow256(n) < Pow256(n)
    ensures Under(BigEndian(u, n), BigEndian(v, n))
    decreases n
  {
    if n > 0 {
      var p := Pow256(n - 1);
      assert c * Pow256(n) == 256 * (c * p);
      if u / 256 < v / 256 {
        BigEndianOrder(u / 256, v / 256, n - 1, c);
        UnderFollowed(BigEndian(u / 256, n - 1), BigEndian(v / 256, n - 1), [u % 256], [v % 256]);
      } else {
        UnderFirst([u % 256], [v % 256]);
        UnderAfter(BigEndian(u / 256, n - 1), [u % 256], [v % 256]);
      }
    }
  }

  lemma WidthGrows(u: nat, v: nat)
    requires u <= v
    ensures Width(u) <= Width(v)
  {
  }

  lemma UnsignedOrder(tag1: byte, u: nat, v: nat)
    requires tag1 <= 240 && u < v < TWO64
    ensures Under(PutUnsigned(tag1, u), PutUnsigned(tag1, v))
  {
    WidthGrows(u, v);
    if Width(u) < Width(v) {
      UnderFirst(PutUnsigned(tag1, u), PutUnsigned(tag1, v));
    } else {
      WidthEnough(v);
      SameWidthOrder(tag1 + Width(v) - 1, u, v, Width(v), 0);
    }
  }

  lemma NegativeOrder(u: int, v: int)
    requires -TWO63 <= u < v < 0
    ensures Under(PutInt(u), PutInt(v))
  {
    WidthGrows(-(v + 1), -(u + 1));
    if Width(-(v + 1)) < Width(-(u + 1)) {
      UnderFirst(PutInt(u), PutInt(v));
    } else {
      WidthEnough(-(u + 1));
      SameWidthOrder(INTN1 - (Width(-(u + 1)) - 1), u, v, Width(-(u + 1)), -1);
    }
  }

  lemma SameWidthOrder(tag: byte, u: int, v: int, n: nat, c: int)
    requires u < v && 0 <= u - c * Pow256(n) && v - c * Pow256(n) < Pow256(n)
    ensures Under([tag] + BigEndian(u, n), [tag] + BigEndian(v, n))
  {
    BigEndianOrder(u, v, n, c);
    UnderAfter([tag], BigEndian(u, n), BigEndian(v, n));
  }

  lemma IntOrder(u: int, v: int)
    requires -TWO63 <= u < v < TWO63
    ensures Under(PutInt(u), PutInt(v))
  {
    if v < 0 { NegativeOrder(u, v); } else if u >= 0 { UnsignedOrder(INTP1, u, v); } else { UnderFirst(PutInt(u), PutInt(v)); }
  }

  /** The first place where `b` goes beyond or above `a`. */
  ghost predicate LessAt(a: Bytes, b: Bytes, i: nat) {
    i <= |a| && i < |b| && a[..i] == b[..i] && (i == |a| || a[i] < b[i])
  }

  lemma {:induction false} LessWhere(a: Bytes, b: Bytes) returns (i: nat)
    requires Less(a, b)
    ensures LessAt(a, b, i)
  {
    i := 0;
    if a != [] && a[0] == b[0] {
      var j := LessWhere(a[1..], b[1..]);
      i := j + 1;
      assert a[..i] == [a[0]] + a[1..][..j] && b[..i] == [b[0]] + b[1..][..j];
    }
  }

  lemma TextOrder(a: Bytes, b: Bytes)
    requires Less(a, b) && NulFree(b)
    ensures Under(Put(Text, Str(a)), Put(Text, Str(b)))
  {
    var i := LessWhere(a, b);
    var s, t := Put(Text, Str(a)), Put(Text, Str(b));
    assert s[..i + 1] == [STRING] + a[..i] && t[..i + 1] == [STRING] + b[..i];
    assert UnderAt(s, t, i + 1);
  }

  // -------------------------------------------------------------------------------- byte strings

  /** What follows the common part in the encoding. */
  lemma EscapedSplit(a: Bytes, i: nat)
    requires i <= |a|
    ensures Put(Bytestring, Str(a)) == [BYTES] + Escaped(a[..i]) + (Escaped(a[i..]) + [BYTES_TERM, 0])
  {
    EscapedConcat(a[..i], a[i..]);
    assert a[..i] + a[i..] == a;
  }

  /** A string that is cut short where the other goes on with a byte below the terminator. */
  ghost predicate CutShort(a: Bytes, b: Bytes) {
    a <= b && |a| < |b| && b[|a|] < BYTES_TERM
  }

  lemma TailsOrder(a: Bytes, b: Bytes)
    requires b != [] && (a == [] || a[0] < b[0])
    ensures var s, t := Escaped(a) + [BYTES_TERM, 0], Escaped(b) + [BYTES_TERM, 0];
      if CutShort(a, b) then Under(t, s) else Under(s, t)
  {
    var s, t := Escaped(a) + [BYTES_TERM, 0], Escaped(b) + [BYTES_TERM, 0];
    assert t[0] == b[0];
    if a != [] {
      assert s[0] == a[0];
      UnderFirst(s, t);
    } else {
      assert s == [BYTES_TERM, 0];
      if b[0] < BYTES_TERM {
        UnderFirst(t, s);
      } else if b[0] > BYTES_TERM {
        UnderFirst(s, t);
      } else {
        assert t[..1] == s[..1] && t[1] == BYTES_TERM;
        assert UnderAt(s, t, 1);
      }
    }
  }

  /** The encodings of byte strings are in order if and only if the smaller is not cut short; else in reverse order. */
  lemma BytesOrder(a: Bytes, b: Bytes)
    requires Less(a, b)
    ensures var s, t := Put(Bytestring, Str(a)), Put(Bytestring, Str(b));
      if CutShort(a, b) then Under(t, s) else Under(s, t)
  {
    var i := LessWhere(a, b);
    EscapedSplit(a, i);
    EscapedSplit(b, i);
    TailsOrder(a[i..], b[i..]);
    var c, s, t := [BYTES] + Escaped(a[..i]), Escaped(a[i..]) + [BYTES_TERM, 0], Escaped(b[i..]) + [BYTES_TERM, 0];
    SameCut(a, b, i);
    if CutShort(a, b) { UnderAfter(c, t, s); } else { UnderAfter(c, s, t); }
  }

  lemma SameCut(a: Bytes, b: Bytes, i: nat)
    requires LessAt(a, b, i)
    ensures CutShort(a, b) <==> CutShort(a[i..], b[i..])
  {
  }

  /** So the encoding does not keep the order of byte strings: an empty one comes after a zero byte. */
  lemma BytesOutOfOrder()
    ensures Less([], [0]) && Less(Put(Bytestring, Str([0])), Put(Bytestring, Str([])))
  {
    BytesOrder([], [0]);
    var i: nat :| UnderAt(Put(Bytestring, Str([0])), Put(Bytestring, Str([])), i);
    UnderIsLess(Put(Bytestring, Str([0])), Put(Bytestring, Str([])), i);
  }

  /** Base types and tuples of them, without byte strings and floats. */
  predicate Sortable(ops: Ops) {
    match ops
    case Single(kind) => kind != Bytestring && kind != Float
    case Tuple(flats) => forall i :: 0 <= i < |flats| ==> flats[i].Single? && flats[i].kind != Bytestring && flats[i].kind != Float
    case _ => false
  }

  // -------------------------------------------------------------------------------- the embedding

  /** The sign of a comparison says how two encodings are ordered, and whether two values are equal. */
  ghost predicate Reflects(c: int, s: Bytes, t: Bytes, same: bool) {
    (c < 0 ==> Under(s, t)) && (c > 0 ==> Under(t, s)) && (c == 0 <==> same) && (same ==> s == t)
  }

  lemma {:induction false} StoredOrder(a: Bytes, b: Bytes)
    requires NulFree(a) && NulFree(b)
    ensures Less(Stored(a), Stored(b)) <==> Less(a, b)
  {
    if a != [] && b != [] && a[0] == b[0] {
      StoredOrder(a[1..], b[1..]);
      assert Stored(a)[1..] == a[1..] + [0] && Stored(b)[1..] == b[1..] + [0];
      if b[1..] == [] { LessIrreflexive([0]); }
    }
  }

  lemma TextReflects(a: Bytes, b: Bytes)
    requires NulFree(a) && NulFree(b)
    ensures Reflects(CmpStr(Stored(a), Stored(b)), Put(Text, Str(a)), Put(Text, Str(b)), a == b)
  {
    CmpStrIsOrder(Stored(a), Stored(b));
    StoredOrder(a, b);
    StoredOrder(b, a);
    StoredSame(a, b);
    if Less(a, b) { TextOrder(a, b); }
    if Less(b, a) { TextOrder(b, a); }
  }

  lemma BaseReflects(kind: Kind, a: Base, b: Base)
    requires Portable(kind, a) && Portable(kind, b) && kind != Bytestring && kind != Float
    ensures Reflects(CmpBase(kind, a, b), Put(kind, a), Put(kind, b), a == b)
  {
    match kind
    case Text => TextReflects(a.s, b.s);
    case _ => NumReflects(kind, a, b); NumReflects(kind, b, a);
  }

  lemma NumReflects(kind: Kind, a: Base, b: Base)
    requires Storable(kind, a) && Storable(kind, b) && kind != Bytestring && kind != Float && kind != Text
    ensures a.i < b.i ==> Under(Put(kind, a), Put(kind, b))
  {
    if a.i < b.i {
      match kind
      case Bool => UnderFirst(Put(kind, a), Put(kind, b));
      case Fingerprint => UnsignedOrder(FINGERPRINT1, a.i, b.i);
      case Time => UnsignedOrder(TIME1, a.i, b.i);
      case Int => IntOrder(a.i, b.i);
    }
  }

  lemma {:induction false} FieldsReflect(ops: Ops, v: Value, w: Value, i: nat)
    requires ops.Tuple? && Sortable(ops) && Typed(ops, v) && Typed(ops, w) && i <= |ops.flats|
    requires AllPortable(ops, v) && AllPortable(ops, w)
    ensures Reflects(CmpFrom(ops, v, w, i), EncodeFrom(ops, v, i), EncodeFrom(ops, w, i), v.vals[i..] == w.vals[i..])
    decreases |ops.flats| - i
  {
    if i < |ops.flats| {
      FieldsReflect(ops, v, w, i + 1);
      assert AllPortable(Slot(ops, i), v.vals[i]) && AllPortable(Slot(ops, i), w.vals[i]);
      FieldReflects(ops, v, w, i);
    }
  }

  lemma FieldReflects(ops: Ops, v: Value, w: Value, i: nat)
    requires ops.Tuple? && Sortable(ops) && Typed(ops, v) && Typed(ops, w) && i < |ops.flats|
    requires AllPortable(Slot(ops, i), v.vals[i]) && AllPortable(Slot(ops, i), w.vals[i])
    requires Reflects(CmpFrom(ops, v, w, i + 1), EncodeFrom(ops, v, i + 1), EncodeFrom(ops, w, i + 1), v.vals[i + 1..] == w.vals[i + 1..])
    ensures Reflects(CmpFrom(ops, v, w, i), EncodeFrom(ops, v, i), EncodeFrom(ops, w, i), v.vals[i..] == w.vals[i..])
  {
    var kind, a, b := ops.flats[i].kind, v.vals[i].v, w.vals[i].v;
    BaseReflects(kind, a, b);
    FieldFirst(ops, v, i);
    FieldFirst(ops, w, i);
    CmpFirst(ops, v, w, i);
    SameFields(v.vals, w.vals, i);
    JoinReflects(CmpBase(kind, a, b), Put(kind, a), Put(kind, b), a == b,
                 CmpFrom(ops, v, w, i + 1), EncodeFrom(ops, v, i + 1), EncodeFrom(ops, w, i + 1), v.vals[i + 1..] == w.vals[i + 1..]);
  }

  lemma FieldFirst(ops: Ops, v: Value, i: nat)
    requires ops.Tuple? && Sortable(ops) && Typed(ops, v) && i < |ops.flats|
    ensures Typed(Slot(ops, i), v.vals[i]) && EncodeFrom(ops, v, i) == Put(ops.flats[i].kind, v.vals[i].v) + EncodeFrom(ops, v, i + 1)
  {
  }

  lemma CmpFirst(ops: Ops, v: Value, w: Value, i: nat)
    requires ops.Tuple? && Sortable(ops) && Typed(ops, v) && Typed(ops, w) && i < |ops.flats|
    ensures Typed(Slot(ops, i), v.vals[i]) && Typed(Slot(ops, i), w.vals[i])
    ensures CmpFrom(ops, v, w, i) ==
      var c := CmpBase(ops.flats[i].kind, v.vals[i].v, w.vals[i].v); if c != 0 then c else CmpFrom(ops, v, w, i + 1)
  {
  }

  lemma SameFields(v: seq<Value>, w: seq<Value>, i: nat)
    requires i < |v| == |w| && v[i].One? && w[i].One?
    ensures v[i..] == w[i..] <==> v[i].v == w[i].v && v[i + 1..] == w[i + 1..]
  {
    assert v[i..] == [v[i]] + v[i + 1..] && w[i..] == [w[i]] + w[i + 1..];
  }

  lemma JoinReflects(c: int, s: Bytes, t: Bytes, same: bool, d: int, s': Bytes, t': Bytes, same': bool)
    requires Reflects(c, s, t, same) && Reflects(d, s', t', same')
    ensures Reflects(if c != 0 then c else d, s + s', t + t', same && same')
  {
    if c < 0 {
      UnderFollowed(s, t, s', t');
    } else if c > 0 {
      UnderFollowed(t, s, t', s');
    } else if d < 0 {
      UnderAfter(s, s', t');
    } else if d > 0 {
      UnderAfter(s, t', s');
    }
  }

  lemma Reflected(ops: Ops, v: Value, w: Value)
    requires Sortable(ops) && Typed(ops, v) && Typed(ops, w) && AllPortable(ops, v) && AllPortable(ops, w)
    ensures Reflects(Cmp(ops, v, w), Encode(ops, v, true), Encode(ops, w, true), v == w)
  {
    if ops.Single? {
      BaseReflects(ops.kind, v.v, w.v);
    } else {
      FieldsReflect(ops, v, w, 0);
      TopTuple(ops, v);
      TopTuple(ops, w);
    }
  }

  lemma TopTuple(ops: Ops, v: Value)
    requires ops.Tuple? && Typed(ops, v)
    ensures Encode(ops, v, true) == EncodeFrom(ops, v, 0) && v.vals[0..] == v.vals
  {
  }

  /**
   * At top level the encodings of numbers, text and tuples of them are ordered as the values are, and no
   * encoding is a prefix of that of another value.
   */
  lemma OrderEmbedding(ops: Ops, v: Value, w: Value)
    requires Sortable(ops) && Typed(ops, v) && Typed(ops, w) && AllPortable(ops, v) && AllPortable(ops, w)
    ensures Less(Encode(ops, v, true), Encode(ops, w, true)) <==> Cmp(ops, v, w) < 0
    ensures Encode(ops, v, true) <= Encode(ops, w, true) <==> v == w
  {
    Reflected(ops, v, w);
    ReflectsOrder(Cmp(ops, v, w), Encode(ops, v, true), Encode(ops, w, true), v == w);
  }

  lemma ReflectsOrder(c: int, s: Bytes, t: Bytes, same: bool)
    requires Reflects(c, s, t, same)
    ensures (Less(s, t) <==> c < 0) && (s <= t <==> same)
  {
    if c < 0 {
      var i: nat :| UnderAt(s, t, i);
      UnderIsLess(s, t, i);
    } else if c > 0 {
      var i: nat :| UnderAt(t, s, i);
      UnderIsLess(t, s, i);
    } else {
      LessIrreflexive(s);
    }
  }
}

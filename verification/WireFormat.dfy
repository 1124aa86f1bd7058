/**
 * The wire format of base values: a tag, then the value. Writers, readers and the reader that skips,
 * as functions on byte strings.
 */
module WireFormat {
  import opened ByteStrings

  const STRING: byte := 6
  const BOOL_FALSE: byte := 8
  const BOOL_TRUE: byte := 9
  const BYTES: byte := 10
  const FINGERPRINT1: byte := 11
  const INTN8: byte := 19
  const INTN1: byte := 26
  const INTP1: byte := 27
  const TIME1: byte := 35
  const ARRAY_START: byte := 43
  const ARRAY_END: byte := 44
  const TUPLE_START: byte := 45
  const TUPLE_END: byte := 46
  const FLOAT: byte := 47
  const MAP_START: byte := 48
  const MAP_END: byte := 49
  const BYTES_TERM: byte := 0x42

  const TWO63 := 0x8000_0000_0000_0000
  const TWO64 := 0x1_0000_0000_0000_0000

  datatype Kind = Bool | Bytestring | Fingerprint | Int | Float | Text | Time

  /** Numbers, floats as the 8 bytes of their sort key, and strings of bytes or characters. */
  datatype Base = Num(i: int) | Str(s: Bytes)

  /** The values that a variable of each kind can hold. */
  predicate Storable(kind: Kind, v: Base) {
    match kind
    case Bool => v.Num? && 0 <= v.i <= 1
    case Fingerprint => v.Num? && 0 <= v.i < TWO64
    case Time => v.Num? && 0 <= v.i < TWO64
    case Int => v.Num? && -TWO63 <= v.i < TWO63
    case Float => v.Str? && |v.s| == 8
    case Bytestring => v.Str?
    case Text => v.Str?
  }

  predicate NulFree(s: Bytes) {
    forall j :: 0 <= j < |s| ==> s[j] != 0
  }

  /** A value that survives the trip: text has no NUL. */
  predicate Portable(kind: Kind, v: Base) {
    Storable(kind, v) && (kind == Text ==> NulFree(v.s))
  }

  // -------------------------------------------------------------------------- big-endian numbers

  function Pow256(n: nat): (p: nat)
    ensures p > 0
  {
    if n == 0 then 1 else 256 * Pow256(n - 1)
  }

  /** The low `n` bytes of `v` in two's complement, most significant first. */
  function BigEndian(v: int, n: nat): (s: Bytes)
    ensures |s| == n
    decreases n
  {
    if n == 0 then [] else BigEndian(v / 256, n - 1) + [v % 256]
  }

  function Number(s: Bytes): (v: nat) {
    if s == [] then 0 else 256 * Number(s[..|s| - 1]) + s[|s| - 1]
  }

  lemma {:induction false} NumberBound(s: Bytes)
    ensures Number(s) < Pow256(|s|)
  {
    if s != [] { NumberBound(s[..|s| - 1]); }
  }

  lemma {:induction false} NumberConcat(a: Bytes, b: Bytes)
    ensures Number(a + b) == Number(a) * Pow256(|b|) + Number(b)
  {
    if b == [] {
      assert a + b == a;
    } else {
      var c := b[..|b| - 1];
      assert (a + b)[..|a + b| - 1] == a + c;
      NumberConcat(a, c);
      assert Number(a) * Pow256(|b|) == 256 * (Number(a) * Pow256(|c|));
    }
  }

  /** Only the low bytes survive. */
  lemma {:induction false} NumberBigEndian(v: int, n: nat, c: int)
    requires 0 <= v - c * Pow256(n) < Pow256(n)
    ensures Number(BigEndian(v, n)) == v - c * Pow256(n)
    decreases n
  {
    if n > 0 {
      var p := Pow256(n - 1);
      assert c * Pow256(n) == 256 * (c * p);
      NumberBigEndian(v / 256, n - 1, c);
      var s := BigEndian(v / 256, n - 1);
      assert (s + [v % 256])[..n - 1] == s;
    }
  }

  /** How many bytes a number needs; never 7. */
  function Width(v: nat): (n: nat)
    ensures 1 <= n <= 8
  {
    if v < 0x100 then 1
    else if v < 0x1_0000 then 2
    else if v < 0x100_0000 then 3
    else if v < 0x1_0000_0000 then 4
    else if v < 0x100_0000_0000 then 5
    else if v < 0x1_0000_0000_0000 then 6
    else 8
  }

  lemma Powers()
    ensures Pow256(0) == 1 && Pow256(1) == 0x100 && Pow256(2) == 0x1_0000 && Pow256(3) == 0x100_0000
    ensures Pow256(4) == 0x1_0000_0000 && Pow256(5) == 0x100_0000_0000 && Pow256(6) == 0x1_0000_0000_0000
    ensures Pow256(7) == 0x100_0000_0000_0000 && Pow256(8) == TWO64
  {
    assert Pow256(1) == 256 * Pow256(0) && Pow256(2) == 256 * Pow256(1) && Pow256(3) == 256 * Pow256(2);
    assert Pow256(4) == 256 * Pow256(3) && Pow256(5) == 256 * Pow256(4) && Pow256(6) == 256 * Pow256(5);
    assert Pow256(7) == 256 * Pow256(6) && Pow256(8) == 256 * Pow256(7);
  }

  lemma WidthEnough(v: nat)
    requires v < TWO64
    ensures v < Pow256(Width(v))
  {
    Powers();
  }

  /** The least number of bytes, of 1 to 6 and 8, that is enough. */
  lemma WidthLeast(v: nat)
    requires v < TWO64
    ensures v < Pow256(Width(v)) && Width(v) != 7
    ensures forall n: nat :: 1 <= n <= 8 && n != 7 && v < Pow256(n) ==> Width(v) <= n
  {
    Powers();
  }

  // ----------------------------------------------------------------------------------- writing

  function PutUnsigned(tag1: byte, v: nat): (s: Bytes)
    requires tag1 <= 240
  {
    [tag1 + Width(v) - 1] + BigEndian(v, Width(v))
  }

  function PutInt(v: int): (s: Bytes) {
    if v >= 0 then PutUnsigned(INTP1, v) else var n := Width(-(v + 1)); [INTN1 - (n - 1)] + BigEndian(v, n)
  }

  function Escaped(s: Bytes): (r: Bytes) {
    if s == [] then [] else EscapedByte(s[0]) + Escaped(s[1..])
  }

  function EscapedByte(b: byte): (r: Bytes) {
    if b == BYTES_TERM then [BYTES_TERM, BYTES_TERM] else [b]
  }

  function Put(kind: Kind, v: Base): (s: Bytes)
    requires Storable(kind, v)
  {
    match kind
    case Bool => [if v.i != 0 then BOOL_TRUE else BOOL_FALSE]
    case Fingerprint => PutUnsigned(FINGERPRINT1, v.i)
    case Time => PutUnsigned(TIME1, v.i)
    case Int => PutInt(v.i)
    case Float => [FLOAT] + v.s
    case Bytestring => [BYTES] + Escaped(v.s) + [BYTES_TERM, 0]
    case Text => [STRING] + v.s + [0]
  }

  // ----------------------------------------------------------------------------------- reading

  datatype Read<T> = Got(value: T, rest: Bytes) | Failed

  /** A tag among eight from `tag1` up, and as many bytes as it says. */
  function GetUnsigned(tag1: byte, s: Bytes): (r: Read<nat>)
    ensures r.Got? ==> |r.rest| < |s|
  {
    if |s| < 1 || s[0] < tag1 || s[0] > tag1 + 7 then Failed
    else
      var k := s[0] - tag1 + 1;
      if |s| < k + 1 then Failed else Got(Number(s[1..k + 1]), s[k + 1..])
  }

  /** A 64-bit pattern as a signed number. */
  function AsSigned(v: nat): (r: int) {
    if v < TWO63 then v else v - TWO64
  }

  /** A tag among eight from `INTN1` down, and as many bytes as it says, extended with ones. */
  function GetNegative(s: Bytes): (r: Read<int>)
    ensures r.Got? ==> |r.rest| < |s|
  {
    if |s| < 1 || s[0] > INTN1 || s[0] < INTN8 then Failed
    else
      var k := INTN1 - s[0] + 1;
      if |s| < k + 1 then Failed
      else Got(if k == 8 then AsSigned(Number(s[1..9])) else Number(s[1..k + 1]) - Pow256(k), s[k + 1..])
  }

  function GetInt(s: Bytes): (r: Read<int>)
    ensures r.Got? ==> |r.rest| < |s|
  {
    var p := GetUnsigned(INTP1, s);
    if p.Got? then Got(AsSigned(p.value), p.rest) else GetNegative(s)
  }

  /** Up to an unescaped terminator. */
  function Unescape(s: Bytes): (r: Read<Bytes>)
    ensures r.Got? ==> |r.rest| < |s|
  {
    if |s| < 2 then Failed
    else if s[0] == BYTES_TERM then
      if s[1] == 0 then Got([], s[2..])
      else if s[1] == BYTES_TERM then Prepend(BYTES_TERM, Unescape(s[2..]))
      else Failed
    else Prepend(s[0], Unescape(s[1..]))
  }

  function Prepend(b: byte, r: Read<Bytes>): (q: Read<Bytes>) {
    if r.Got? then Got([b] + r.value, r.rest) else Failed
  }

  /** Up to a NUL. */
  function UpToNul(s: Bytes): (r: Read<Bytes>)
    ensures r.Got? ==> |r.rest| < |s|
  {
    if s == [] then Failed else if s[0] == 0 then Got([], s[1..]) else Prepend(s[0], UpToNul(s[1..]))
  }

  function GetFloat(s: Bytes): (r: Read<Bytes>)
    ensures r.Got? ==> |r.rest| < |s|
  {
    if |s| < 9 || s[0] != FLOAT then Failed else Got(s[1..9], s[9..])
  }

  function NumRead(r: Read<int>): (q: Read<Base>) {
    if r.Got? then Got(Num(r.value), r.rest) else Failed
  }

  function StrRead(r: Read<Bytes>): (q: Read<Base>) {
    if r.Got? then Got(Str(r.value), r.rest) else Failed
  }

  function Get(kind: Kind, s: Bytes): (r: Read<Base>)
    ensures r.Got? ==> |r.rest| < |s|
  {
    if s == [] then Failed else
    match kind
    case Bool => if s[0] == BOOL_FALSE then Got(Num(0), s[1..]) else if s[0] == BOOL_TRUE then Got(Num(1), s[1..]) else Failed
    case Fingerprint => NumRead(GetUnsigned(FINGERPRINT1, s))
    case Time => NumRead(GetUnsigned(TIME1, s))
    case Int => NumRead(GetInt(s))
    case Float => StrRead(GetFloat(s))
    case Bytestring => if s[0] == BYTES then StrRead(Unescape(s[1..])) else Failed
    case Text => if s[0] == STRING then StrRead(UpToNul(s[1..])) else Failed
  }

  // ------------------------------------------------------------------------- tags and skipping

  datatype Tagged = Value(kind: Kind) | ArrayMark | TupleMark | MapMark | NoKind

  /** The kind of value that a tag announces. */
  function TagKind(tag: byte): (k: Tagged) {
    if tag == STRING then Value(Text)
    else if tag == BOOL_FALSE || tag == BOOL_TRUE then Value(Bool)
    else if tag == BYTES then Value(Bytestring)
    else if FINGERPRINT1 <= tag <= FINGERPRINT1 + 7 then Value(Fingerprint)
    else if INTN8 <= tag <= INTP1 + 7 then Value(Int)
    else if TIME1 <= tag <= TIME1 + 7 then Value(Time)
    else if tag == ARRAY_START || tag == ARRAY_END then ArrayMark
    else if tag == TUPLE_START || tag == TUPLE_END then TupleMark
    else if tag == MAP_START || tag == MAP_END then MapMark
    else if tag == FLOAT then Value(Float)
    else NoKind
  }

  /** How many bytes, at least, an encoding with this tag takes. */
  function TagSize(tag: byte): (n: nat) {
    if FINGERPRINT1 <= tag <= FINGERPRINT1 + 7 then tag - FINGERPRINT1 + 2
    else if INTN8 <= tag <= INTN1 then INTN1 - tag + 2
    else if INTP1 <= tag <= INTP1 + 7 then tag - INTP1 + 2
    else if TIME1 <= tag <= TIME1 + 7 then tag - TIME1 + 2
    else if tag == FLOAT then 9
    else if TagKind(tag) == NoKind then 0
    else 1
  }

  function SkipEscaped(s: Bytes): (r: Read<()>)
    ensures r.Got? ==> |r.rest| < |s|
  {
    if |s| < 2 then Failed
    else if s[0] == BYTES_TERM then
      if s[1] == 0 then Got((), s[2..]) else if s[1] == BYTES_TERM then SkipEscaped(s[2..]) else Failed
    else SkipEscaped(s[1..])
  }

  function SkipToNul(s: Bytes): (r: Read<()>)
    ensures r.Got? ==> |r.rest| < |s|
  {
    if s == [] then Failed else if s[0] == 0 then Got((), s[1..]) else SkipToNul(s[1..])
  }

  /** Skipping goes by the tag alone, but for the kinds that end with a terminator. */
  function Skip(kind: Kind, s: Bytes): (r: Read<()>)
    ensures r.Got? ==> |r.rest| < |s|
  {
    if s == [] || TagKind(s[0]) != Value(kind) || |s| < TagSize(s[0]) then Failed
    else if s[0] == BYTES then SkipEscaped(s[1..])
    else if s[0] == STRING then SkipToNul(s[1..])
    else Got((), s[TagSize(s[0])..])
  }

  function Forget<T>(r: Read<T>): (q: Read<()>) {
    if r.Got? then Got((), r.rest) else Failed
  }

  lemma {:induction false} SkipsEscaped(s: Bytes)
    ensures SkipEscaped(s) == Forget(Unescape(s))
  {
    if |s| >= 2 {
      if s[0] != BYTES_TERM { SkipsEscaped(s[1..]); } else if s[1] == BYTES_TERM { SkipsEscaped(s[2..]); }
    }
  }

  lemma {:induction false} SkipsToNul(s: Bytes)
    ensures SkipToNul(s) == Forget(UpToNul(s))
  {
    if s != [] && s[0] != 0 { SkipsToNul(s[1..]); }
  }

  lemma SkipsInt(s: Bytes)
    requires s != []
    ensures Skip(Int, s) == Forget(GetInt(s))
  {
    if INTP1 <= s[0] <= INTP1 + 7 { assert GetNegative(s).Failed?; }
  }

  lemma SkipsUnsigned(s: Bytes)
    requires s != []
    ensures Skip(Fingerprint, s) == Forget(GetUnsigned(FINGERPRINT1, s)) && Skip(Time, s) == Forget(GetUnsigned(TIME1, s))
  {
  }

  /** On every input, well formed or not, skipping a base value does what reading it does. */
  lemma SkipsBase(kind: Kind, s: Bytes)
    ensures Skip(kind, s) == Forget(Get(kind, s))
  {
    if s != [] {
      match kind
      case Int => SkipsInt(s);
      case Fingerprint => SkipsUnsigned(s);
      case Time => SkipsUnsigned(s);
      case Bytestring => SkipsEscaped(s[1..]);
      case Text => SkipsToNul(s[1..]);
      case _ =>
    }
  }

  /** When the reader goes on to try the older format of a kind. */
  predicate Declines(kind: Kind, s: Bytes)
    requires s != []
  {
    match kind
    case Bytestring => s[0] != BYTES
    case Float => s[0] != FLOAT
    case _ => Get(kind, s).Failed?
  }

  function OldSize(kind: Kind): (n: nat) {
    match kind case Bool => 2 case Bytestring => 5 case Float => 10 case _ => 9
  }

  /** The older formats are never read: the tags they would need are all taken by the newer ones. */
  lemma OldFormatUnreachable(kind: Kind, s: Bytes)
    requires s != [] && kind != Text && Declines(kind, s)
    ensures !(|s| >= OldSize(kind) && TagKind(s[0]) == Value(kind))
  {
    match kind
    case Fingerprint => assert GetUnsigned(FINGERPRINT1, s).Failed?;
    case Time => assert GetUnsigned(TIME1, s).Failed?;
    case Int => assert GetUnsigned(INTP1, s).Failed? && GetNegative(s).Failed?;
    case _ =>
  }

  lemma Associate(a: Bytes, b: Bytes, c: Bytes)
    ensures a + b + c == a + (b + c)
  {
  }

  lemma {:induction false} EscapedConcat(a: Bytes, b: Bytes)
    ensures Escaped(a + b) == Escaped(a) + Escaped(b)
  {
    if a == [] {
      assert a + b == b;
    } else {
      EscapedConcat(a[1..], b);
      assert (a + b)[1..] == a[1..] + b && (a + b)[0] == a[0];
      Associate(EscapedByte(a[0]), Escaped(a[1..]), Escaped(b));
    }
  }

  // -------------------------------------------------------------------------------- round trips

  lemma Tail(tag: byte, s: Bytes, rest: Bytes)
    ensures ([tag] + s + rest)[1..|s| + 1] == s && ([tag] + s + rest)[|s| + 1..] == rest
    ensures ([tag] + s + rest)[1..] == s + rest
  {
  }

  lemma CountedRoundTrip(tag1: byte, digits: Bytes, rest: Bytes)
    requires tag1 <= 240 && 1 <= |digits| <= 8
    ensures GetUnsigned(tag1, [tag1 + |digits| - 1] + digits + rest) == Got(Number(digits), rest)
  {
    var k := |digits|;
    var tag: byte := tag1 + k - 1;
    CountedIs(tag1, tag, k, digits, rest, [tag] + digits + rest);
  }

  lemma CountedIs(tag1: byte, tag: byte, k: nat, digits: Bytes, rest: Bytes, s: Bytes)
    requires k == |digits| && 1 <= k <= 8 && tag == tag1 + k - 1 && s == [tag] + digits + rest
    ensures GetUnsigned(tag1, s) == Got(Number(digits), rest)
  {
    Tail(tag, digits, rest);
    Counted(tag1, s, k, digits, rest);
  }

  lemma Counted(tag1: byte, s: Bytes, k: nat, digits: Bytes, rest: Bytes)
    requires 1 <= k <= 8 && |s| >= k + 1 && s[0] == tag1 + k - 1 && s[1..k + 1] == digits && s[k + 1..] == rest
    ensures GetUnsigned(tag1, s) == Got(Number(digits), rest)
  {
  }

  lemma UnsignedRoundTrip(tag1: byte, v: nat, rest: Bytes)
    requires tag1 <= 240 && v < TWO64
    ensures GetUnsigned(tag1, PutUnsigned(tag1, v) + rest) == Got(v, rest)
  {
    var digits := Digits(v);
    CountedRoundTrip(tag1, digits, rest);
  }

  lemma Digits(v: nat) returns (digits: Bytes)
    requires v < TWO64
    ensures |digits| == Width(v) && digits == BigEndian(v, Width(v)) && Number(digits) == v
  {
    digits := BigEndian(v, Width(v));
    WidthEnough(v);
    NumberBigEndian(v, Width(v), 0);
  }

  lemma NegativeRoundTrip(v: int, rest: Bytes)
    requires -TWO63 <= v < 0
    ensures GetNegative(PutInt(v) + rest) == Got(v, rest)
  {
    var n := Width(-(v + 1));
    WidthEnough(-(v + 1));
    NumberBigEndian(v, n, -1);
    Tail(INTN1 - (n - 1), BigEndian(v, n), rest);
    Powers();
  }

  lemma IntRoundTrip(v: int, rest: Bytes)
    requires -TWO63 <= v < TWO63
    ensures GetInt(PutInt(v) + rest) == Got(v, rest)
  {
    if v >= 0 { UnsignedRoundTrip(INTP1, v, rest); } else { NegativeRoundTrip(v, rest); }
  }

  lemma {:induction false} EscapedRoundTrip(s: Bytes, rest: Bytes)
    ensures Unescape(Escaped(s) + [BYTES_TERM, 0] + rest) == Got(s, rest)
  {
    var t := Escaped(s) + [BYTES_TERM, 0] + rest;
    if s == [] {
      assert t == [BYTES_TERM, 0] + rest;
    } else {
      EscapedRoundTrip(s[1..], rest);
      var u := Escaped(s[1..]) + [BYTES_TERM, 0] + rest;
      if s[0] == BYTES_TERM { assert t == [BYTES_TERM, BYTES_TERM] + u; } else { assert t == [s[0]] + u; }
      assert [s[0]] + s[1..] == s;
    }
  }

  /** Text comes back up to its first NUL. */
  lemma {:induction false} TextRoundTrip(s: Bytes, rest: Bytes)
    ensures UpToNul(s + [0] + rest) == Got(s, rest) <==> NulFree(s)
  {
    var t := s + [0] + rest;
    if s == [] {
      assert t == [0] + rest;
    } else {
      TextRoundTrip(s[1..], rest);
      assert t == [s[0]] + (s[1..] + [0] + rest);
      assert NulFree(s) <==> s[0] != 0 && NulFree(s[1..]) by {
        assert forall j :: 0 < j < |s| ==> s[j] == s[1..][j - 1];
      }
      assert s == [s[0]] + s[1..];
    }
  }

  /** A base value is read back, up to exactly what follows it, if and only if it is not text with a NUL in it. */
  lemma BaseRoundTrip(kind: Kind, v: Base, rest: Bytes)
    requires Storable(kind, v)
    ensures Get(kind, Put(kind, v) + rest) == Got(v, rest) <==> Portable(kind, v)
  {
    match kind
    case Bool => assert (Put(kind, v) + rest)[1..] == rest;
    case Fingerprint => UnsignedRoundTrip(FINGERPRINT1, v.i, rest);
    case Time => UnsignedRoundTrip(TIME1, v.i, rest);
    case Int => IntRoundTrip(v.i, rest);
    case _ => StringRoundTrip(kind, v, rest);
  }

  lemma StringRoundTrip(kind: Kind, v: Base, rest: Bytes)
    requires Storable(kind, v) && (kind.Float? || kind.Bytestring? || kind.Text?)
    ensures Get(kind, Put(kind, v) + rest) == Got(v, rest) <==> Portable(kind, v)
  {
    match kind
    case Float => Tail(FLOAT, v.s, rest);
    case Bytestring =>
      Tagged3(BYTES, Escaped(v.s), [BYTES_TERM, 0], rest);
      EscapedRoundTrip(v.s, rest);
    case Text =>
      Tagged3(STRING, v.s, [0], rest);
      TextRoundTrip(v.s, rest);
  }

  lemma Tagged3(tag: byte, s: Bytes, end: Bytes, rest: Bytes)
    ensures var t := [tag] + s + end + rest; t[0] == tag && t[1..] == s + end + rest
  {
  }
}

/** The decoder: an object with a position in a string, which reads and skips encodings. */
module Decoder {
  import opened ByteStrings
  import opened WireFormat
  import opened Values

  // -------------------------------------------------------------------- numbers in 32-bit halves

  lemma OneMoreDigit(s: Bytes, i: nat)
    requires i < |s|
    ensures Number(s[..i + 1]) == 256 * Number(s[..i]) + s[i]
  {
    assert s[..i + 1][..i] == s[..i];
  }

  const TWO32 := 0x1_0000_0000

  /** Shift in at most four bytes. */
  method Shift4(s: Bytes) returns (t: nat)
    requires |s| <= 4
    ensures t == Number(s)
  {
    t := 0;
    Powers();
    for i := 0 to |s|
      invariant t == Number(s[..i])
    {
      NumberBound(s[..i]);
      SmallPower(i);
      assert t * 256 < TWO32;
      t := (t * 256) % TWO32 + s[i];
      OneMoreDigit(s, i);
    }
    assert s[..|s|] == s;
  }

  lemma SmallPower(i: nat)
    requires i < 4
    ensures 256 * Pow256(i) <= TWO32
  {
    Powers();
  }

  /** Shift at most four bytes into all ones. */
  method ShiftOnes4(s: Bytes) returns (t: nat)
    requires |s| <= 4
    ensures t < TWO32 && t == Ones(s)
  {
    t := TWO32 - 1;
    for i := 0 to |s|
      invariant t < TWO32 && t == Ones(s[..i])
    {
      OnesStep(s, i);
      t := (t * 256) % TWO32 + s[i];
    }
    assert s[..|s|] == s;
  }

  /** The bytes in the low end of 32 bits, with ones above them. */
  function Ones(s: Bytes): (t: int) {
    if |s| == 4 then Number(s) else TWO32 - Pow256(|s|) + Number(s)
  }

  lemma OnesStep(s: Bytes, i: nat)
    requires i < |s| <= 4 && 0 <= Ones(s[..i]) < TWO32
    ensures Ones(s[..i + 1]) == (Ones(s[..i]) * 256) % TWO32 + s[i] < TWO32
  {
    var n, p := Number(s[..i]), Pow256(i);
    OneMoreDigit(s, i);
    NumberBound(s[..i]);
    NumberBound(s[..i + 1]);
    Powers();
    assert Ones(s[..i]) == TWO32 - p + n;
    assert Pow256(i + 1) == 256 * p <= TWO32;
    WrapOnes(n, p, 256 * (TWO32 - p + n));
  }

  lemma WrapOnes(n: nat, p: nat, x: int)
    requires n < p && 256 * p <= TWO32 && x == 256 * (TWO32 - p + n)
    ensures x % TWO32 == if 256 * p == TWO32 then 256 * n else TWO32 - 256 * p + 256 * n
  {
  }

  /** The digits of a number in two halves of at most four bytes. */
  method Join(digits: Bytes) returns (v: nat)
    requires 1 <= |digits| <= 8
    ensures v == Number(digits)
  {
    var k := |digits|;
    var k4 := if k < 4 then k else 4;
    var t1 := Shift4(digits[..k4]);
    if k > 4 {
      var t2 := Shift4(digits[4..]);
      v := t1 * Pow256(k - 4) + t2;
      NumberConcat(digits[..4], digits[4..]);
      assert digits[..4] + digits[4..] == digits;
    } else {
      v := t1;
      assert digits[..k4] == digits;
    }
  }

  /** As above, with ones above the digits in 64 bits. */
  method JoinOnes(digits: Bytes) returns (v: int)
    requires 1 <= |digits| <= 8
    ensures v == if |digits| == 8 then AsSigned(Number(digits)) else Number(digits) - Pow256(|digits|)
  {
    var k := |digits|;
    var k4 := if k < 4 then k else 4;
    var t1 := ShiftOnes4(digits[..k4]);
    NumberBound(digits);
    if k > 4 {
      var t2 := Shift4(digits[4..]);
      var uv := t1 * Pow256(k - 4) + t2;
      NumberConcat(digits[..4], digits[4..]);
      assert digits[..4] + digits[4..] == digits;
      SignExtend(k, uv);
      if k != 8 {
        uv := uv + (TWO64 - Pow256(k));
      }
      v := AsSigned(uv);
    } else {
      v := t1 - TWO32;
      assert digits[..k4] == digits;
      Powers();
    }
  }

  lemma SignExtend(k: nat, uv: nat)
    requires 4 < k <= 8 && uv < Pow256(k)
    ensures k != 8 ==> TWO63 <= uv + (TWO64 - Pow256(k)) < TWO64
    ensures k == 8 ==> uv < TWO64
  {
    Powers();
  }

  // ------------------------------------------------------------------------------ scanning loops

  function PrependAll(a: Bytes, r: Read<Bytes>): (q: Read<Bytes>) {
    if r.Got? then Got(a + r.value, r.rest) else Failed
  }

  /** What remains to be read at `q` completes what has been read. */
  ghost predicate Scanning(goal: Read<Bytes>, v: Bytes, more: Read<Bytes>) {
    goal == PrependAll(v, more)
  }

  lemma ScanMore(goal: Read<Bytes>, v: Bytes, b: byte, more: Read<Bytes>)
    requires Scanning(goal, v, Prepend(b, more))
    ensures Scanning(goal, v + [b], more)
  {
    if more.Got? { assert v + ([b] + more.value) == v + [b] + more.value; }
  }

  lemma ScanStarts(goal: Read<Bytes>)
    ensures Scanning(goal, [], goal)
  {
    if goal.Got? { assert [] + goal.value == goal.value; }
  }

  lemma ScanEnds(goal: Read<Bytes>, v: Bytes, rest: Bytes)
    requires Scanning(goal, v, Got([], rest))
    ensures goal == Got(v, rest)
  {
    assert v + [] == v;
  }

  /** The loop of `GetBytes`: segments between escaped terminators are copied whole. */
  method ScanEscaped(data: Bytes, from: nat) returns (ok: bool, v: Bytes, next: nat)
    requires from <= |data|
    ensures if ok then next <= |data| && Unescape(data[from..]) == Got(v, data[next..]) else Unescape(data[from..]).Failed?
  {
    v, next := [], from;
    var segment, q := from, from;
    ghost var goal := Unescape(data[from..]);
    ScanStarts(goal);
    assert v + data[segment..q] == [];
    while true
      invariant from <= segment <= q <= |data|
      invariant Scanning(goal, v + data[segment..q], Unescape(data[q..]))
      decreases |data| - q
    {
      if q + 1 >= |data| {
        return false, v, next;
      }
      if data[q] == BYTES_TERM {
        v := v + data[segment..q];
        if data[q + 1] == 0 {
          assert data[q..][2..] == data[q + 2..];
          ScanEnds(goal, v, data[q + 2..]);
          return true, v, q + 2;
        }
        if data[q + 1] != BYTES_TERM {
          return false, v, next;
        }
        assert data[q..][2..] == data[q + 2..];
        ScanMore(goal, v, BYTES_TERM, Unescape(data[q + 2..]));
        segment := q + 1;
        q := q + 2;
        assert data[segment..q] == [BYTES_TERM];
      } else {
        assert data[q..][1..] == data[q + 1..];
        ScanMore(goal, v + data[segment..q], data[q], Unescape(data[q + 1..]));
        assert v + data[segment..q + 1] == v + data[segment..q] + [data[q]];
        q := q + 1;
      }
    }
  }

  /** The loop of `GetString`. */
  method ScanToNul(data: Bytes, from: nat) returns (ok: bool, v: Bytes, next: nat)
    requires from <= |data|
    ensures if ok then next <= |data| && UpToNul(data[from..]) == Got(v, data[next..]) else UpToNul(data[from..]).Failed?
  {
    var q := from;
    ghost var goal := UpToNul(data[from..]);
    ScanStarts(goal);
    assert data[from..q] == [];
    while q < |data| && data[q] != 0
      invariant from <= q <= |data|
      invariant Scanning(goal, data[from..q], UpToNul(data[q..]))
    {
      assert data[q..][1..] == data[q + 1..];
      ScanMore(goal, data[from..q], data[q], UpToNul(data[q + 1..]));
      assert data[from..q + 1] == data[from..q] + [data[q]];
      q := q + 1;
    }
    if q >= |data| {
      return false, [], from;
    }
    assert data[q..][1..] == data[q + 1..];
    ScanEnds(goal, data[from..q], data[q + 1..]);
    ok, v, next := true, data[from..q], q + 1;
  }

  method PassEscaped(data: Bytes, from: nat) returns (ok: bool, next: nat)
    requires from <= |data|
    ensures if ok then next <= |data| && SkipEscaped(data[from..]) == Got((), data[next..]) else SkipEscaped(data[from..]).Failed?
  {
    var q := from;
    while true
      invariant from <= q <= |data| && SkipEscaped(data[from..]) == SkipEscaped(data[q..])
      decreases |data| - q
    {
      if q + 1 >= |data| {
        return false, from;
      }
      assert data[q..][1..] == data[q + 1..] && data[q..][2..] == data[q + 2..];
      if data[q] == BYTES_TERM {
        q := q + 1;
        if data[q] == 0 {
          return true, q + 1;
        }
        if data[q] != BYTES_TERM {
          return false, from;
        }
      }
      q := q + 1;
    }
  }

  method PassToNul(data: Bytes, from: nat) returns (ok: bool, next: nat)
    requires from <= |data|
    ensures if ok then next <= |data| && SkipToNul(data[from..]) == Got((), data[next..]) else SkipToNul(data[from..]).Failed?
  {
    var q := from;
    while q < |data| && data[q] != 0
      invariant from <= q <= |data| && SkipToNul(data[from..]) == SkipToNul(data[q..])
    {
      assert data[q..][1..] == data[q + 1..];
      q := q + 1;
    }
    if q >= |data| {
      return false, from;
    }
    assert data[q..][1..] == data[q + 1..];
    ok, next := true, q + 1;
  }

  // --------------------------------------------------------------------------------- the decoder

  /** What a method of the decoder reports, and leaves to be read, is what the function says. */
  ghost predicate Agrees<T(!new)>(r: Read<T>, ok: bool, v: T, rest: Bytes) {
    if ok then r == Got(v, rest) else r.Failed?
  }

  class SzlDecoder {
    const data: Bytes
    var p: nat

    ghost predicate Valid() reads this {
      p <= |data|
    }

    ghost function Rest(): (s: Bytes)
      requires Valid()
      reads this
    {
      data[p..]
    }

    constructor (data: Bytes)
      ensures Valid() && this.data == data && Rest() == data
    {
      this.data := data;
      p := 0;
    }

    method Unpack(tag1: byte) returns (ok: bool, v: nat)
      requires Valid()
      modifies this
      ensures Valid() && Agrees(GetUnsigned(tag1, old(Rest())), ok, v, Rest())
      ensures !ok ==> p == old(p)
    {
      v := 0;
      if |data| - p < 1 || data[p] < tag1 || data[p] > tag1 + 7 {
        return false, v;
      }
      var k := data[p] - (tag1 - 1);
      if |data| - p < k + 1 {
        return false, v;
      }
      v := Join(data[p + 1..p + 1 + k]);
      assert data[p..][1..k + 1] == data[p + 1..p + 1 + k] && data[p..][k + 1..] == data[p + 1 + k..];
      p := p + (k + 1);
      ok := true;
    }

    method UnpackN8() returns (ok: bool, v: int)
      requires Valid()
      modifies this
      ensures Valid() && Agrees(GetNegative(old(Rest())), ok, v, Rest())
      ensures !ok ==> p == old(p)
    {
      v := 0;
      if |data| - p < 1 || data[p] > INTN1 || data[p] < INTN1 - 7 {
        return false, v;
      }
      var k := (INTN1 - data[p]) + 1;
      if |data| - p < k + 1 {
        return false, v;
      }
      v := JoinOnes(data[p + 1..p + 1 + k]);
      assert data[p..][1..k + 1] == data[p + 1..p + 1 + k] && data[p..][k + 1..] == data[p + 1 + k..];
      p := p + (k + 1);
      ok := true;
    }

    method GetInt() returns (ok: bool, v: int)
      requires Valid()
      modifies this
      ensures Valid() && Agrees(WireFormat.GetInt(old(Rest())), ok, v, Rest())
      ensures !ok ==> p == old(p)
    {
      var u;
      ok, u := Unpack(INTP1);
      if ok {
        v := AsSigned(u);
      } else {
        ok, v := UnpackN8();
      }
    }

    method GetBase(kind: Kind) returns (ok: bool, v: Base)
      requires Valid()
      modifies this
      ensures Valid() && Agrees(Get(kind, old(Rest())), ok, v, Rest())
    {
      v := Num(0);
      if p == |data| {
        return false, v;
      }
      match kind
      case Bool =>
        ok := data[p] == BOOL_FALSE || data[p] == BOOL_TRUE;
        if ok {
          v := Num(data[p] - BOOL_FALSE);
          p := p + 1;
        }
      case Fingerprint =>
        var u;
        ok, u := Unpack(FINGERPRINT1);
        v := Num(u);
      case Time =>
        var u;
        ok, u := Unpack(TIME1);
        v := Num(u);
      case Int =>
        var i;
        ok, i := GetInt();
        v := Num(i);
      case _ => ok, v := GetStr(kind);
    }

    method GetStr(kind: Kind) returns (ok: bool, v: Base)
      requires Valid() && p < |data| && (kind.Float? || kind.Bytestring? || kind.Text?)
      modifies this
      ensures Valid() && Agrees(Get(kind, old(Rest())), ok, v, Rest())
    {
      var s, next := [], p;
      ok := false;
      assert data[p..][1..] == data[p + 1..];
      match kind {
      case Float =>
        if data[p] == FLOAT && |data| - p >= 9 {
          ok, s, next := true, data[p + 1..p + 9], p + 9;
          assert data[p..][1..9] == s && data[p..][9..] == data[next..];
        }
      case Bytestring =>
        if data[p] == BYTES { ok, s, next := ScanEscaped(data, p + 1); }
      case Text =>
        if data[p] == STRING { ok, s, next := ScanToNul(data, p + 1); }
      }
      if ok { p := next; }
      v := Str(s);
    }

    method SkipBase(kind: Kind) returns (ok: bool)
      requires Valid()
      modifies this
      ensures Valid() && Agrees(Skip(kind, old(Rest())), ok, (), Rest())
      ensures ok ==> p > old(p)
    {
      if p == |data| || TagKind(data[p]) != Value(kind) || |data| - p < TagSize(data[p]) {
        return false;
      }
      var next := p + TagSize(data[p]);
      assert data[p..][1..] == data[p + 1..] && data[p..][TagSize(data[p])..] == data[next..];
      ok := true;
      if data[p] == BYTES {
        ok, next := PassEscaped(data, p + 1);
      } else if data[p] == STRING {
        ok, next := PassToNul(data, p + 1);
      }
      if ok {
        p := next;
      }
    }

    /** The start mark, and for a map its length. */
    method GetOpening(ops: Ops, top: bool) returns (ok: bool, len: int)
      requires Valid() && !ops.Single?
      modifies this
      ensures Valid() && Agrees(Opening(ops, old(Rest()), top), ok, len, Rest())
    {
      len := 0;
      if ops.Tuple? && top {
        return true, len;
      }
      if p == |data| || data[p] != StartMark(ops) {
        return false, len;
      }
      assert data[p..][1..] == data[p + 1..];
      p := p + 1;
      ok := true;
      if ops.Map? {
        ok, len := GetInt();
      }
    }

    method GetClosing(ops: Ops, top: bool) returns (ok: bool)
      requires Valid()
      modifies this
      ensures Valid() && Agrees(Closing(ops, old(Rest()), top), ok, (), Rest())
    {
      if ops.Tuple? && top {
        return true;
      }
      if p == |data| || data[p] != EndMark(ops) {
        return false;
      }
      assert data[p..][1..] == data[p + 1..];
      p := p + 1;
      ok := true;
    }

    /** Go past array elements, up to the end mark or the end of input. */
    method PassElements(ops: Ops) returns (ok: bool, n: nat)
      requires Valid() && ops.Array?
      modifies this
      ensures Valid() && Agrees(Count(ops, old(Rest())), ok, n, Rest())
      decreases ops, 0
    {
      n := 0;
      ghost var goal := Count(ops, Rest());
      while p < |data| && data[p] != ARRAY_END
        invariant Valid() && Counting(goal, n, Count(ops, Rest()))
        decreases |data| - p
      {
        ghost var before := Rest();
        ok := PassValue(ops.elem, false);
        CountStep(ops, before, goal, n);
        if !ok {
          return;
        }
        n := n + 1;
      }
      ok := true;
    }

    method PassVals(ops: Ops, n: nat) returns (ok: bool)
      requires Valid() && !ops.Single? && (ops.Tuple? ==> n <= |ops.flats|)
      modifies this
      ensures Valid() && Agrees(SkipVals(ops, old(Rest()), 0, n), ok, (), Rest())
      decreases ops, 0
    {
      for i := 0 to n
        invariant Valid() && SkipVals(ops, Rest(), i, n) == SkipVals(ops, old(Rest()), 0, n)
      {
        ok := PassValue(Slot(ops, i), false);
        if !ok {
          return;
        }
      }
      ok := true;
    }

    method PassValue(ops: Ops, top: bool) returns (ok: bool)
      requires Valid()
      modifies this
      ensures Valid() && Agrees(SkipValue(ops, old(Rest()), top), ok, (), Rest())
      decreases ops, 2
    {
      if ops.Single? {
        ok := SkipBase(ops.kind);
        return;
      }
      var len;
      ok, len := GetOpening(ops, top);
      if !ok {
        return;
      }
      ok := PassBody(ops, len);
      if ok {
        ok := GetClosing(ops, top);
      }
    }

    method PassBody(ops: Ops, len: int) returns (ok: bool)
      requires Valid() && !ops.Single?
      modifies this
      ensures Valid()
      ensures Agrees(if ops.Array? then Forget(Count(ops, old(Rest()))) else SkipVals(ops, old(Rest()), 0, Announced(ops, len)), ok, (), Rest())
      decreases ops, 1
    {
      if ops.Array? {
        var n;
        ok, n := PassElements(ops);
      } else {
        ok := PassVals(ops, Announced(ops, len));
      }
    }

    /** How many values to read: arrays are counted by a decoder of their own. */
    method HowMany(ops: Ops, len: int) returns (ok: bool, n: nat)
      requires Valid() && !ops.Single?
      ensures var r := if ops.Array? then Count(ops, Rest()) else Got(Announced(ops, len), Rest());
        if ok then r.Got? && r.value == n else r.Failed?
    {
      if ops.Array? {
        var dec2 := new SzlDecoder(data[p..]);
        ok, n := dec2.PassElements(ops);
      } else {
        ok, n := true, Announced(ops, len);
      }
    }

    method GetVals(ops: Ops, n: nat) returns (ok: bool, vals: seq<Value>)
      requires Valid() && !ops.Single? && (ops.Tuple? ==> n <= |ops.flats|)
      modifies this
      ensures Valid() && Agrees(DecodeVals(ops, old(Rest()), 0, n), ok, vals, Rest())
      decreases ops, 0
    {
      vals := [];
      ReadStarts(DecodeVals(ops, Rest(), 0, n));
      for i := 0 to n
        invariant Valid() && |vals| == i
        invariant Reading(DecodeVals(ops, old(Rest()), 0, n), vals, DecodeVals(ops, Rest(), i, n))
      {
        ghost var before := Rest();
        var v;
        ok, v := GetValue(Slot(ops, i), false);
        if !ok {
          return;
        }
        ReadMore(DecodeVals(ops, old(Rest()), 0, n), vals, v, DecodeVals(ops, Rest(), i + 1, n));
        vals := vals + [v];
      }
      ok := true;
      assert vals + [] == vals;
    }

    method GetValue(ops: Ops, top: bool) returns (ok: bool, v: Value)
      requires Valid()
      modifies this
      ensures Valid() && Agrees(Decode(ops, old(Rest()), top), ok, v, Rest())
      decreases ops, 1
    {
      v := Vals([]);
      if ops.Single? {
        var b;
        ok, b := GetBase(ops.kind);
        v := One(b);
        return;
      }
      var len, n, vals;
      ok, len := GetOpening(ops, top);
      if !ok {
        return;
      }
      ok, n := HowMany(ops, len);
      if !ok {
        return;
      }
      ok, vals := GetVals(ops, n);
      if ok {
        v := Vals(vals);
        ok := GetClosing(ops, top);
      }
    }
  }

  /** `n` elements have been passed, and `more` are counted from here on. */
  ghost predicate Counting(goal: Read<nat>, n: nat, more: Read<nat>) {
    goal == if more.Got? then Got(n + more.value, more.rest) else Failed
  }

  lemma CountStep(ops: Ops, s: Bytes, goal: Read<nat>, n: nat)
    requires ops.Array? && s != [] && s[0] != ARRAY_END && Counting(goal, n, Count(ops, s))
    ensures var one := SkipValue(ops.elem, s, false);
      if one.Got? then Counting(goal, n + 1, Count(ops, one.rest)) && |one.rest| < |s| else goal.Failed?
  {
  }

  function PrependVals(a: seq<Value>, r: Read<seq<Value>>): (q: Read<seq<Value>>) {
    if r.Got? then Got(a + r.value, r.rest) else Failed
  }

  ghost predicate Reading(goal: Read<seq<Value>>, vals: seq<Value>, more: Read<seq<Value>>) {
    goal == PrependVals(vals, more)
  }

  lemma ReadStarts(goal: Read<seq<Value>>)
    ensures Reading(goal, [], goal)
  {
    if goal.Got? { assert [] + goal.value == goal.value; }
  }

  lemma ReadMore(goal: Read<seq<Value>>, vals: seq<Value>, v: Value, more: Read<seq<Value>>)
    requires Reading(goal, vals, PrependVals([v], more))
    ensures Reading(goal, vals + [v], more)
  {
    if more.Got? { assert vals + ([v] + more.value) == vals + [v] + more.value; }
  }
}

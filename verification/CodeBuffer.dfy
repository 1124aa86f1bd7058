/** The code buffer: a byte array that doubles when it is full, and the layout of instructions in it. */
module CodeBuffer {
  import opened Sealing
  import opened ByteStrings
  import opened Bytecode

  // -------------------------------------------------------------------------------- branch offsets

  const OFFSET_SIZE := 4

  /** The bytes of a 32-bit number in two's complement, least significant first. */
  function Int32(v: int): (s: Bytes)
    ensures |s| == OFFSET_SIZE
  {
    [v % 0x100, v / 0x100 % 0x100, v / 0x1_0000 % 0x100, v / 0x100_0000 % 0x100]
  }

  function AsInt32(s: Bytes): (v: int)
    requires |s| == OFFSET_SIZE
  {
    var a: int, b: int, c: int, d: int := s[0], s[1], s[2], s[3];
    var u := a + 0x100 * b + 0x1_0000 * c + 0x100_0000 * d;
    if u < 0x8000_0000 then u else u - 0x1_0000_0000
  }

  lemma Int32RoundTrip(v: int)
    requires -0x8000_0000 <= v < 0x8000_0000
    ensures AsInt32(Int32(v)) == v
  {
    var a, b, c := v / 0x100, v / 0x1_0000, v / 0x100_0000;
    assert b == a / 0x100 && c == b / 0x100;
    assert v == v % 0x100 + 0x100 * a && a == a % 0x100 + 0x100 * b && b == b % 0x100 + 0x100 * c;
  }

  // ------------------------------------------------------------------------------------ layout

  /** The bytes of an instruction, other than the offset of a branch: any fixed function. */
  type Encoding = Instr -> Bytes

  ghost predicate Proper(enc: Encoding) {
    forall i :: 1 <= |enc(i)| <= 16
  }

  function Size(enc: Encoding, i: Instr): (n: nat) {
    |enc(i)| + if i.Jump? then OFFSET_SIZE else 0
  }

  /** Where instruction `k` begins. */
  function Offset(enc: Encoding, code: seq<Instr>, k: nat): (n: nat)
    requires k <= |code|
  {
    if k == 0 then 0 else Offset(enc, code, k - 1) + Size(enc, code[k - 1])
  }

  function One(enc: Encoding, i: Instr, v: int): (s: Bytes) {
    enc(i) + if i.Jump? then Int32(v) else []
  }

  /** The bytes of a piece of code, with the offsets that its branches hold. */
  function Flat(enc: Encoding, code: seq<Instr>, stored: seq<int>): (s: Bytes)
    requires |stored| == |code|
  {
    if code == [] then []
    else Flat(enc, code[..|code| - 1], stored[..|code| - 1]) + One(enc, code[|code| - 1], stored[|code| - 1])
  }

  lemma {:induction false} OffsetPrefix(enc: Encoding, code: seq<Instr>, more: seq<Instr>, k: nat)
    requires k <= |code|
    ensures Offset(enc, code + more, k) == Offset(enc, code, k)
  {
    if k > 0 { OffsetPrefix(enc, code, more, k - 1); }
  }

  lemma {:induction false} FlatLength(enc: Encoding, code: seq<Instr>, stored: seq<int>)
    requires |stored| == |code|
    ensures |Flat(enc, code, stored)| == Offset(enc, code, |code|)
  {
    if code != [] {
      var init := code[..|code| - 1];
      FlatLength(enc, init, stored[..|code| - 1]);
      OffsetPrefix(enc, init, [code[|code| - 1]], |init|);
      assert init + [code[|code| - 1]] == code;
    }
  }

  lemma FlatAppend(enc: Encoding, code: seq<Instr>, stored: seq<int>, i: Instr, v: int)
    requires |stored| == |code|
    ensures Flat(enc, code + [i], stored + [v]) == Flat(enc, code, stored) + One(enc, i, v)
  {
    assert (code + [i])[..|code|] == code && (stored + [v])[..|stored|] == stored;
  }

  /** `b` written over `s` from `at` on. */
  function Replace(s: Bytes, at: nat, b: Bytes): (r: Bytes)
    requires at + |b| <= |s|
    ensures |r| == |s|
    ensures forall k :: 0 <= k < |s| ==> r[k] == if at <= k < at + |b| then b[k - at] else s[k]
  {
    s[..at] + b + s[at + |b|..]
  }

  lemma ReplaceBefore(s: Bytes, t: Bytes, at: nat, b: Bytes)
    requires at + |b| <= |s|
    ensures Replace(s + t, at, b) == Replace(s, at, b) + t
  {
  }

  lemma ReplaceLast(s: Bytes, op: Bytes, was: Bytes, b: Bytes)
    requires |was| == |b|
    ensures Replace(s + (op + was), |s| + |op|, b) == s + (op + b)
  {
  }

  function OperandAt(enc: Encoding, code: seq<Instr>, k: nat): (n: nat)
    requires k < |code|
  {
    Offset(enc, code, k) + |enc(code[k])|
  }

  lemma {:induction false} OffsetGrows(enc: Encoding, code: seq<Instr>, j: nat, k: nat)
    requires j <= k <= |code|
    ensures Offset(enc, code, j) <= Offset(enc, code, k)
    decreases k - j
  {
    if j < k { OffsetGrows(enc, code, j, k - 1); }
  }

  lemma OperandLast(enc: Encoding, init: seq<Instr>, sinit: seq<int>, i: Instr)
    requires |sinit| == |init|
    ensures OperandAt(enc, init + [i], |init|) == |Flat(enc, init, sinit)| + |enc(i)|
  {
    FlatLength(enc, init, sinit);
    OffsetPrefix(enc, init, [i], |init|);
  }

  lemma OperandBefore(enc: Encoding, init: seq<Instr>, i: Instr, k: nat)
    requires k < |init|
    ensures OperandAt(enc, init + [i], k) == OperandAt(enc, init, k)
  {
    OffsetPrefix(enc, init, [i], k);
  }

  /** Writing over the operand of one branch changes what that branch holds, and nothing else. */
  lemma {:induction false} FlatPatch(enc: Encoding, code: seq<Instr>, stored: seq<int>, k: nat, v: int)
    requires |stored| == |code| && k < |code| && code[k].Jump?
    ensures OperandAt(enc, code, k) + OFFSET_SIZE <= |Flat(enc, code, stored)|
    ensures Flat(enc, code, stored[k := v]) == Replace(Flat(enc, code, stored), OperandAt(enc, code, k), Int32(v))
  {
    var n := |code| - 1;
    var init, sinit, i, w := code[..n], stored[..n], code[n], stored[n];
    assert code == init + [i] && stored == sinit + [w];
    if k < n {
      FlatPatch(enc, init, sinit, k, v);
      PatchBefore(enc, init, sinit, i, w, k, v);
      assert stored[k := v] == sinit[k := v] + [w];
    } else {
      PatchLast(enc, init, sinit, i, w, v);
      assert stored[k := v] == sinit + [v];
    }
  }

  lemma PatchBefore(enc: Encoding, init: seq<Instr>, sinit: seq<int>, i: Instr, w: int, k: nat, v: int)
    requires |sinit| == |init| && k < |init| && OperandAt(enc, init, k) + OFFSET_SIZE <= |Flat(enc, init, sinit)|
    requires Flat(enc, init, sinit[k := v]) == Replace(Flat(enc, init, sinit), OperandAt(enc, init, k), Int32(v))
    ensures OperandAt(enc, init + [i], k) + OFFSET_SIZE <= |Flat(enc, init + [i], sinit + [w])|
    ensures Flat(enc, init + [i], sinit[k := v] + [w]) == Replace(Flat(enc, init + [i], sinit + [w]), OperandAt(enc, init + [i], k), Int32(v))
  {
    FlatAppend(enc, init, sinit, i, w);
    FlatAppend(enc, init, sinit[k := v], i, w);
    OperandBefore(enc, init, i, k);
    ReplaceBefore(Flat(enc, init, sinit), One(enc, i, w), OperandAt(enc, init, k), Int32(v));
  }

  lemma PatchLast(enc: Encoding, init: seq<Instr>, sinit: seq<int>, i: Instr, w: int, v: int)
    requires |sinit| == |init| && i.Jump?
    ensures OperandAt(enc, init + [i], |init|) + OFFSET_SIZE <= |Flat(enc, init + [i], sinit + [w])|
    ensures Flat(enc, init + [i], sinit + [v]) == Replace(Flat(enc, init + [i], sinit + [w]), OperandAt(enc, init + [i], |init|), Int32(v))
  {
    FlatAppend(enc, init, sinit, i, w);
    FlatAppend(enc, init, sinit, i, v);
    OperandLast(enc, init, sinit, i);
    ReplaceLast(Flat(enc, init, sinit), enc(i), Int32(w), Int32(v));
  }

  // ------------------------------------------------------------------------------------ the buffer

  /** Room past the limit, so that what begins before the limit always fits. */
  const EXTRA := 32
  const FIRST := 32 * 1024

  class Buffer {
    var bytes: array<byte>
    var limit: nat
    var pos: nat
    /** What has been emitted. */
    ghost var contents: Bytes

    ghost predicate Sound() reads this, bytes {
      && (if limit == 0 then pos == 0 else limit >= FIRST && bytes.Length == limit + EXTRA && pos <= bytes.Length)
      && contents == (if limit == 0 then [] else bytes[..pos])
    }

    /** What users of a buffer need not know is kept behind a trigger. */
    ghost predicate Valid() reads this, bytes {
      pos == |contents| && forall k {:trigger Key(StorageFacts, k)} :: Key(StorageFacts, k) ==> Sound()
    }

    constructor ()
      ensures Valid() && contents == [] && fresh(bytes)
    {
      bytes := new byte[0];
      limit, pos, contents := 0, 0, [];
    }

    /** Twice the size, or a first size; what has been emitted is copied. */
    method MakeSpace()
      requires Valid() && pos >= limit
      modifies this`bytes, this`limit
      ensures Valid() && fresh(bytes) && pos < limit
      ensures limit == (if old(limit) == 0 then FIRST else 2 * old(limit)) && bytes.Length == limit + EXTRA
      ensures bytes[..pos] == contents
    {
      assert Key(StorageFacts, 0);
      var size := 2 * limit;
      if size == 0 {
        size := FIRST;
      }
      var old_bytes, n := bytes, pos;
      var larger := new byte[size + EXTRA](_ => 0);
      for i := 0 to n
        invariant forall k :: 0 <= k < i ==> larger[k] == old_bytes[k]
      {
        larger[i] := old_bytes[i];
      }
      bytes, limit := larger, size;
      assert larger[..n] == contents;
    }

    /** Append a piece of code. */
    method Put(b: Bytes)
      requires Valid() && |b| <= EXTRA
      modifies this, bytes
      ensures Valid() && contents == old(contents) + b && pos == old(pos) + |b| && (bytes == old(bytes) || fresh(bytes))
    {
      assert Key(StorageFacts, 0);
      if pos >= limit {
        MakeSpace();
      }
      Write(pos, b);
      pos := pos + |b|;
      assert bytes[..pos] == contents + b;
      contents := contents + b;
    }

    /** Append a branch: its opcode, and the offset to the target if that is known, or 0. */
    method PutBranch(op: Bytes, target: int) returns (f: nat, offs: int)
      requires Valid() && |op| <= EXTRA
      modifies this, bytes
      ensures Valid() && (bytes == old(bytes) || fresh(bytes))
      ensures f == |old(contents)| + |op| && offs == (if target >= 0 then target - f - OFFSET_SIZE else 0)
      ensures contents == old(contents) + op + Int32(offs)
    {
      Put(op);
      f := pos;
      offs := if target >= 0 then target - f - OFFSET_SIZE else 0;
      Put(Int32(offs));
    }

    method Write(at: nat, b: Bytes)
      requires at + |b| <= bytes.Length
      modifies bytes
      ensures forall k :: 0 <= k < bytes.Length ==> bytes[k] == if at <= k < at + |b| then b[k - at] else old(bytes[k])
    {
      for i := 0 to |b|
        invariant forall k :: 0 <= k < bytes.Length ==> bytes[k] == if at <= k < at + i then b[k - at] else old(bytes[k])
      {
        bytes[at + i] := b[i];
      }
    }

    method Emitted() returns (s: Bytes)
      requires Valid()
      ensures s == contents
    {
      assert Key(StorageFacts, 0);
      s := if limit == 0 then [] else bytes[..pos];
    }

    /** Write over code that has been emitted. */
    method Patch(at: nat, b: Bytes)
      requires Valid() && at + |b| <= |contents|
      modifies bytes, this`contents
      ensures Valid() && contents == Replace(old(contents), at, b)
    {
      assert Key(StorageFacts, 0);
      Write(at, b);
      contents := Replace(contents, at, b);
    }
  }
}

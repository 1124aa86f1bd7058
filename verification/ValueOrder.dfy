/**
 * The order of values of any type: numbers and strings by value, tuples by their first difference, arrays
 * and maps likewise with a proper prefix first. It is a total order in which only equal values are equal.
 */
module ValueOrder {
  import opened ByteStrings
  import opened WireFormat
  import opened Values

  // ------------------------------------------------------------------------------------- base values

  function CmpNum(a: int, b: int): (c: int) {
    if a < b then -1 else if a > b then 1 else 0
  }

  function Memcmp(a: Bytes, b: Bytes, n: nat): (c: int)
    requires n <= |a| && n <= |b|
  {
    if n == 0 then 0 else if a[0] != b[0] then CmpNum(a[0], b[0]) else Memcmp(a[1..], b[1..], n - 1)
  }

  function CmpStr(a: Bytes, b: Bytes): (c: int) {
    var c := Memcmp(a, b, if |a| > |b| then |b| else |a|);
    if c == 0 then CmpNum(|a|, |b|) else c
  }

  /** Text in memory: empty, or with its terminating NUL. */
  function Stored(s: Bytes): (r: Bytes) {
    if s == [] then [] else s + [0]
  }

  function CmpBase(kind: Kind, a: Base, b: Base): (c: int)
    requires Storable(kind, a) && Storable(kind, b)
  {
    match kind
    case Text => CmpStr(Stored(a.s), Stored(b.s))
    case Bytestring => CmpStr(a.s, b.s)
    case Float => CmpStr(a.s, b.s)
    case _ => CmpNum(a.i, b.i)
  }

  lemma {:induction false} CmpStrIsOrder(a: Bytes, b: Bytes)
    ensures (CmpStr(a, b) < 0 <==> Less(a, b)) && (CmpStr(a, b) > 0 <==> Less(b, a)) && (CmpStr(a, b) == 0 <==> a == b)
  {
    if a != [] && b != [] {
      if a[0] == b[0] {
        CmpStrIsOrder(a[1..], b[1..]);
        assert a == [a[0]] + a[1..] && b == [b[0]] + b[1..];
      }
    }
  }

  lemma StoredSame(a: Bytes, b: Bytes)
    ensures Stored(a) == Stored(b) <==> a == b
  {
    if a != [] { assert Stored(a)[..|a|] == a; }
    if b != [] { assert Stored(b)[..|b|] == b; }
  }

  lemma StringTransitive(a: Bytes, b: Bytes, c: Bytes)
    requires CmpStr(a, b) < 0 && CmpStr(b, c) < 0
    ensures CmpStr(a, c) < 0
  {
    CmpStrIsOrder(a, b);
    CmpStrIsOrder(b, c);
    CmpStrIsOrder(a, c);
    LessTransitive(a, b, c);
  }

  lemma BaseOrder(kind: Kind, a: Base, b: Base)
    requires Storable(kind, a) && Storable(kind, b)
    ensures CmpBase(kind, a, b) == 0 <==> a == b
    ensures CmpBase(kind, a, b) < 0 <==> CmpBase(kind, b, a) > 0
  {
    match kind
    case Text =>
      CmpStrIsOrder(Stored(a.s), Stored(b.s));
      CmpStrIsOrder(Stored(b.s), Stored(a.s));
      StoredSame(a.s, b.s);
    case Bytestring => CmpStrIsOrder(a.s, b.s); CmpStrIsOrder(b.s, a.s);
    case Float => CmpStrIsOrder(a.s, b.s); CmpStrIsOrder(b.s, a.s);
    case _ =>
  }

  lemma BaseTransitive(kind: Kind, a: Base, b: Base, c: Base)
    requires Storable(kind, a) && Storable(kind, b) && Storable(kind, c) && CmpBase(kind, a, b) < 0 && CmpBase(kind, b, c) < 0
    ensures CmpBase(kind, a, c) < 0
  {
    match kind
    case Text => StringTransitive(Stored(a.s), Stored(b.s), Stored(c.s));
    case Bytestring => StringTransitive(a.s, b.s, c.s);
    case Float => StringTransitive(a.s, b.s, c.s);
    case _ =>
  }

  // -------------------------------------------------------------------------------------- all values

  /** Negative if `v` comes first, positive if `w` does. An empty array or map is smaller than any other. */
  function Cmp(ops: Ops, v: Value, w: Value): (c: int)
    requires Typed(ops, v) && Typed(ops, w)
    decreases v, 1, 0
  {
    if ops.Single? then CmpBase(ops.kind, v.v, w.v)
    else if |v.vals| == 0 && |w.vals| == 0 then 0
    else if !ops.Tuple? && |v.vals| == 0 then -1
    else if !ops.Tuple? && |w.vals| == 0 then 1
    else CmpFrom(ops, v, w, 0)
  }

  /** The first difference from position `i` on decides; if there is none, the shorter comes first. */
  function CmpFrom(ops: Ops, v: Value, w: Value, i: nat): (c: int)
    requires !ops.Single? && Typed(ops, v) && Typed(ops, w) && i <= |v.vals| && i <= |w.vals|
    decreases v, 0, |v.vals| - i
  {
    if i == |v.vals| || i == |w.vals| then (if ops.Tuple? then 0 else CmpNum(|v.vals|, |w.vals|))
    else
      var c := Cmp(Slot(ops, i), v.vals[i], w.vals[i]);
      if c != 0 then c else CmpFrom(ops, v, w, i + 1)
  }

  /** The branches for empty values are those of the loop. */
  lemma CmpLoop(ops: Ops, v: Value, w: Value)
    requires !ops.Single? && Typed(ops, v) && Typed(ops, w)
    ensures Cmp(ops, v, w) == CmpFrom(ops, v, w, 0)
  {
  }

  // ------------------------------------------------------------------------------ what it means

  /** Numbers by value, strings of bytes or characters by their first difference. */
  predicate BasePrecedes(kind: Kind, a: Base, b: Base)
    requires Storable(kind, a) && Storable(kind, b)
  {
    if a.Num? then a.i < b.i else Less(a.s, b.s)
  }

  /** At their first difference `v` has the smaller value or has ended. */
  ghost predicate Precedes(ops: Ops, v: Value, w: Value)
    requires Typed(ops, v) && Typed(ops, w)
    decreases v
  {
    if ops.Single? then BasePrecedes(ops.kind, v.v, w.v)
    else exists i: nat :: i <= |v.vals| && i < |w.vals| && v.vals[..i] == w.vals[..i] && (i == |v.vals| || Precedes(Slot(ops, i), v.vals[i], w.vals[i]))
  }

  ghost predicate PrecedesAt(ops: Ops, v: Value, w: Value, i: nat)
    requires !ops.Single? && Typed(ops, v) && Typed(ops, w)
  {
    && i <= |v.vals| && i < |w.vals| && v.vals[..i] == w.vals[..i]
    && (i == |v.vals| || Precedes(Slot(ops, i), v.vals[i], w.vals[i]))
  }

  /** The sign of a comparison says which of the two comes first. */
  lemma CmpMeans(ops: Ops, v: Value, w: Value)
    requires Typed(ops, v) && Typed(ops, w)
    ensures (Cmp(ops, v, w) < 0 <==> Precedes(ops, v, w)) && (Cmp(ops, v, w) > 0 <==> Precedes(ops, w, v))
  {
    CmpPrecedes(ops, v, w);
    CmpPrecedes(ops, w, v);
    CmpMirrors(ops, w, v);
  }

  lemma {:induction false} CmpPrecedes(ops: Ops, v: Value, w: Value)
    requires Typed(ops, v) && Typed(ops, w)
    ensures Cmp(ops, v, w) < 0 <==> Precedes(ops, v, w)
    decreases v, 1, 0
  {
    if ops.Single? {
      BaseMeans(ops.kind, v.v, w.v);
    } else {
      CmpLoop(ops, v, w);
      CmpFromMeans(ops, v, w, 0);
      AnyDifference(ops, v, w);
    }
  }

  lemma {:induction false} CmpFromMeans(ops: Ops, v: Value, w: Value, i: nat)
    requires !ops.Single? && Typed(ops, v) && Typed(ops, w) && i <= |v.vals| && i <= |w.vals| && v.vals[..i] == w.vals[..i]
    ensures CmpFrom(ops, v, w, i) < 0 <==> exists j: nat :: i <= j && PrecedesAt(ops, v, w, j)
    decreases v, 0, |v.vals| - i
  {
    if i == |v.vals| || i == |w.vals| {
      if i < |w.vals| { assert PrecedesAt(ops, v, w, i); }
    } else {
      CmpZero(Slot(ops, i), v.vals[i], w.vals[i]);
      CmpPrecedes(Slot(ops, i), v.vals[i], w.vals[i]);
      if v.vals[i] == w.vals[i] {
        assert v.vals[..i + 1] == w.vals[..i + 1];
        CmpFromMeans(ops, v, w, i + 1);
        AtDifference(ops, v, w, i);
      } else {
        FirstDiffers(ops, v, w, i);
      }
    }
  }

  lemma AtDifference(ops: Ops, v: Value, w: Value, i: nat)
    requires !ops.Single? && Typed(ops, v) && Typed(ops, w) && i < |v.vals| && i < |w.vals| && v.vals[..i] == w.vals[..i]
    ensures PrecedesAt(ops, v, w, i) <==> Precedes(Slot(ops, i), v.vals[i], w.vals[i])
  {
  }

  lemma AnyDifference(ops: Ops, v: Value, w: Value)
    requires !ops.Single? && Typed(ops, v) && Typed(ops, w)
    ensures Precedes(ops, v, w) <==> exists j: nat :: 0 <= j && PrecedesAt(ops, v, w, j)
  {
    if Precedes(ops, v, w) {
      var i: nat :| i <= |v.vals| && i < |w.vals| && v.vals[..i] == w.vals[..i] && (i == |v.vals| || Precedes(Slot(ops, i), v.vals[i], w.vals[i]));
      assert PrecedesAt(ops, v, w, i);
    }
  }

  lemma SamePrefix(v: seq<Value>, w: seq<Value>, j: nat, i: nat)
    requires i < j <= |v| && j <= |w| && v[..j] == w[..j]
    ensures v[i] == w[i]
  {
    assert v[..j][i] == w[..j][i];
  }

  /** Where values first differ is the only place that can decide. */
  lemma FirstDiffers(ops: Ops, v: Value, w: Value, i: nat)
    requires !ops.Single? && Typed(ops, v) && Typed(ops, w) && i < |v.vals| && i < |w.vals| && v.vals[..i] == w.vals[..i] && v.vals[i] != w.vals[i]
    ensures (exists j: nat :: i <= j && PrecedesAt(ops, v, w, j)) <==> Precedes(Slot(ops, i), v.vals[i], w.vals[i])
  {
    AtDifference(ops, v, w, i);
    forall j: nat | i < j ensures !PrecedesAt(ops, v, w, j) {
      if PrecedesAt(ops, v, w, j) { SamePrefix(v.vals, w.vals, j, i); }
    }
  }

  lemma BaseMeans(kind: Kind, a: Base, b: Base)
    requires Storable(kind, a) && Storable(kind, b)
    ensures CmpBase(kind, a, b) < 0 <==> BasePrecedes(kind, a, b)
  {
    if a.Str? {
      CmpStrIsOrder(a.s, b.s);
      CmpStrIsOrder(Stored(a.s), Stored(b.s));
      StoredLess(a.s, b.s);
    }
  }

  /** The terminating NUL makes no difference to the order. */
  lemma {:induction false} StoredLess(a: Bytes, b: Bytes)
    ensures Less(Stored(a), Stored(b)) <==> Less(a, b)
  {
    if a != [] && b != [] { TerminatedLess(a, b); }
  }

  lemma {:induction false} TerminatedLess(a: Bytes, b: Bytes)
    ensures Less(a + [0], b + [0]) <==> Less(a, b)
  {
    if a != [] && b != [] {
      assert (a + [0])[1..] == a[1..] + [0] && (b + [0])[1..] == b[1..] + [0];
      TerminatedLess(a[1..], b[1..]);
    } else if b != [] {
      assert (b + [0])[1..] == b[1..] + [0];
      assert (a + [0])[1..] == [];
    } else if a != [] {
      assert (b + [0])[1..] == [];
    }
  }

  /** Only equal values compare equal. */
  lemma {:induction false} CmpZero(ops: Ops, v: Value, w: Value)
    requires Typed(ops, v) && Typed(ops, w)
    ensures Cmp(ops, v, w) == 0 <==> v == w
    decreases v, 1, 0
  {
    if ops.Single? {
      BaseOrder(ops.kind, v.v, w.v);
    } else {
      CmpLoop(ops, v, w);
      CmpFromZero(ops, v, w, 0);
      assert v.vals[0..] == v.vals && w.vals[0..] == w.vals;
    }
  }

  lemma {:induction false} CmpFromZero(ops: Ops, v: Value, w: Value, i: nat)
    requires !ops.Single? && Typed(ops, v) && Typed(ops, w) && i <= |v.vals| && i <= |w.vals|
    ensures CmpFrom(ops, v, w, i) == 0 <==> v.vals[i..] == w.vals[i..]
    decreases v, 0, |v.vals| - i
  {
    if i < |v.vals| && i < |w.vals| {
      CmpZero(Slot(ops, i), v.vals[i], w.vals[i]);
      CmpFromZero(ops, v, w, i + 1);
      SameRest(v.vals, w.vals, i);
    }
  }

  lemma SameRest(v: seq<Value>, w: seq<Value>, i: nat)
    requires i < |v| && i < |w|
    ensures v[i..] == w[i..] <==> v[i] == w[i] && v[i + 1..] == w[i + 1..]
  {
    assert v[i..] == [v[i]] + v[i + 1..] && w[i..] == [w[i]] + w[i + 1..];
  }

  /** The other way round the sign is the other. */
  lemma {:induction false} CmpMirrors(ops: Ops, v: Value, w: Value)
    requires Typed(ops, v) && Typed(ops, w)
    ensures Cmp(ops, v, w) < 0 <==> Cmp(ops, w, v) > 0
    decreases v, 1, 0
  {
    if ops.Single? {
      BaseOrder(ops.kind, v.v, w.v);
    } else {
      CmpLoop(ops, v, w);
      CmpLoop(ops, w, v);
      CmpFromMirrors(ops, v, w, 0);
    }
  }

  lemma {:induction false} CmpFromMirrors(ops: Ops, v: Value, w: Value, i: nat)
    requires !ops.Single? && Typed(ops, v) && Typed(ops, w) && i <= |v.vals| && i <= |w.vals|
    ensures CmpFrom(ops, v, w, i) < 0 <==> CmpFrom(ops, w, v, i) > 0
    decreases v, 0, |v.vals| - i
  {
    if i < |v.vals| && i < |w.vals| {
      CmpMirrors(Slot(ops, i), v.vals[i], w.vals[i]);
      CmpZero(Slot(ops, i), v.vals[i], w.vals[i]);
      CmpZero(Slot(ops, i), w.vals[i], v.vals[i]);
      CmpFromMirrors(ops, v, w, i + 1);
    }
  }

  lemma {:induction false} CmpTransitive(ops: Ops, u: Value, v: Value, w: Value)
    requires Typed(ops, u) && Typed(ops, v) && Typed(ops, w) && Cmp(ops, u, v) < 0 && Cmp(ops, v, w) < 0
    ensures Cmp(ops, u, w) < 0
    decreases u, 1, 0
  {
    if ops.Single? {
      BaseTransitive(ops.kind, u.v, v.v, w.v);
    } else {
      CmpLoop(ops, u, v);
      CmpLoop(ops, v, w);
      CmpLoop(ops, u, w);
      CmpFromTransitive(ops, u, v, w, 0);
    }
  }

  lemma {:induction false} CmpFromTransitive(ops: Ops, u: Value, v: Value, w: Value, i: nat)
    requires !ops.Single? && Typed(ops, u) && Typed(ops, v) && Typed(ops, w) && i <= |u.vals| && i <= |v.vals| && i <= |w.vals|
    requires CmpFrom(ops, u, v, i) < 0 && CmpFrom(ops, v, w, i) < 0
    ensures CmpFrom(ops, u, w, i) < 0
    decreases u, 0, |u.vals| - i
  {
    if i < |u.vals| && i < |v.vals| && i < |w.vals| {
      var slot := Slot(ops, i);
      CmpZero(slot, u.vals[i], v.vals[i]);
      CmpZero(slot, v.vals[i], w.vals[i]);
      if Cmp(slot, u.vals[i], v.vals[i]) == 0 && Cmp(slot, v.vals[i], w.vals[i]) == 0 {
        CmpFromTransitive(ops, u, v, w, i + 1);
      } else if Cmp(slot, u.vals[i], v.vals[i]) != 0 && Cmp(slot, v.vals[i], w.vals[i]) != 0 {
        CmpTransitive(slot, u.vals[i], v.vals[i], w.vals[i]);
      }
    }
  }

  // ------------------------------------------------------------------- values that are not populated

  /** A value, or nothing where one is expected. */
  datatype Ref = Null | At(v: Value)

  /** A value of the type in which tuples may be unpopulated, that is without fields, at any depth. */
  predicate Fitting(ops: Ops, v: Value) {
    if ops.Single? then v.One? && Storable(ops.kind, v.v)
    else
      && v.Vals? && (ops.Tuple? ==> v.vals == [] || |v.vals| == |ops.flats|) && (ops.Map? ==> |v.vals| < TWO63)
      && forall i :: 0 <= i < |v.vals| ==> Fitting(Slot(ops, i), v.vals[i])
  }

  predicate Given(ops: Ops, r: Ref) {
    r.At? ==> Fitting(ops, r.v)
  }

  /** What nothing is compared as; `zero` is the sort key of the float 0.0. */
  function Default(kind: Kind, zero: Bytes): (b: Base)
    requires |zero| == 8
    ensures Storable(kind, b)
  {
    match kind
    case Float => Str(zero)
    case Text => Str([])
    case Bytestring => Str([])
    case _ => Num(0)
  }

  /** The value with everything that is missing filled in. */
  function Filled(ops: Ops, r: Ref, zero: Bytes): (v: Value)
    requires Given(ops, r) && |zero| == 8
    ensures Typed(ops, v)
    decreases ops
  {
    if ops.Single? then (if r.Null? then Value.One(Default(ops.kind, zero)) else r.v)
    else Vals(seq(Length(ops, r), i requires 0 <= i < Length(ops, r) => Filled(Slot(ops, i), Part(ops, r, i), zero)))
  }

  /** An unpopulated tuple has all its fields too. */
  function Length(ops: Ops, r: Ref): (n: nat)
    requires !ops.Single? && Given(ops, r)
  {
    if ops.Tuple? then |ops.flats| else if r.Null? then 0 else |r.v.vals|
  }

  /** What is at position `i`, if anything. */
  function Part(ops: Ops, r: Ref, i: nat): (p: Ref)
    requires !ops.Single? && Given(ops, r) && i < Length(ops, r)
    ensures Given(Slot(ops, i), p)
  {
    if r.Null? || r.v.vals == [] then Null else At(r.v.vals[i])
  }

  function Vector(r: Ref): (n: nat)
    requires r.At? ==> r.v.Vals?
  {
    if r.Null? then 0 else |r.v.vals|
  }

  lemma BothEmpty(ops: Ops, a: Ref, b: Ref, zero: Bytes)
    requires !ops.Single? && Given(ops, a) && Given(ops, b) && |zero| == 8 && Vector(a) == 0 && Vector(b) == 0
    ensures Cmp(ops, Filled(ops, a, zero), Filled(ops, b, zero)) == 0
  {
    assert Filled(ops, a, zero) == Filled(ops, b, zero);
    CmpZero(ops, Filled(ops, a, zero), Filled(ops, b, zero));
  }

  /** Compare two values, or what there is of them, position by position: as the values filled in compare. */
  method CmpInternal(ops: Ops, a: Ref, b: Ref, zero: Bytes) returns (c: int)
    requires Given(ops, a) && Given(ops, b) && |zero| == 8
    ensures c == Cmp(ops, Filled(ops, a, zero), Filled(ops, b, zero))
    decreases ops
  {
    if ops.Single? {
      return CmpBase(ops.kind, if a.Null? then Default(ops.kind, zero) else a.v.v, if b.Null? then Default(ops.kind, zero) else b.v.v);
    }
    var len0, len1 := Vector(a), Vector(b);
    if len0 == 0 && len1 == 0 {
      BothEmpty(ops, a, b, zero);
      return 0;
    }
    var len := if ops.Tuple? then |ops.flats| else len0;
    if !ops.Tuple? {
      if len0 == 0 {
        return -1;
      } else if len1 == 0 {
        return 1;
      }
      len := if len0 < len1 then len0 else len1;
    }
    ghost var v, w := Filled(ops, a, zero), Filled(ops, b, zero);
    CmpLoop(ops, v, w);
    for i := 0 to len
      invariant CmpFrom(ops, v, w, 0) == CmpFrom(ops, v, w, i)
    {
      var res := CmpInternal(Slot(ops, i), Part(ops, a, i), Part(ops, b, i), zero);
      if res != 0 {
        return res;
      }
    }
    return if ops.Tuple? then 0 else CmpNum(len0, len1);
  }
}

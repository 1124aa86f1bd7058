/**
 * Values as they are declared, tuples within tuples and maps as entries, and what becomes of them when a
 * type is flattened: the leaves of a tuple in order, the key of an entry before what it is mapped to.
 */
module NestedValues {
  import opened Sealing
  import opened ByteStrings
  import opened WireFormat
  import opened Values

  datatype Nested = Leaf(v: Base) | Record(fields: seq<Nested>) | List(elems: seq<Nested>) | Table(entries: seq<(Nested, Nested)>)

  predicate HasType(t: Type, x: Nested)
    decreases t
  {
    match t
    case BaseType(kind) => x.Leaf? && Storable(kind, x.v)
    case TupleType(fields) => x.Record? && |x.fields| == |fields| && forall i :: 0 <= i < |fields| ==> HasType(fields[i], x.fields[i])
    case ArrayType(elem) => x.List? && forall i :: 0 <= i < |x.elems| ==> HasType(elem, x.elems[i])
    case MapType(index, elem) =>
      x.Table? && 2 * |x.entries| < TWO63 && forall i :: 0 <= i < |x.entries| ==> HasType(index, x.entries[i].0) && HasType(elem, x.entries[i].1)
  }

  predicate HaveTypes(fields: seq<Type>, xs: seq<Nested>) {
    |xs| == |fields| && forall i :: 0 <= i < |fields| ==> HasType(fields[i], xs[i])
  }

  /** The value as it is stored. */
  function Flat(t: Type, x: Nested): (v: Value)
    requires HasType(t, x)
    decreases t, 0, 0
  {
    match t
    case BaseType(_) => One(x.v)
    case TupleType(fields) => Vals(FlatFields(fields, x.fields))
    case ArrayType(elem) => Vals(seq(|x.elems|, i requires 0 <= i < |x.elems| => Flat(elem, x.elems[i])))
    case MapType(index, elem) => Vals(seq(2 * |x.entries|, i requires 0 <= i < 2 * |x.entries| =>
      if i % 2 == 0 then Flat(index, x.entries[i / 2].0) else Flat(elem, x.entries[i / 2].1)))
  }

  function FlatFields(fields: seq<Type>, xs: seq<Nested>): (vals: seq<Value>)
    requires HaveTypes(fields, xs)
    ensures |vals| == CountAll(fields)
    decreases fields, 1, 0
  {
    if fields == [] then []
    else FlatField(fields[0], xs[0]) + FlatFields(fields[1..], xs[1..])
  }

  function FlatField(t: Type, x: Nested): (vals: seq<Value>)
    requires HasType(t, x)
    ensures |vals| == if t.TupleType? then CountAll(t.fields) else 1
    decreases t, 2, 0
  {
    if t.TupleType? then FlatFields(t.fields, x.fields) else [Flat(t, x)]
  }

  // -------------------------------------------------------------------- the leaves of a type in order

  /** Flattening is done field by field, in order. */
  lemma {:induction false} FlattenConcat(a: seq<Type>, b: seq<Type>)
    ensures FlattenAll(a + b) == FlattenAll(a) + FlattenAll(b) && CountAll(a + b) == CountAll(a) + CountAll(b)
  {
    if a == [] {
      assert a + b == b;
    } else {
      assert (a + b)[1..] == a[1..] + b;
      FlattenConcat(a[1..], b);
    }
  }

  lemma FlattenOne(t: Type)
    ensures FlattenAll([t]) == if t.TupleType? then FlattenAll(t.fields) else [Init(t)]
    ensures CountAll([t]) == if t.TupleType? then CountAll(t.fields) else 1
  {
    assert [t][1..] == [];
  }

  /** A way into tuples within tuples, to a field that is no tuple. */
  predicate IsPath(fields: seq<Type>, path: seq<nat>) {
    path != [] && path[0] < |fields| &&
      if fields[path[0]].TupleType? then IsPath(fields[path[0]].fields, path[1..]) else |path| == 1
  }

  function LeafAt(fields: seq<Type>, path: seq<nat>): (t: Type)
    requires IsPath(fields, path)
  {
    var t := fields[path[0]];
    if t.TupleType? then LeafAt(t.fields, path[1..]) else t
  }

  function ValueAt(fields: seq<Type>, xs: seq<Nested>, path: seq<nat>): (x: Nested)
    requires IsPath(fields, path) && HaveTypes(fields, xs)
    ensures HasType(LeafAt(fields, path), x)
  {
    var t, x := fields[path[0]], xs[path[0]];
    if t.TupleType? then ValueAt(t.fields, x.fields, path[1..]) else x
  }

  /** How many leaves come before. */
  function Position(fields: seq<Type>, path: seq<nat>): (n: nat)
    requires IsPath(fields, path)
  {
    var t := fields[path[0]];
    CountAll(fields[..path[0]]) + if t.TupleType? then Position(t.fields, path[1..]) else 0
  }

  lemma {:induction false} FlatConcat(a: seq<Type>, b: seq<Type>, xs: seq<Nested>, ys: seq<Nested>)
    requires HaveTypes(a, xs) && HaveTypes(b, ys)
    ensures HaveTypes(a + b, xs + ys) && FlatFields(a + b, xs + ys) == FlatFields(a, xs) + FlatFields(b, ys)
  {
    if a == [] {
      assert a + b == b && xs + ys == ys;
    } else {
      assert (a + b)[1..] == a[1..] + b && (xs + ys)[1..] == xs[1..] + ys;
      FlatConcat(a[1..], b, xs[1..], ys);
    }
  }

  /** What fields and their values are flattened to. */
  ghost predicate Flats(fields: seq<Type>, xs: seq<Nested>, flats: seq<Ops>, vals: seq<Value>) {
    forall k {:trigger Key(PartFacts, k)} :: Key(PartFacts, k) ==>
      HaveTypes(fields, xs) && flats == FlattenAll(fields) && vals == FlatFields(fields, xs)
  }

  lemma FlatsOf(fields: seq<Type>, xs: seq<Nested>) returns (flats: seq<Ops>, vals: seq<Value>)
    requires HaveTypes(fields, xs)
    ensures Flats(fields, xs, flats, vals) && |flats| == |vals| == CountAll(fields)
  {
    flats, vals := FlattenAll(fields), FlatFields(fields, xs);
  }

  lemma FlatsConcat(a: seq<Type>, b: seq<Type>, xs: seq<Nested>, ys: seq<Nested>, fa: seq<Ops>, fb: seq<Ops>, va: seq<Value>, vb: seq<Value>)
    requires Flats(a, xs, fa, va) && Flats(b, ys, fb, vb)
    ensures Flats(a + b, xs + ys, fa + fb, va + vb)
  {
    assert Key(PartFacts, 0);
    FlattenConcat(a, b);
    FlatConcat(a, b, xs, ys);
  }

  /** The flat values of field `i` come after those of the fields before. */
  lemma FieldPlace(fields: seq<Type>, xs: seq<Nested>, i: nat) returns (flats: seq<Ops>, vals: seq<Value>, fs: seq<Ops>, vs: seq<Value>)
    requires HaveTypes(fields, xs) && i < |fields|
    ensures Flats(fields, xs, flats, vals) && Flats([fields[i]], [xs[i]], fs, vs) && |fs| == |vs|
    ensures var n := CountAll(fields[..i]); n + |fs| <= |flats| == |vals| && flats[n..n + |fs|] == fs && vals[n..n + |fs|] == vs
  {
    var fa, va := FlatsOf(fields[..i], xs[..i]);
    fs, vs := FlatsOf([fields[i]], [xs[i]]);
    var fc, vc := FlatsOf(fields[i + 1..], xs[i + 1..]);
    FlatsConcat(fields[..i], [fields[i]], xs[..i], [xs[i]], fa, fs, va, vs);
    FlatsConcat(fields[..i] + [fields[i]], fields[i + 1..], xs[..i] + [xs[i]], xs[i + 1..], fa + fs, fc, va + vs, vc);
    Parts(fields, i);
    Parts(xs, i);
    flats, vals := fa + fs + fc, va + vs + vc;
    Middle(fa, fs, fc);
    Middle(va, vs, vc);
  }

  lemma Parts<T>(s: seq<T>, i: nat)
    requires i < |s|
    ensures s == s[..i] + [s[i]] + s[i + 1..]
  {
  }

  lemma Middle<T>(a: seq<T>, b: seq<T>, c: seq<T>)
    ensures (a + b + c)[|a|..|a| + |b|] == b
  {
  }

  lemma FlatsOne(t: Type, x: Nested, fs: seq<Ops>, vs: seq<Value>)
    requires Flats([t], [x], fs, vs)
    ensures HasType(t, x) && fs == (if t.TupleType? then FlattenAll(t.fields) else [Init(t)]) && vs == FlatField(t, x)
  {
    assert Key(PartFacts, 0);
    FlattenOne(t);
    assert [x][1..] == [] && [t][1..] == [];
    assert HasType([t][0], [x][0]);
  }

  /** The leaf at the end of a path, and its value, are at its place. */
  ghost predicate IsPlaced(fields: seq<Type>, xs: seq<Nested>, path: seq<nat>)
    requires IsPath(fields, path) && HaveTypes(fields, xs)
  {
    var n := Position(fields, path);
    n < CountAll(fields) && FlattenAll(fields)[n] == Init(LeafAt(fields, path)) && FlatFields(fields, xs)[n] == Flat(LeafAt(fields, path), ValueAt(fields, xs, path))
  }

  /** Every leaf is where as many leaves as come before it leave it, in the type and in the value. */
  lemma {:induction false} LeafPlace(fields: seq<Type>, xs: seq<Nested>, path: seq<nat>)
    requires IsPath(fields, path) && HaveTypes(fields, xs)
    ensures IsPlaced(fields, xs, path)
    decreases fields
  {
    var t, x := fields[path[0]], xs[path[0]];
    var flats, vals, fs, vs := FieldPlace(fields, xs, path[0]);
    FlatsOne(t, x, fs, vs);
    var q := if t.TupleType? then Position(t.fields, path[1..]) else 0;
    if t.TupleType? { LeafPlace(t.fields, x.fields, path[1..]); }
    PlacedFrom(fields, xs, path, flats, vals, q, fs, vs);
  }

  lemma PlacedFrom(fields: seq<Type>, xs: seq<Nested>, path: seq<nat>, flats: seq<Ops>, vals: seq<Value>, q: nat, fs: seq<Ops>, vs: seq<Value>)
    requires IsPath(fields, path) && HaveTypes(fields, xs) && Flats(fields, xs, flats, vals)
    requires q < |fs| == |vs| && fs[q] == Init(LeafAt(fields, path)) && vs[q] == Flat(LeafAt(fields, path), ValueAt(fields, xs, path))
    requires var n := CountAll(fields[..path[0]]); n + |fs| <= |flats| == |vals| && flats[n..n + |fs|] == fs && vals[n..n + |fs|] == vs && Position(fields, path) == n + q
    ensures IsPlaced(fields, xs, path)
  {
    var n := CountAll(fields[..path[0]]);
    InSlice(flats, n, fs, q);
    InSlice(vals, n, vs, q);
    PlacedAt(fields, xs, path, flats, vals, n + q);
  }

  lemma InSlice<T>(s: seq<T>, n: nat, part: seq<T>, q: nat)
    requires q < |part| && n + |part| <= |s| && s[n..n + |part|] == part
    ensures s[n + q] == part[q]
  {
    assert s[n..n + |part|][q] == s[n + q];
  }

  lemma PlacedAt(fields: seq<Type>, xs: seq<Nested>, path: seq<nat>, flats: seq<Ops>, vals: seq<Value>, n: nat)
    requires IsPath(fields, path) && HaveTypes(fields, xs) && Flats(fields, xs, flats, vals) && n == Position(fields, path) && n < |flats| == |vals|
    requires flats[n] == Init(LeafAt(fields, path)) && vals[n] == Flat(LeafAt(fields, path), ValueAt(fields, xs, path))
    ensures IsPlaced(fields, xs, path)
  {
    assert Key(PartFacts, 0);
  }

  /** And every place is that of a leaf. */
  lemma {:induction false} PlaceLeaf(fields: seq<Type>, n: nat) returns (path: seq<nat>)
    requires n < CountAll(fields)
    ensures IsPath(fields, path) && Position(fields, path) == n
    decreases fields
  {
    var first := if fields[0].TupleType? then CountAll(fields[0].fields) else 1;
    if n >= first {
      var rest := PlaceLeaf(fields[1..], n - first);
      path := [rest[0] + 1] + rest[1..];
      assert fields[..rest[0] + 1][1..] == fields[1..][..rest[0]];
      assert path[1..] == rest[1..];
    } else if fields[0].TupleType? {
      var inside := PlaceLeaf(fields[0].fields, n);
      path := [0] + inside;
      assert path[1..] == inside;
    } else {
      path := [0];
    }
  }

  // -------------------------------------------------------------------------- what is stored is typed

  /** A value of the declared type is stored as a value of the flattened type. */
  lemma {:induction false} FlatTyped(t: Type, x: Nested)
    requires HasType(t, x)
    ensures Typed(Init(t), Flat(t, x))
    decreases t, 0
  {
    match t
    case BaseType(_) =>
    case TupleType(fields) => FieldsTyped(fields, x.fields);
    case ArrayType(elem) =>
      forall i | 0 <= i < |x.elems| ensures Typed(Init(elem), Flat(elem, x.elems[i])) { FlatTyped(elem, x.elems[i]); }
    case MapType(index, elem) =>
      forall i | 0 <= i < 2 * |x.entries| ensures Typed(Slot(Init(t), i), Flat(t, x).vals[i]) {
        FlatTyped(index, x.entries[i / 2].0);
        FlatTyped(elem, x.entries[i / 2].1);
      }
  }

  lemma {:induction false} FieldsTyped(fields: seq<Type>, xs: seq<Nested>)
    requires HaveTypes(fields, xs)
    ensures forall i :: 0 <= i < CountAll(fields) ==> Typed(FlattenAll(fields)[i], FlatFields(fields, xs)[i])
    decreases fields, 1
  {
    if fields != [] {
      var t := fields[0];
      if t.TupleType? { FieldsTyped(t.fields, xs[0].fields); } else { FlatTyped(t, xs[0]); }
      FieldsTyped(fields[1..], xs[1..]);
    }
  }

  // ----------------------------------------------------------------------- nothing is lost by flattening

  /** Different values are stored differently. */
  lemma {:induction false} FlatSame(t: Type, x: Nested, y: Nested)
    requires HasType(t, x) && HasType(t, y) && Flat(t, x) == Flat(t, y)
    ensures x == y
    decreases t, 0
  {
    var v, w := Flat(t, x), Flat(t, y);
    match t
    case BaseType(_) =>
    case TupleType(fields) => FieldsSame(fields, x.fields, y.fields);
    case ArrayType(elem) =>
      assert |v.vals| == |x.elems| && |w.vals| == |y.elems|;
      forall i | 0 <= i < |x.elems| ensures x.elems[i] == y.elems[i] {
        assert v.vals[i] == w.vals[i];
        FlatSame(elem, x.elems[i], y.elems[i]);
      }
    case MapType(index, elem) =>
      assert |v.vals| == 2 * |x.entries| && |w.vals| == 2 * |y.entries|;
      forall i | 0 <= i < |x.entries| ensures x.entries[i] == y.entries[i] {
        assert v.vals[2 * i] == w.vals[2 * i] && v.vals[2 * i + 1] == w.vals[2 * i + 1];
        FlatSame(index, x.entries[i].0, y.entries[i].0);
        FlatSame(elem, x.entries[i].1, y.entries[i].1);
      }
  }

  lemma {:induction false} FieldsSame(fields: seq<Type>, xs: seq<Nested>, ys: seq<Nested>)
    requires HaveTypes(fields, xs) && HaveTypes(fields, ys) && FlatFields(fields, xs) == FlatFields(fields, ys)
    ensures xs == ys
    decreases fields, 1
  {
    if fields != [] {
      var t := fields[0];
      SameParts(FlatField(t, xs[0]), FlatFields(fields[1..], xs[1..]), FlatField(t, ys[0]), FlatFields(fields[1..], ys[1..]));
      if t.TupleType? { FieldsSame(t.fields, xs[0].fields, ys[0].fields); } else { FlatSame(t, xs[0], ys[0]); }
      FieldsSame(fields[1..], xs[1..], ys[1..]);
    }
  }

  lemma SameParts(a: seq<Value>, b: seq<Value>, c: seq<Value>, d: seq<Value>)
    requires a + b == c + d && |a| == |c|
    ensures a == c && b == d
  {
    assert a == (a + b)[..|a|] && c == (c + d)[..|c|] && b == (a + b)[|a|..] && d == (c + d)[|c|..];
  }

  /** The value can be read back: no text in it has a NUL. It is typed whatever it is. */
  predicate Readable(t: Type, x: Nested)
    requires HasType(t, x)
  {
    Typed(Init(t), Flat(t, x)) && AllPortable(Init(t), Flat(t, x))
  }

  /** So a string determines the declared value that was written, and where it ends. */
  lemma WrittenOnce(t: Type, x: Nested, y: Nested, top: bool, a: Bytes, b: Bytes)
    requires HasType(t, x) && HasType(t, y) && Readable(t, x) && Readable(t, y)
    requires Encode(Init(t), Flat(t, x), top) + a == Encode(Init(t), Flat(t, y), top) + b
    ensures x == y && a == b
  {
    RoundTrip(Init(t), Flat(t, x), top, a);
    RoundTrip(Init(t), Flat(t, y), top, b);
    FlatSame(t, x, y);
  }
}

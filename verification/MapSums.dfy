/**
 * Adding values of nested map and tuple types. Maps are arrays of pairs sorted by key; two passes over
 * them, the first to find where each pair goes, give the pointwise sum.
 */
module MapSums {
  import opened Sealing
  import opened ByteStrings
  import opened WireFormat
  import opened Values
  import opened ValueOrder

  /** Types that can be added; the keys of a map may have any type. */
  datatype Shape = Number | Fields(shapes: seq<Shape>) | MapOf(key: Ops, elem: Shape)

  type Pair = (Value, Sum)

  /** Values: an unpopulated tuple has no fields and stands for zero. */
  datatype Sum = Total(n: int) | Tup(fields: seq<Sum>) | Pairs(pairs: seq<Pair>)

  // ------------------------------------------------------------------------------------ keys

  predicate KeysIn(key: Ops, s: seq<Pair>) {
    forall i :: 0 <= i < |s| ==> Typed(key, s[i].0)
  }

  predicate Before(key: Ops, a: Value, b: Value) {
    Typed(key, a) && Typed(key, b) && Cmp(key, a, b) < 0
  }

  /** Strictly increasing keys. */
  ghost predicate Ordered(key: Ops, s: seq<Pair>) {
    KeysIn(key, s) && forall i, j :: 0 <= i < j < |s| ==> Before(key, s[i].0, s[j].0)
  }

  /** Comparison is a total order of the keys of a type. */
  lemma KeyOrder(key: Ops, a: Value, b: Value)
    requires Typed(key, a) && Typed(key, b)
    ensures Cmp(key, a, b) == 0 <==> a == b
    ensures Before(key, a, b) <==> Cmp(key, b, a) > 0
  {
    CmpZero(key, a, b);
    CmpMirrors(key, a, b);
  }

  lemma KeyTransitive(key: Ops, a: Value, b: Value, c: Value)
    requires Before(key, a, b) && Before(key, b, c)
    ensures Before(key, a, c)
  {
    CmpTransitive(key, a, b, c);
  }

  // ------------------------------------------------------------------------------------ the sum

  ghost predicate Fits(shape: Shape, v: Sum)
    decreases shape
  {
    match shape
    case Number => v.Total?
    case Fields(shapes) => v.Tup? && (v.fields == [] || (|v.fields| == |shapes| && forall i :: 0 <= i < |shapes| ==> Fits(shapes[i], v.fields[i])))
    case MapOf(key, elem) => v.Pairs? && Ordered(key, v.pairs) && forall i :: 0 <= i < |v.pairs| ==> Fits(elem, v.pairs[i].1)
  }

  /** What adding `s` to `d` makes of `d`. */
  ghost function Add(shape: Shape, s: Sum, d: Sum): (r: Sum)
    requires Fits(shape, s) && Fits(shape, d)
    decreases shape, 1, 0
  {
    match shape
    case Number => Total(d.n + s.n)
    case Fields(shapes) => if s.fields == [] then d else if d.fields == [] then s else Tup(AddFields(shape, s, d, 0))
    case MapOf(_, _) => Pairs(Merge(shape, s.pairs, d.pairs))
  }

  ghost function AddFields(shape: Shape, s: Sum, d: Sum, i: nat): (r: seq<Sum>)
    requires shape.Fields? && Fits(shape, s) && Fits(shape, d) && s.fields != [] && d.fields != [] && i <= |shape.shapes|
    ensures |r| == |shape.shapes| - i
    decreases shape, 0, |shape.shapes| - i
  {
    if i == |shape.shapes| then [] else [Add(shape.shapes[i], s.fields[i], d.fields[i])] + AddFields(shape, s, d, i + 1)
  }

  ghost predicate IsMap(shape: Shape, s: seq<Pair>) {
    shape.MapOf? && Fits(shape, Pairs(s))
  }

  /** Two sorted arrays of pairs in one, values of the same key added. */
  ghost function Merge(shape: Shape, s: seq<Pair>, d: seq<Pair>): (r: seq<Pair>)
    requires IsMap(shape, s) && IsMap(shape, d)
    decreases shape, 0, |s| + |d|
  {
    if s == [] then d
    else if d == [] then s
    else
      var c := Cmp(shape.key, s[0].0, d[0].0);
      RestIsMap(shape, s);
      RestIsMap(shape, d);
      if c < 0 then [s[0]] + Merge(shape, s[1..], d)
      else if c > 0 then [d[0]] + Merge(shape, s, d[1..])
      else [(d[0].0, Add(shape.elem, s[0].1, d[0].1))] + Merge(shape, s[1..], d[1..])
  }

  lemma RestIsMap(shape: Shape, s: seq<Pair>)
    requires IsMap(shape, s) && s != []
    ensures IsMap(shape, s[1..])
  {
  }

  // ---------------------------------------------------------------------------- what a map denotes

  datatype Found = None | Some(v: Sum)

  function Find(s: seq<Pair>, k: Value): (r: Found) {
    if s == [] then None else if s[0].0 == k then Some(s[0].1) else Find(s[1..], k)
  }

  /** The sum of what two maps hold for a key. */
  ghost function Both(elem: Shape, a: Found, b: Found): (r: Found)
    requires (a.Some? ==> Fits(elem, a.v)) && (b.Some? ==> Fits(elem, b.v))
  {
    if a.None? then b else if b.None? then a else Some(Add(elem, a.v, b.v))
  }

  lemma {:induction false} FindFits(shape: Shape, s: seq<Pair>, k: Value)
    requires IsMap(shape, s)
    ensures Find(s, k).Some? ==> Fits(shape.elem, Find(s, k).v) && exists i :: 0 <= i < |s| && s[i].0 == k
  {
    if s != [] && s[0].0 != k {
      RestIsMap(shape, s);
      FindFits(shape, s[1..], k);
      if Find(s[1..], k).Some? {
        var i :| 0 <= i < |s[1..]| && s[1..][i].0 == k;
        assert s[i + 1].0 == k;
      }
    }
  }

  /** Nothing is found that is not above everything before it. */
  lemma {:induction false} NotFound(key: Ops, s: seq<Pair>, k: Value)
    requires Ordered(key, s) && Typed(key, k) && (s != [] ==> Before(key, k, s[0].0))
    ensures Find(s, k) == None
  {
    if s != [] {
      KeyOrder(key, k, s[0].0);
      if |s| > 1 { KeyTransitive(key, k, s[0].0, s[1].0); }
      NotFound(key, s[1..], k);
    }
  }

  // ------------------------------------------------------------------------- the sum is a sorted map

  ghost predicate Under(key: Ops, k: Value, s: seq<Pair>) {
    s != [] ==> Before(key, k, s[0].0)
  }

  lemma ConsIsMap(shape: Shape, p: Pair, r: seq<Pair>)
    requires IsMap(shape, r) && Typed(shape.key, p.0) && Fits(shape.elem, p.1) && Under(shape.key, p.0, r)
    ensures IsMap(shape, [p] + r)
  {
    var t := [p] + r;
    forall i, j | 0 <= i < j < |t| ensures Before(shape.key, t[i].0, t[j].0) {
      if i == 0 && j > 1 { KeyTransitive(shape.key, p.0, r[0].0, r[j - 1].0); }
    }
    forall i | 0 <= i < |t| ensures Fits(shape.elem, t[i].1) {
      if i > 0 { assert Fits(shape.elem, r[i - 1].1); }
    }
  }

  lemma {:induction false} AddFits(shape: Shape, s: Sum, d: Sum)
    requires Fits(shape, s) && Fits(shape, d)
    ensures Fits(shape, Add(shape, s, d))
    decreases shape, 1, 0
  {
    match shape
    case Number =>
    case Fields(shapes) =>
      if s.fields != [] && d.fields != [] { FieldsFit(shape, s, d, 0); }
    case MapOf(_, _) => MergeFits(shape, s.pairs, d.pairs);
  }

  lemma {:induction false} FieldsFit(shape: Shape, s: Sum, d: Sum, i: nat)
    requires shape.Fields? && Fits(shape, s) && Fits(shape, d) && s.fields != [] && d.fields != [] && i <= |shape.shapes|
    ensures forall j :: i <= j < |shape.shapes| ==>
      AddFields(shape, s, d, i)[j - i] == Add(shape.shapes[j], s.fields[j], d.fields[j]) && Fits(shape.shapes[j], AddFields(shape, s, d, i)[j - i])
    decreases shape, 0, |shape.shapes| - i
  {
    if i < |shape.shapes| {
      AddFits(shape.shapes[i], s.fields[i], d.fields[i]);
      FieldsFit(shape, s, d, i + 1);
      var r, rest := AddFields(shape, s, d, i), AddFields(shape, s, d, i + 1);
      forall j | i <= j < |shape.shapes| ensures r[j - i] == Add(shape.shapes[j], s.fields[j], d.fields[j]) && Fits(shape.shapes[j], r[j - i]) {
        if j > i { assert r[j - i] == rest[j - (i + 1)]; }
      }
    }
  }

  lemma {:induction false} MergeFits(shape: Shape, s: seq<Pair>, d: seq<Pair>)
    requires IsMap(shape, s) && IsMap(shape, d)
    ensures IsMap(shape, Merge(shape, s, d))
    ensures forall k :: Under(shape.key, k, s) && Under(shape.key, k, d) ==> Under(shape.key, k, Merge(shape, s, d))
    decreases shape, 0, |s| + |d|
  {
    if s != [] && d != [] {
      var c := Cmp(shape.key, s[0].0, d[0].0);
      KeyOrder(shape.key, s[0].0, d[0].0);
      KeyOrder(shape.key, d[0].0, s[0].0);
      RestIsMap(shape, s);
      RestIsMap(shape, d);
      if c < 0 {
        MergeFits(shape, s[1..], d);
        ConsIsMap(shape, s[0], Merge(shape, s[1..], d));
      } else if c > 0 {
        MergeFits(shape, s, d[1..]);
        ConsIsMap(shape, d[0], Merge(shape, s, d[1..]));
      } else {
        MergeFits(shape, s[1..], d[1..]);
        AddFits(shape.elem, s[0].1, d[0].1);
        ConsIsMap(shape, (d[0].0, Add(shape.elem, s[0].1, d[0].1)), Merge(shape, s[1..], d[1..]));
      }
    }
  }

  /** The merged map holds for each key the sum of what the two hold. */
  lemma {:induction false} FindMerge(shape: Shape, s: seq<Pair>, d: seq<Pair>, k: Value)
    requires IsMap(shape, s) && IsMap(shape, d) && Typed(shape.key, k)
    ensures (Find(s, k).Some? ==> Fits(shape.elem, Find(s, k).v)) && (Find(d, k).Some? ==> Fits(shape.elem, Find(d, k).v))
    ensures Find(Merge(shape, s, d), k) == Both(shape.elem, Find(s, k), Find(d, k))
    decreases |s| + |d|
  {
    FindFits(shape, s, k);
    FindFits(shape, d, k);
    if s != [] && d != [] {
      var c := Cmp(shape.key, s[0].0, d[0].0);
      KeyOrder(shape.key, s[0].0, d[0].0);
      KeyOrder(shape.key, d[0].0, s[0].0);
      RestIsMap(shape, s);
      RestIsMap(shape, d);
      if c < 0 {
        FindMerge(shape, s[1..], d, k);
        FindCons(s[0], Merge(shape, s[1..], d), k);
        if k == s[0].0 { NotFound(shape.key, d, k); }
      } else if c > 0 {
        FindMerge(shape, s, d[1..], k);
        FindCons(d[0], Merge(shape, s, d[1..]), k);
        if k == d[0].0 { NotFound(shape.key, s, k); }
      } else {
        FindMerge(shape, s[1..], d[1..], k);
        FindCons((d[0].0, Add(shape.elem, s[0].1, d[0].1)), Merge(shape, s[1..], d[1..]), k);
      }
    }
  }

  lemma FindCons(p: Pair, r: seq<Pair>, k: Value)
    ensures Find([p] + r, k) == if p.0 == k then Some(p.1) else Find(r, k)
  {
    assert ([p] + r)[1..] == r;
  }

  /** A sorted map is determined by what it holds. */
  lemma {:induction false} SameMaps(key: Ops, a: seq<Pair>, b: seq<Pair>)
    requires Ordered(key, a) && Ordered(key, b)
    requires forall k :: Typed(key, k) ==> Find(a, k) == Find(b, k)
    ensures a == b
    decreases |a|
  {
    SameEmpty(key, a, b);
    SameEmpty(key, b, a);
    if a != [] {
      SameHeads(key, a, b);
      forall k | Typed(key, k) ensures Find(a[1..], k) == Find(b[1..], k) {
        if k == a[0].0 {
          TailLacks(key, a);
          TailLacks(key, b);
        }
      }
      SameMaps(key, a[1..], b[1..]);
      assert a == [a[0]] + a[1..] && b == [b[0]] + b[1..];
    }
  }

  lemma SameEmpty(key: Ops, a: seq<Pair>, b: seq<Pair>)
    requires Ordered(key, a) && Ordered(key, b) && forall k :: Typed(key, k) ==> Find(a, k) == Find(b, k)
    ensures a == [] ==> b == []
  {
    if b != [] {
      var k := b[0].0;
      assert Find(a, k) == Find(b, k);
    }
  }

  lemma TailLacks(key: Ops, a: seq<Pair>)
    requires Ordered(key, a) && a != []
    ensures Find(a[1..], a[0].0) == None
  {
    NotFound(key, a[1..], a[0].0);
  }

  lemma SameHeads(key: Ops, a: seq<Pair>, b: seq<Pair>)
    requires Ordered(key, a) && Ordered(key, b) && a != [] && b != []
    requires forall k :: Typed(key, k) ==> Find(a, k) == Find(b, k)
    ensures a[0] == b[0]
  {
    var x, y := a[0].0, b[0].0;
    assert Find(a, x) == Find(b, x) && Find(a, y) == Find(b, y);
    KeyOrder(key, x, y);
    KeyOrder(key, y, x);
    if Before(key, x, y) { NotFound(key, b, x); } else if Before(key, y, x) { NotFound(key, a, y); }
  }

  // ------------------------------------------------------------------------------- algebra

  lemma {:induction false} AddCommutes(shape: Shape, s: Sum, d: Sum)
    requires Fits(shape, s) && Fits(shape, d)
    ensures Add(shape, s, d) == Add(shape, d, s)
    decreases shape, 1
  {
    match shape
    case Number =>
    case Fields(shapes) =>
      if s.fields != [] && d.fields != [] {
        FieldsFit(shape, s, d, 0);
        FieldsFit(shape, d, s, 0);
        forall j | 0 <= j < |shapes| ensures AddFields(shape, s, d, 0)[j] == AddFields(shape, d, s, 0)[j] {
          AddCommutes(shapes[j], s.fields[j], d.fields[j]);
        }
        assert AddFields(shape, s, d, 0) == AddFields(shape, d, s, 0);
      }
    case MapOf(key, elem) => MergeCommutes(shape, s.pairs, d.pairs);
  }

  lemma {:induction false} MergeCommutes(shape: Shape, s: seq<Pair>, d: seq<Pair>)
    requires IsMap(shape, s) && IsMap(shape, d)
    ensures Merge(shape, s, d) == Merge(shape, d, s)
    decreases shape, 0
  {
    MergeFits(shape, s, d);
    MergeFits(shape, d, s);
    forall k | Typed(shape.key, k) ensures Find(Merge(shape, s, d), k) == Find(Merge(shape, d, s), k) {
      FindMerge(shape, s, d, k);
      FindMerge(shape, d, s, k);
      if Find(s, k).Some? && Find(d, k).Some? { AddCommutes(shape.elem, Find(s, k).v, Find(d, k).v); }
    }
    SameMaps(shape.key, Merge(shape, s, d), Merge(shape, d, s));
  }

  lemma {:induction false} AddAssociates(shape: Shape, a: Sum, b: Sum, c: Sum)
    requires Fits(shape, a) && Fits(shape, b) && Fits(shape, c)
    ensures Fits(shape, Add(shape, a, b)) && Fits(shape, Add(shape, b, c))
    ensures Add(shape, Add(shape, a, b), c) == Add(shape, a, Add(shape, b, c))
    decreases shape, 1
  {
    AddFits(shape, a, b);
    AddFits(shape, b, c);
    match shape
    case Number =>
    case Fields(shapes) =>
      if a.fields != [] && b.fields != [] && c.fields != [] { FieldsAssociate(shape, a, b, c); }
    case MapOf(key, elem) => MergeAssociates(shape, a.pairs, b.pairs, c.pairs);
  }

  lemma {:induction false} FieldsAssociate(shape: Shape, a: Sum, b: Sum, c: Sum)
    requires shape.Fields? && Fits(shape, a) && Fits(shape, b) && Fits(shape, c) && a.fields != [] && b.fields != [] && c.fields != []
    requires Fits(shape, Add(shape, a, b)) && Fits(shape, Add(shape, b, c))
    ensures Add(shape, Add(shape, a, b), c) == Add(shape, a, Add(shape, b, c))
    decreases shape, 0
  {
    var ab, bc := Add(shape, a, b), Add(shape, b, c);
    forall j | 0 <= j < |shape.shapes| ensures Add(shape, ab, c).fields[j] == Add(shape, a, bc).fields[j] {
      FieldOf(shape, a, b, j);
      FieldOf(shape, b, c, j);
      FieldOf(shape, ab, c, j);
      FieldOf(shape, a, bc, j);
      AddAssociates(shape.shapes[j], a.fields[j], b.fields[j], c.fields[j]);
    }
    assert Add(shape, ab, c).fields == Add(shape, a, bc).fields;
  }

  lemma FieldOf(shape: Shape, s: Sum, d: Sum, j: nat)
    requires shape.Fields? && Fits(shape, s) && Fits(shape, d) && s.fields != [] && d.fields != [] && j < |shape.shapes|
    ensures var r := Add(shape, s, d); r.Tup? && |r.fields| == |shape.shapes| && r.fields[j] == Add(shape.shapes[j], s.fields[j], d.fields[j])
  {
    FieldsFit(shape, s, d, 0);
  }

  lemma {:induction false} MergeAssociates(shape: Shape, a: seq<Pair>, b: seq<Pair>, c: seq<Pair>)
    requires IsMap(shape, a) && IsMap(shape, b) && IsMap(shape, c)
    requires IsMap(shape, Merge(shape, a, b)) && IsMap(shape, Merge(shape, b, c))
    ensures Merge(shape, Merge(shape, a, b), c) == Merge(shape, a, Merge(shape, b, c))
    decreases shape, 0
  {
    var ab, bc := Merge(shape, a, b), Merge(shape, b, c);
    MergeFits(shape, ab, c);
    MergeFits(shape, a, bc);
    forall k | Typed(shape.key, k) ensures Find(Merge(shape, ab, c), k) == Find(Merge(shape, a, bc), k) {
      FindMerge(shape, a, b, k);
      FindMerge(shape, b, c, k);
      FindMerge(shape, ab, c, k);
      FindMerge(shape, a, bc, k);
      if Find(a, k).Some? && Find(b, k).Some? && Find(c, k).Some? { AddAssociates(shape.elem, Find(a, k).v, Find(b, k).v, Find(c, k).v); }
    }
    SameMaps(shape.key, Merge(shape, ab, c), Merge(shape, a, bc));
  }

  // --------------------------------------------------------------- what is added, number by number

  /** One step on the way to a number in a value. */
  datatype Step = InField(i: nat) | AtKey(k: Value)

  /** The number at the end of a path, or 0 if there is nothing. */
  function NumberAt(v: Sum, path: seq<Step>): (n: int)
    decreases |path|
  {
    if path == [] then (if v.Total? then v.n else 0)
    else
      match path[0]
      case InField(i) => if v.Tup? && i < |v.fields| then NumberAt(v.fields[i], path[1..]) else 0
      case AtKey(k) => if v.Pairs? && Find(v.pairs, k).Some? then NumberAt(Find(v.pairs, k).v, path[1..]) else 0
  }

  /** Every number of the sum, at whatever nesting of tuples and maps, is the sum of the two that were there. */
  lemma {:induction false} NumbersAdd(shape: Shape, s: Sum, d: Sum, path: seq<Step>)
    requires Fits(shape, s) && Fits(shape, d)
    ensures NumberAt(Add(shape, s, d), path) == NumberAt(s, path) + NumberAt(d, path)
    decreases |path|
  {
    if path != [] && path[0].InField? && shape.Fields? && s.fields != [] && d.fields != [] {
      FieldNumbersAdd(shape, s, d, path[0].i, path[1..]);
      if path[0].i < |shape.shapes| { NumbersAdd(shape.shapes[path[0].i], s.fields[path[0].i], d.fields[path[0].i], path[1..]); }
    } else if path != [] && path[0].AtKey? && shape.MapOf? {
      var k := path[0].k;
      KeyNumbersAdd(shape, s.pairs, d.pairs, k);
      if Find(s.pairs, k).Some? && Find(d.pairs, k).Some? {
        NumbersAdd(shape.elem, Find(s.pairs, k).v, Find(d.pairs, k).v, path[1..]);
      }
    }
  }

  lemma FieldNumbersAdd(shape: Shape, s: Sum, d: Sum, i: nat, path: seq<Step>)
    requires shape.Fields? && Fits(shape, s) && Fits(shape, d) && s.fields != [] && d.fields != []
    ensures var r := Add(shape, s, d);
      && r.Tup? && |r.fields| == |s.fields| == |d.fields| == |shape.shapes|
      && (i < |shape.shapes| ==> r.fields[i] == Add(shape.shapes[i], s.fields[i], d.fields[i]))
  {
    if i < |shape.shapes| { FieldOf(shape, s, d, i); }
  }

  /** Keys of another type are in neither map nor in the sum. */
  lemma KeyNumbersAdd(shape: Shape, s: seq<Pair>, d: seq<Pair>, k: Value)
    requires IsMap(shape, s) && IsMap(shape, d)
    ensures (Find(s, k).Some? ==> Fits(shape.elem, Find(s, k).v)) && (Find(d, k).Some? ==> Fits(shape.elem, Find(d, k).v))
    ensures Find(Merge(shape, s, d), k) == Both(shape.elem, Find(s, k), Find(d, k))
  {
    if Typed(shape.key, k) {
      FindMerge(shape, s, d, k);
    } else {
      MergeFits(shape, s, d);
      FindFits(shape, s, k);
      FindFits(shape, d, k);
      FindFits(shape, Merge(shape, s, d), k);
    }
  }

  /** All numbers in a value together. */
  function Amount(v: Sum): (n: int) {
    match v
    case Total(n) => n
    case Tup(fields) => AmountOf(fields)
    case Pairs(pairs) => AmountIn(pairs)
  }

  function AmountOf(fields: seq<Sum>): (n: int) {
    if fields == [] then 0 else Amount(fields[0]) + AmountOf(fields[1..])
  }

  function AmountIn(pairs: seq<Pair>): (n: int) {
    if pairs == [] then 0 else AmountAt(pairs[0]) + AmountIn(pairs[1..])
  }

  function AmountAt(pair: Pair): (n: int) {
    Amount(pair.1)
  }

  /** Nothing is lost and nothing is counted twice. */
  lemma {:induction false} AmountsAdd(shape: Shape, s: Sum, d: Sum)
    requires Fits(shape, s) && Fits(shape, d)
    ensures Amount(Add(shape, s, d)) == Amount(s) + Amount(d)
    decreases shape, 1, 0
  {
    match shape
    case Number =>
    case Fields(shapes) =>
      if s.fields != [] && d.fields != [] {
        FieldAmountsAdd(shape, s, d, 0);
        assert s.fields[0..] == s.fields && d.fields[0..] == d.fields;
      }
    case MapOf(_, _) => MergeAmountsAdd(shape, s.pairs, d.pairs);
  }

  lemma {:induction false} FieldAmountsAdd(shape: Shape, s: Sum, d: Sum, i: nat)
    requires shape.Fields? && Fits(shape, s) && Fits(shape, d) && s.fields != [] && d.fields != [] && i <= |shape.shapes|
    ensures AmountOf(AddFields(shape, s, d, i)) == AmountOf(s.fields[i..]) + AmountOf(d.fields[i..])
    decreases shape, 0, |shape.shapes| - i
  {
    if i < |shape.shapes| {
      AmountsAdd(shape.shapes[i], s.fields[i], d.fields[i]);
      FieldAmountsAdd(shape, s, d, i + 1);
      AmountFirst(s.fields, i);
      AmountFirst(d.fields, i);
      AmountCons(Add(shape.shapes[i], s.fields[i], d.fields[i]), AddFields(shape, s, d, i + 1));
    }
  }

  lemma AmountFirst(fields: seq<Sum>, i: nat)
    requires i < |fields|
    ensures AmountOf(fields[i..]) == Amount(fields[i]) + AmountOf(fields[i + 1..])
  {
    assert fields[i..][1..] == fields[i + 1..];
  }

  lemma AmountCons(v: Sum, fields: seq<Sum>)
    ensures AmountOf([v] + fields) == Amount(v) + AmountOf(fields)
  {
    assert ([v] + fields)[1..] == fields;
  }

  lemma {:induction false} MergeAmountsAdd(shape: Shape, s: seq<Pair>, d: seq<Pair>)
    requires IsMap(shape, s) && IsMap(shape, d)
    ensures AmountIn(Merge(shape, s, d)) == AmountIn(s) + AmountIn(d)
    decreases shape, 0, |s| + |d|
  {
    if s != [] && d != [] {
      var c := Cmp(shape.key, s[0].0, d[0].0);
      RestIsMap(shape, s);
      RestIsMap(shape, d);
      if c < 0 {
        MergeAmountsAdd(shape, s[1..], d);
        AmountMore(s[0], Merge(shape, s[1..], d));
      } else if c > 0 {
        MergeAmountsAdd(shape, s, d[1..]);
        AmountMore(d[0], Merge(shape, s, d[1..]));
      } else {
        MergeAmountsAdd(shape, s[1..], d[1..]);
        AmountsAdd(shape.elem, s[0].1, d[0].1);
        AmountMore((d[0].0, Add(shape.elem, s[0].1, d[0].1)), Merge(shape, s[1..], d[1..]));
      }
    }
  }

  lemma AmountMore(p: Pair, pairs: seq<Pair>)
    ensures AmountIn([p] + pairs) == Amount(p.1) + AmountIn(pairs)
  {
    assert ([p] + pairs)[1..] == pairs;
  }

  // --------------------------------------------------------------------------- the two passes

  /** Where a pair of the sum comes from. */
  datatype Origin = FromS(i: nat) | FromD(j: nat) | FromBoth(i: nat, j: nat)

  /** The targets of the first pass so far: `sT` and `dT` say where pairs go, `copy` which of `s` are new keys. */
  datatype Targets = Targets(sT: seq<nat>, dT: seq<nat>, copy: seq<bool>)

  ghost predicate IsJoined(elem: Shape, a: Pair, b: Pair, pair: Pair) {
    Fits(elem, a.1) && Fits(elem, b.1) && pair == (b.0, Add(elem, a.1, b.1))
  }

  /** The pair at position `p` of the sum is what its origin says. */
  ghost predicate OriginOk(shape: Shape, s: seq<Pair>, d: seq<Pair>, t: Targets, origin: seq<Origin>, sum: seq<Pair>, p: int) {
    0 <= p < |sum| == |origin| && shape.MapOf? && |t.copy| == |t.sT| <= |s| && |t.dT| <= |d| ==>
      match origin[p]
      case FromS(i) => i < |t.sT| && t.sT[i] == p && t.copy[i] && sum[p] == s[i]
      case FromD(j) => j < |t.dT| && t.dT[j] == p && sum[p] == d[j]
      case FromBoth(i, j) => i < |t.sT| && j < |t.dT| && t.sT[i] == p && t.dT[j] == p && !t.copy[i] && IsJoined(shape.elem, s[i], d[j], sum[p])
  }

  /** Pair `i` of `s` goes to a position that comes from it, pair `j` of `d` likewise. */
  ghost predicate SourceOk(t: Targets, origin: seq<Origin>, i: int) {
    0 <= i < |t.sT| ==> t.sT[i] < |origin| && match origin[t.sT[i]] case FromS(k) => k == i case FromBoth(k, _) => k == i case _ => false
  }

  ghost predicate DestOk(t: Targets, origin: seq<Origin>, j: int) {
    0 <= j < |t.dT| ==> t.dT[j] < |origin| && match origin[t.dT[j]] case FromD(k) => k == j case FromBoth(_, k) => k == j case _ => false
  }

  ghost predicate Placed(shape: Shape, s: seq<Pair>, d: seq<Pair>, t: Targets, origin: seq<Origin>, sum: seq<Pair>) {
    && shape.MapOf? && |t.copy| == |t.sT| <= |s| && |t.dT| <= |d| && |origin| == |sum|
    && (forall p {:trigger OriginOk(shape, s, d, t, origin, sum, p)} :: OriginOk(shape, s, d, t, origin, sum, p))
    && (forall i {:trigger SourceOk(t, origin, i)} :: SourceOk(t, origin, i))
    && (forall j {:trigger DestOk(t, origin, j)} :: DestOk(t, origin, j))
    && (forall j, k :: 0 <= j < k < |t.dT| ==> t.dT[j] < t.dT[k])
  }

  /** Take the next pair of `s` alone, of `d` alone, or both. */
  function Next(t: Targets, n: nat, fromS: bool, fromD: bool): (r: Targets) {
    Targets(if fromS then t.sT + [n] else t.sT, if fromD then t.dT + [n] else t.dT, if fromS then t.copy + [!fromD] else t.copy)
  }

  /** The origin and the pair of the next position. */
  ghost predicate IsNext(shape: Shape, s: seq<Pair>, d: seq<Pair>, t: Targets, fromS: bool, fromD: bool, o: Origin, pair: Pair) {
    && shape.MapOf? && (fromS || fromD) && (fromS ==> |t.sT| < |s|) && (fromD ==> |t.dT| < |d|)
    && if fromS && fromD then o == FromBoth(|t.sT|, |t.dT|) && IsJoined(shape.elem, s[|t.sT|], d[|t.dT|], pair)
       else if fromS then o == FromS(|t.sT|) && pair == s[|t.sT|]
       else o == FromD(|t.dT|) && pair == d[|t.dT|]
  }

  lemma PlaceNext(shape: Shape, s: seq<Pair>, d: seq<Pair>, t: Targets, origin: seq<Origin>, sum: seq<Pair>, fromS: bool, fromD: bool, o: Origin, pair: Pair)
    requires Placed(shape, s, d, t, origin, sum) && IsNext(shape, s, d, t, fromS, fromD, o, pair)
    ensures Placed(shape, s, d, Next(t, |sum|, fromS, fromD), origin + [o], sum + [pair])
  {
    var t', origin', sum' := Next(t, |sum|, fromS, fromD), origin + [o], sum + [pair];
    forall p ensures OriginOk(shape, s, d, t', origin', sum', p) { assert OriginOk(shape, s, d, t, origin, sum, p); }
    forall i ensures SourceOk(t', origin', i) { assert SourceOk(t, origin, i); }
    forall j ensures DestOk(t', origin', j) { assert DestOk(t, origin, j); }
    forall j, k | 0 <= j < k < |t'.dT| ensures t'.dT[j] < t'.dT[k] { assert DestOk(t, origin, j); }
  }

  /** What is left to merge completes the sum so far. */
  ghost predicate Completes(shape: Shape, s: seq<Pair>, d: seq<Pair>, si: nat, di: nat, sum: seq<Pair>) {
    && si <= |s| && di <= |d| && IsMap(shape, s) && IsMap(shape, d) && IsMap(shape, s[si..]) && IsMap(shape, d[di..])
    && Merge(shape, s, d) == sum + Merge(shape, s[si..], d[di..])
  }

  /** The first pass, part of the way; kept behind a trigger. */
  ghost predicate Passing(shape: Shape, s: seq<Pair>, d: seq<Pair>, t: Targets, origin: seq<Origin>, sum: seq<Pair>) {
    forall k {:trigger Key(SumFacts, k)} :: Key(SumFacts, k) ==> Placed(shape, s, d, t, origin, sum) && Completes(shape, s, d, |t.sT|, |t.dT|, sum)
  }

  lemma PassStarts(shape: Shape, s: seq<Pair>, d: seq<Pair>)
    requires IsMap(shape, s) && IsMap(shape, d)
    ensures Passing(shape, s, d, Targets([], [], []), [], [])
  {
    assert s[0..] == s && d[0..] == d;
  }

  /** Which array has the next key: negative for `s`, positive for `d`, 0 for both. */
  function Compare(key: Ops, s: seq<Pair>, d: seq<Pair>, si: nat, di: nat): (c: int)
    requires KeysIn(key, s) && KeysIn(key, d) && si <= |s| && di <= |d|
  {
    if si == |s| then 1 else if di == |d| then -1 else Cmp(key, s[si].0, d[di].0)
  }

  lemma PassStep(shape: Shape, s: seq<Pair>, d: seq<Pair>, t: Targets, origin: seq<Origin>, sum: seq<Pair>) returns (o: Origin, pair: Pair)
    requires IsMap(shape, s) && IsMap(shape, d) && |t.sT| <= |s| && |t.dT| <= |d|
    requires Passing(shape, s, d, t, origin, sum) && (|t.sT| < |s| || |t.dT| < |d|)
    ensures var c := Compare(shape.key, s, d, |t.sT|, |t.dT|);
      Passing(shape, s, d, Next(t, |sum|, c <= 0, c >= 0), origin + [o], sum + [pair])
  {
    PassingIs(shape, s, d, t, origin, sum);
    var c := Compare(shape.key, s, d, |t.sT|, |t.dT|);
    o := if c == 0 then FromBoth(|t.sT|, |t.dT|) else if c < 0 then FromS(|t.sT|) else FromD(|t.dT|);
    pair := Advance(shape, s, d, |t.sT|, |t.dT|, sum);
    PassesNext(shape, s, d, t, origin, sum, c <= 0, c >= 0, o, pair, Next(t, |sum|, c <= 0, c >= 0));
  }

  lemma PassesNext(shape: Shape, s: seq<Pair>, d: seq<Pair>, t: Targets, origin: seq<Origin>, sum: seq<Pair>, fromS: bool, fromD: bool, o: Origin, pair: Pair, u: Targets)
    requires Placed(shape, s, d, t, origin, sum) && IsNext(shape, s, d, t, fromS, fromD, o, pair) && u == Next(t, |sum|, fromS, fromD)
    requires Completes(shape, s, d, if fromS then |t.sT| + 1 else |t.sT|, if fromD then |t.dT| + 1 else |t.dT|, sum + [pair])
    ensures Passing(shape, s, d, u, origin + [o], sum + [pair])
  {
    PlaceNext(shape, s, d, t, origin, sum, fromS, fromD, o, pair);
    NextSizes(t, |sum|, fromS, fromD, u);
    PassesOn(shape, s, d, u, origin + [o], sum + [pair], |u.sT|, |u.dT|);
  }

  lemma NextSizes(t: Targets, n: nat, fromS: bool, fromD: bool, u: Targets)
    requires u == Next(t, n, fromS, fromD)
    ensures |u.sT| == (if fromS then |t.sT| + 1 else |t.sT|) && |u.dT| == if fromD then |t.dT| + 1 else |t.dT|
  {
  }

  lemma PassingIs(shape: Shape, s: seq<Pair>, d: seq<Pair>, t: Targets, origin: seq<Origin>, sum: seq<Pair>)
    requires Passing(shape, s, d, t, origin, sum)
    ensures Placed(shape, s, d, t, origin, sum) && Completes(shape, s, d, |t.sT|, |t.dT|, sum)
  {
    assert Key(SumFacts, 0);
  }

  lemma PassesOn(shape: Shape, s: seq<Pair>, d: seq<Pair>, t: Targets, origin: seq<Origin>, sum: seq<Pair>, si: nat, di: nat)
    requires Placed(shape, s, d, t, origin, sum) && Completes(shape, s, d, si, di, sum) && si == |t.sT| && di == |t.dT|
    ensures Passing(shape, s, d, t, origin, sum)
  {
  }

  lemma Advance(shape: Shape, s: seq<Pair>, d: seq<Pair>, si: nat, di: nat, sum: seq<Pair>) returns (pair: Pair)
    requires Completes(shape, s, d, si, di, sum) && (si < |s| || di < |d|)
    ensures var c := Compare(shape.key, s, d, si, di);
      && Completes(shape, s, d, if c <= 0 then si + 1 else si, if c >= 0 then di + 1 else di, sum + [pair])
      && (c < 0 ==> pair == s[si]) && (c > 0 ==> pair == d[di]) && (c == 0 ==> IsJoined(shape.elem, s[si], d[di], pair))
  {
    SliceHead(s, si);
    SliceHead(d, di);
    pair := MergeHead(shape, s[si..], d[di..]);
    var c := Compare(shape.key, s, d, si, di);
    var a, b := if c <= 0 then s[si + 1..] else s[si..], if c >= 0 then d[di + 1..] else d[di..];
    Associate(sum, pair, Merge(shape, a, b));
  }

  lemma SliceHead(s: seq<Pair>, i: nat)
    requires i <= |s|
    ensures i < |s| ==> s[i..][0] == s[i] && s[i..][1..] == s[i + 1..]
  {
  }

  lemma Associate(sum: seq<Pair>, pair: Pair, rest: seq<Pair>)
    ensures sum + ([pair] + rest) == sum + [pair] + rest
  {
  }

  /** The first pair of a merge, and what is left after it. */
  lemma MergeHead(shape: Shape, a: seq<Pair>, b: seq<Pair>) returns (pair: Pair)
    requires IsMap(shape, a) && IsMap(shape, b) && (a != [] || b != [])
    ensures var c := if a == [] then 1 else if b == [] then -1 else Cmp(shape.key, a[0].0, b[0].0);
      var a', b' := if c <= 0 then a[1..] else a, if c >= 0 then b[1..] else b;
      && (c < 0 ==> pair == a[0]) && (c > 0 ==> pair == b[0]) && (c == 0 ==> pair == (b[0].0, Add(shape.elem, a[0].1, b[0].1)))
      && IsMap(shape, a') && IsMap(shape, b') && Merge(shape, a, b) == [pair] + Merge(shape, a', b')
  {
    if a != [] { RestIsMap(shape, a); }
    if b != [] { RestIsMap(shape, b); }
    if a == [] {
      pair := b[0];
      assert b == [b[0]] + b[1..];
    } else if b == [] {
      pair := a[0];
      assert a == [a[0]] + a[1..];
    } else {
      var c := Cmp(shape.key, a[0].0, b[0].0);
      pair := if c < 0 then a[0] else if c > 0 then b[0] else (b[0].0, Add(shape.elem, a[0].1, b[0].1));
    }
  }

  lemma PassEnds(shape: Shape, s: seq<Pair>, d: seq<Pair>, t: Targets, origin: seq<Origin>, sum: seq<Pair>)
    requires IsMap(shape, s) && IsMap(shape, d) && Passing(shape, s, d, t, origin, sum) && |t.sT| == |s| && |t.dT| == |d|
    ensures Placed(shape, s, d, t, origin, sum) && sum == Merge(shape, s, d)
  {
    assert Key(SumFacts, 0);
    assert sum + [] == sum;
  }

  /** The first pass: compare keys, and note where each pair goes. */
  method FindTargets(shape: Shape, s: seq<Pair>, d: seq<Pair>) returns (t: Targets, n: nat, ghost origin: seq<Origin>)
    requires IsMap(shape, s) && IsMap(shape, d)
    ensures |t.sT| == |s| && |t.dT| == |d| && n == |Merge(shape, s, d)|
    ensures Placed(shape, s, d, t, origin, Merge(shape, s, d))
  {
    t, n, origin := Targets([], [], []), 0, [];
    ghost var sum: seq<Pair> := [];
    PassStarts(shape, s, d);
    while |t.sT| < |s| || |t.dT| < |d|
      invariant |t.sT| <= |s| && |t.dT| <= |d| && n == |sum| && Passing(shape, s, d, t, origin, sum)
      decreases |s| + |d| - |t.sT| - |t.dT|
    {
      var c := Compare(shape.key, s, d, |t.sT|, |t.dT|);
      ghost var o, pair := PassStep(shape, s, d, t, origin, sum);
      t := Next(t, n, c <= 0, c >= 0);
      n, origin, sum := n + 1, origin + [o], sum + [pair];
    }
    PassEnds(shape, s, d, t, origin, sum);
  }

  // ----------------------------------------------------------------------------- the second pass

  /** Cell `p` of the array once the first `n` pairs of `s` have been added. */
  ghost predicate CellOk(s: seq<Pair>, d: seq<Pair>, origin: seq<Origin>, sum: seq<Pair>, n: nat, vals: seq<Pair>, p: int) {
    0 <= p < |vals| == |origin| == |sum| ==>
      match origin[p]
      case FromS(i) => i < n ==> vals[p] == sum[p]
      case FromD(_) => vals[p] == sum[p]
      case FromBoth(i, j) => if i < n then vals[p] == sum[p] else j < |d| && vals[p] == d[j]
  }

  ghost predicate Filled(s: seq<Pair>, d: seq<Pair>, origin: seq<Origin>, sum: seq<Pair>, n: nat, vals: seq<Pair>) {
    |vals| == |sum| && forall p {:trigger CellOk(s, d, origin, sum, n, vals, p)} :: CellOk(s, d, origin, sum, n, vals, p)
  }

  /** The pairs of `d` at their targets are the start. */
  lemma FillStarts(shape: Shape, s: seq<Pair>, d: seq<Pair>, t: Targets, origin: seq<Origin>, sum: seq<Pair>, vals: seq<Pair>)
    requires Placed(shape, s, d, t, origin, sum) && |t.dT| == |d| && |vals| == |sum|
    requires forall j :: 0 <= j < |d| ==> t.dT[j] < |vals| && vals[t.dT[j]] == d[j]
    ensures Filled(s, d, origin, sum, 0, vals)
  {
    forall p ensures CellOk(s, d, origin, sum, 0, vals, p) { assert OriginOk(shape, s, d, t, origin, sum, p); }
  }

  lemma FillStep(shape: Shape, s: seq<Pair>, d: seq<Pair>, t: Targets, origin: seq<Origin>, sum: seq<Pair>, i: nat, vals: seq<Pair>)
    requires Placed(shape, s, d, t, origin, sum) && Filled(s, d, origin, sum, i, vals) && i < |t.sT|
    ensures t.sT[i] < |vals|
    ensures t.copy[i] ==> Filled(s, d, origin, sum, i + 1, vals[t.sT[i] := s[i]])
    ensures !t.copy[i] ==> Fits(shape.elem, s[i].1) && Fits(shape.elem, vals[t.sT[i]].1)
    ensures !t.copy[i] ==> Filled(s, d, origin, sum, i + 1, vals[t.sT[i] := (vals[t.sT[i]].0, Add(shape.elem, s[i].1, vals[t.sT[i]].1))])
  {
    var p, n := t.sT[i], i + 1;
    assert SourceOk(t, origin, i) && OriginOk(shape, s, d, t, origin, sum, p) && CellOk(s, d, origin, sum, i, vals, p);
    var after := if t.copy[i] then vals[p := s[i]] else vals[p := (vals[p].0, Add(shape.elem, s[i].1, vals[p].1))];
    forall q ensures CellOk(s, d, origin, sum, n, after, q) {
      assert CellOk(s, d, origin, sum, i, vals, q) && OriginOk(shape, s, d, t, origin, sum, q);
    }
  }

  lemma FillEnds(shape: Shape, s: seq<Pair>, d: seq<Pair>, t: Targets, origin: seq<Origin>, sum: seq<Pair>, vals: seq<Pair>)
    requires Placed(shape, s, d, t, origin, sum) && Filled(s, d, origin, sum, |s|, vals)
    ensures vals == sum
  {
    forall p | 0 <= p < |vals| ensures vals[p] == sum[p] {
      assert CellOk(s, d, origin, sum, |s|, vals, p) && OriginOk(shape, s, d, t, origin, sum, p);
    }
  }

  /** If the map does not grow, every pair of `d` is where it has to be. */
  lemma {:induction false} InPlace(t: Targets, n: nat, j: nat)
    requires |t.dT| == n && (forall j :: 0 <= j < n ==> t.dT[j] < n) && (forall j, k :: 0 <= j < k < n ==> t.dT[j] < t.dT[k]) && j < n
    ensures t.dT[j] == j
  {
    AtLeast(t.dT, j);
    AtMostPlace(t.dT, n, j);
  }

  lemma {:induction false} AtLeast(s: seq<nat>, j: nat)
    requires (forall j, k :: 0 <= j < k < |s| ==> s[j] < s[k]) && j < |s|
    ensures s[j] >= j
  {
    if j > 0 { AtLeast(s, j - 1); }
  }

  lemma {:induction false} AtMostPlace(s: seq<nat>, n: nat, j: nat)
    requires |s| == n && (forall j :: 0 <= j < n ==> s[j] < n) && (forall j, k :: 0 <= j < k < n ==> s[j] < s[k]) && j < n
    ensures s[j] <= j
    decreases n - j
  {
    if j + 1 < n { AtMostPlace(s, n, j + 1); }
  }

  lemma TargetsInside(shape: Shape, s: seq<Pair>, d: seq<Pair>, t: Targets, origin: seq<Origin>, sum: seq<Pair>)
    requires Placed(shape, s, d, t, origin, sum) && |t.dT| == |d|
    ensures |d| <= |sum| && forall j :: 0 <= j < |d| ==> t.dT[j] < |sum|
  {
    forall j | 0 <= j < |d| ensures t.dT[j] < |sum| { assert DestOk(t, origin, j); }
    if |d| > 0 { AtLeast(t.dT, |d| - 1); }
  }

  /** The pairs of `d` where they go: in a larger array if there are new keys, else where they are already. */
  method SpreadOut(shape: Shape, ghost s: seq<Pair>, d: array<Pair>, t: Targets, n: nat, ghost origin: seq<Origin>, ghost sum: seq<Pair>) returns (vals: array<Pair>)
    requires Placed(shape, s, d[..], t, origin, sum) && |t.dT| == d.Length && n == |sum|
    ensures if n > d.Length then fresh(vals) else vals == d
    ensures Filled(s, d[..], origin, sum, 0, vals[..])
  {
    TargetsInside(shape, s, d[..], t, origin, sum);
    if n > d.Length {
      vals := new Pair[n](_ => (Value.One(Num(0)), Total(0)));
      for i := 0 to d.Length
        invariant forall j :: 0 <= j < i ==> vals[t.dT[j]] == d[j]
      {
        vals[t.dT[i]] := d[i];
      }
    } else {
      vals := d;
      forall j | 0 <= j < d.Length ensures t.dT[j] == j { InPlace(t, n, j); }
    }
    FillStarts(shape, s, d[..], t, origin, sum, vals[..]);
  }

  /** Add the pairs of `s`; `d` is used for the sum unless it has grown. */
  method AddPairs(shape: Shape, s: seq<Pair>, d: array<Pair>) returns (r: array<Pair>)
    requires IsMap(shape, s) && IsMap(shape, d[..])
    modifies d
    ensures r[..] == Merge(shape, s, old(d[..]))
    ensures if |Merge(shape, s, old(d[..]))| > d.Length then fresh(r) else r == d
    decreases shape, 0
  {
    ghost var before := d[..];
    var t, n, origin := FindTargets(shape, s, d[..]);
    ghost var sum := Merge(shape, s, before);
    r := SpreadOut(shape, s, d, t, n, origin, sum);
    for i := 0 to |s|
      invariant Filled(s, before, origin, sum, i, r[..])
    {
      FillStep(shape, s, before, t, origin, sum, i, r[..]);
      var at := t.sT[i];
      if t.copy[i] {
        r[at] := s[i];
      } else {
        var v := AddSum(shape.elem, s[i].1, r[at].1);
        r[at] := (r[at].0, v);
      }
    }
    FillEnds(shape, s, before, t, origin, sum, r[..]);
  }

  /** Field by field. */
  method AddEach(shape: Shape, s: Sum, d: Sum) returns (fields: seq<Sum>)
    requires shape.Fields? && Fits(shape, s) && Fits(shape, d) && s.fields != [] && d.fields != []
    ensures fields == AddFields(shape, s, d, 0)
    decreases shape, 0
  {
    var shapes := shape.shapes;
    fields := d.fields;
    for i := 0 to |shapes|
      invariant |fields| == |shapes| && fields[i..] == d.fields[i..]
      invariant fields[..i] + AddFields(shape, s, d, i) == AddFields(shape, s, d, 0)
    {
      var v := AddSum(shapes[i], s.fields[i], d.fields[i]);
      ghost var before := fields;
      fields := fields[i := v];
      assert fields[..i + 1] == before[..i] + [v];
      assert fields[..i + 1] + AddFields(shape, s, d, i + 1) == before[..i] + ([v] + AddFields(shape, s, d, i + 1));
    }
  }

  /** `d += s` for every type that can be added. */
  method AddSum(shape: Shape, s: Sum, d: Sum) returns (r: Sum)
    requires Fits(shape, s) && Fits(shape, d)
    ensures r == Add(shape, s, d) && Amount(r) == Amount(s) + Amount(d)
    decreases shape, 1
  {
    AmountsAdd(shape, s, d);
    match shape
    case Number => r := Total(d.n + s.n);
    case Fields(shapes) =>
      if s.fields == [] {
        return d;
      }
      if d.fields == [] {
        return s;
      }
      var fields := AddEach(shape, s, d);
      r := Tup(fields);
    case MapOf(_, _) =>
      if s.pairs == [] {
        return d;
      }
      if d.pairs == [] {
        return s;
      }
      var vals := new Pair[|d.pairs|](i requires 0 <= i < |d.pairs| => d.pairs[i]);
      assert vals[..] == d.pairs;
      vals := AddPairs(shape, s.pairs, vals);
      r := Pairs(vals[..]);
  }
}

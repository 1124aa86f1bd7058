/**
 * The CountSketch behind a `top` table: rows of signed counters. The sketch is a linear image of the
 * weights it has been given, so it never loses any of them.
 */
module TopSketch {
  import opened ByteStrings
  import opened WeightTables

  /** Where a row of the sketch counts an element, and with which sign. */
  datatype Place = Place(col: nat, negative: bool)

  /** The hash bits of an element, row by row: any fixed function. */
  type Hash = (Bytes, nat) -> Place

  function Signed(negative: bool, w: int): (r: int) {
    if negative then -w else w
  }

  /** What weight `w` of element `e` adds to a cell. */
  function Share(place: Hash, e: Bytes, w: int, row: nat, col: nat): (r: int) {
    if place(e, row).col == col then Signed(place(e, row).negative, w) else 0
  }

  /** What a stream of weighted elements adds up to in a cell. */
  function Mass(place: Hash, s: seq<(Bytes, int)>, row: nat, col: nat): (r: int) {
    if s == [] then 0
    else Mass(place, s[..|s| - 1], row, col) + Share(place, s[|s| - 1].0, s[|s| - 1].1, row, col)
  }

  /** The net weight of an element in a stream. */
  function Net(s: seq<(Bytes, int)>, e: Bytes): (r: int) {
    if s == [] then 0
    else Net(s[..|s| - 1], e) + if s[|s| - 1].0 == e then s[|s| - 1].1 else 0
  }

  lemma {:induction false} NetConcat(s: seq<(Bytes, int)>, t: seq<(Bytes, int)>, e: Bytes)
    ensures Net(s + t, e) == Net(s, e) + Net(t, e)
  {
    if t == [] {
      assert s + t == s;
    } else {
      assert (s + t)[..|s + t| - 1] == s + t[..|t| - 1];
      NetConcat(s, t[..|t| - 1], e);
    }
  }

  lemma {:induction false} MassConcat(place: Hash, s: seq<(Bytes, int)>, t: seq<(Bytes, int)>, row: nat, col: nat)
    ensures Mass(place, s + t, row, col) == Mass(place, s, row, col) + Mass(place, t, row, col)
  {
    if t == [] {
      assert s + t == s;
    } else {
      assert (s + t)[..|s + t| - 1] == s + t[..|t| - 1];
      MassConcat(place, s, t[..|t| - 1], row, col);
    }
  }

  // ------------------------------------------------------------------ equal weights, equal cells

  function Without(s: seq<(Bytes, int)>, e: Bytes): (r: seq<(Bytes, int)>)
    ensures |r| <= |s|
    ensures s != [] && s[|s| - 1].0 == e ==> |r| < |s|
  {
    if s == [] then []
    else if s[|s| - 1].0 == e then Without(s[..|s| - 1], e)
    else Without(s[..|s| - 1], e) + [s[|s| - 1]]
  }

  lemma {:induction false} WithoutNet(s: seq<(Bytes, int)>, e: Bytes, f: Bytes)
    ensures Net(Without(s, e), f) == if f == e then 0 else Net(s, f)
  {
    if s != [] {
      WithoutNet(s[..|s| - 1], e, f);
      NetConcat(Without(s[..|s| - 1], e), [s[|s| - 1]], f);
    }
  }

  lemma {:induction false} WithoutMass(place: Hash, s: seq<(Bytes, int)>, e: Bytes, row: nat, col: nat)
    ensures Mass(place, s, row, col) == Mass(place, Without(s, e), row, col) + Share(place, e, Net(s, e), row, col)
  {
    if s != [] {
      WithoutMass(place, s[..|s| - 1], e, row, col);
      MassConcat(place, Without(s[..|s| - 1], e), [s[|s| - 1]], row, col);
    }
  }

  /** A cell adds up to nothing if no element that is counted there has a net weight. */
  lemma {:induction false} NetZeroMass(place: Hash, s: seq<(Bytes, int)>, row: nat, col: nat)
    requires forall e :: place(e, row).col == col ==> Net(s, e) == 0
    ensures Mass(place, s, row, col) == 0
    decreases |s|
  {
    if s != [] {
      var e := s[|s| - 1].0;
      forall f | place(f, row).col == col ensures Net(Without(s, e), f) == 0 { WithoutNet(s, e, f); }
      WithoutMass(place, s, e, row, col);
      NetZeroMass(place, Without(s, e), row, col);
    }
  }

  function Negated(s: seq<(Bytes, int)>): (r: seq<(Bytes, int)>) {
    if s == [] then [] else Negated(s[..|s| - 1]) + [(s[|s| - 1].0, -s[|s| - 1].1)]
  }

  lemma {:induction false} NegatedNet(s: seq<(Bytes, int)>, e: Bytes)
    ensures Net(Negated(s), e) == -Net(s, e)
  {
    if s != [] {
      NegatedNet(s[..|s| - 1], e);
      NetConcat(Negated(s[..|s| - 1]), [(s[|s| - 1].0, -s[|s| - 1].1)], e);
    }
  }

  lemma {:induction false} NegatedMass(place: Hash, s: seq<(Bytes, int)>, row: nat, col: nat)
    ensures Mass(place, Negated(s), row, col) == -Mass(place, s, row, col)
  {
    if s != [] {
      NegatedMass(place, s[..|s| - 1], row, col);
      MassConcat(place, Negated(s[..|s| - 1]), [(s[|s| - 1].0, -s[|s| - 1].1)], row, col);
    }
  }

  /** Streams that give every element the same net weight look the same to every cell. */
  lemma SameNetSameMass(place: Hash, s: seq<(Bytes, int)>, t: seq<(Bytes, int)>, row: nat, col: nat)
    requires forall e :: Net(s, e) == Net(t, e)
    ensures Mass(place, s, row, col) == Mass(place, t, row, col)
  {
    forall e ensures Net(s + Negated(t), e) == 0 {
      NetConcat(s, Negated(t), e);
      NegatedNet(t, e);
    }
    NetZeroMass(place, s + Negated(t), row, col);
    MassConcat(place, s, Negated(t), row, col);
    NegatedMass(place, t, row, col);
  }

  // ------------------------------------------------------------------------------- the estimate

  function InsertInt(s: seq<int>, x: int): (r: seq<int>) {
    if s == [] || s[|s| - 1] <= x then s + [x] else InsertInt(s[..|s| - 1], x) + [s[|s| - 1]]
  }

  function SortInts(s: seq<int>): (r: seq<int>)
    ensures |r| == |s|
  {
    if s == [] then [] else var r := InsertInt(SortInts(s[..|s| - 1]), s[|s| - 1]); InsertLength(SortInts(s[..|s| - 1]), s[|s| - 1]); r
  }

  lemma {:induction false} InsertLength(s: seq<int>, x: int)
    ensures |InsertInt(s, x)| == |s| + 1
  {
    if !(s == [] || s[|s| - 1] <= x) { InsertLength(s[..|s| - 1], x); }
  }

  ghost predicate Ascending(s: seq<int>) {
    forall i, j :: 0 <= i < j < |s| ==> s[i] <= s[j]
  }

  function Occurs(s: seq<int>, x: int): (n: nat)
    ensures n <= |s|
  {
    if s == [] then 0 else Occurs(s[..|s| - 1], x) + if s[|s| - 1] == x then 1 else 0
  }

  lemma {:induction false} InsertOccurs(s: seq<int>, x: int, y: int)
    ensures Occurs(InsertInt(s, x), y) == Occurs(s, y) + if x == y then 1 else 0
  {
    if s == [] || s[|s| - 1] <= x {
      assert (s + [x])[..|s|] == s;
    } else {
      InsertOccurs(s[..|s| - 1], x, y);
      var r := InsertInt(s[..|s| - 1], x);
      assert (r + [s[|s| - 1]])[..|r|] == r;
    }
  }

  lemma {:induction false} InsertAscending(s: seq<int>, x: int)
    requires Ascending(s)
    ensures Ascending(InsertInt(s, x))
    ensures forall i :: 0 <= i < |InsertInt(s, x)| ==> InsertInt(s, x)[i] <= if s == [] || s[|s| - 1] <= x then x else s[|s| - 1]
  {
    if !(s == [] || s[|s| - 1] <= x) { InsertAscending(s[..|s| - 1], x); }
  }

  lemma {:induction false} SortIntsSorts(s: seq<int>, y: int)
    ensures Ascending(SortInts(s)) && Occurs(SortInts(s), y) == Occurs(s, y)
  {
    if s != [] {
      SortIntsSorts(s[..|s| - 1], y);
      InsertAscending(SortInts(s[..|s| - 1]), s[|s| - 1]);
      InsertOccurs(SortInts(s[..|s| - 1]), s[|s| - 1], y);
    }
  }

  /** What `nth_element` puts in the middle. */
  function Median(s: seq<int>): (m: int)
    requires s != []
  {
    SortInts(s)[|s| / 2]
  }

  /** How many of the numbers are below `x`, and how many are above. */
  function Below(s: seq<int>, x: int): (n: nat) {
    if s == [] then 0 else Below(s[..|s| - 1], x) + if s[|s| - 1] < x then 1 else 0
  }

  function Above(s: seq<int>, x: int): (n: nat) {
    if s == [] then 0 else Above(s[..|s| - 1], x) + if s[|s| - 1] > x then 1 else 0
  }

  /** One of the numbers, with at most half of them below it and fewer than the other half above. */
  ghost predicate IsMiddle(s: seq<int>, m: int) {
    m in s && Below(s, m) <= |s| / 2 && Above(s, m) < |s| - |s| / 2
  }

  lemma {:induction false} InsertMembers(s: seq<int>, x: int, y: int)
    ensures Below(InsertInt(s, x), y) == Below(s, y) + if x < y then 1 else 0
    ensures Above(InsertInt(s, x), y) == Above(s, y) + if x > y then 1 else 0
    ensures y in InsertInt(s, x) ==> y == x || y in s
  {
    if s == [] || s[|s| - 1] <= x {
      assert (s + [x])[..|s|] == s;
    } else {
      InsertMembers(s[..|s| - 1], x, y);
      var r := InsertInt(s[..|s| - 1], x);
      assert (r + [s[|s| - 1]])[..|r|] == r;
    }
  }

  lemma {:induction false} SortMembers(s: seq<int>, y: int)
    ensures Below(SortInts(s), y) == Below(s, y) && Above(SortInts(s), y) == Above(s, y)
    ensures y in SortInts(s) ==> y in s
  {
    if s != [] {
      SortMembers(s[..|s| - 1], y);
      InsertMembers(SortInts(s[..|s| - 1]), s[|s| - 1], y);
    }
  }

  lemma {:induction false} BelowAt(t: seq<int>, mid: nat)
    requires Ascending(t) && mid < |t|
    ensures Below(t, t[mid]) <= mid && Above(t, t[mid]) < |t| - mid
  {
    BelowFirst(t, mid, |t|);
    assert t[..|t|] == t;
  }

  lemma {:induction false} BelowFirst(t: seq<int>, mid: nat, n: nat)
    requires Ascending(t) && mid < |t| && n <= |t|
    ensures Below(t[..n], t[mid]) <= mid && Above(t[..n], t[mid]) <= if n <= mid then 0 else n - mid - 1
    ensures n <= mid ==> Below(t[..n], t[mid]) <= n
  {
    if n > 0 {
      BelowFirst(t, mid, n - 1);
      assert t[..n][..n - 1] == t[..n - 1];
    }
  }

  lemma MedianIsMiddle(s: seq<int>)
    requires s != []
    ensures IsMiddle(s, Median(s))
  {
    var t, mid := SortInts(s), |s| / 2;
    SortIntsSorts(s, 0);
    SortMembers(s, t[mid]);
    BelowAt(t, mid);
  }

  /** There is only one such number. */
  lemma MiddleUnique(s: seq<int>, m: int, n: int)
    requires IsMiddle(s, m) && IsMiddle(s, n)
    ensures m == n
  {
    if m < n { BelowOrAbove(s, m, n); } else if n < m { BelowOrAbove(s, n, m); }
  }

  lemma {:induction false} BelowOrAbove(s: seq<int>, m: int, n: int)
    requires m < n
    ensures Below(s, n) + Above(s, m) >= |s|
  {
    if s != [] { BelowOrAbove(s[..|s| - 1], m, n); }
  }

  lemma {:induction false} OccursNot(s: seq<int>, x: int)
    requires forall i :: 0 <= i < |s| ==> s[i] != x
    ensures Occurs(s, x) == 0
  {
    if s != [] { OccursNot(s[..|s| - 1], x); }
  }

  lemma {:induction false} OccursConcat(s: seq<int>, t: seq<int>, x: int)
    ensures Occurs(s + t, x) == Occurs(s, x) + Occurs(t, x)
  {
    if t == [] {
      assert s + t == s;
    } else {
      assert (s + t)[..|s + t| - 1] == s + t[..|t| - 1];
      OccursConcat(s, t[..|t| - 1], x);
    }
  }

  lemma FewAbove(t: seq<int>, mid: nat, x: int)
    requires Ascending(t) && mid < |t| && t[mid] < x
    ensures Occurs(t, x) <= |t| - mid - 1
  {
    var low, high := t[..mid + 1], t[mid + 1..];
    assert t == low + high;
    OccursConcat(low, high, x);
    OccursNot(low, x);
  }

  lemma FewBelow(t: seq<int>, mid: nat, x: int)
    requires Ascending(t) && mid < |t| && t[mid] > x
    ensures Occurs(t, x) <= mid
  {
    var low, high := t[..mid], t[mid..];
    assert t == low + high;
    OccursConcat(low, high, x);
    OccursNot(high, x);
  }

  /** A value that more than half of the numbers have is their median. */
  lemma MajorityMedian(s: seq<int>, x: int)
    requires s != [] && 2 * Occurs(s, x) > |s|
    ensures Median(s) == x
  {
    var t, mid := SortInts(s), |s| / 2;
    SortIntsSorts(s, x);
    if t[mid] < x {
      FewAbove(t, mid, x);
    } else if t[mid] > x {
      FewBelow(t, mid, x);
    }
  }

  // --------------------------------------------------------------------------------- the sketch

  type Cells = seq<seq<int>>

  /** Every element has one cell in each row. */
  ghost predicate InRange(place: Hash, tabSize: nat) {
    forall e, row {:trigger place(e, row)} :: place(e, row).col < tabSize
  }

  ghost predicate Shaped(w: Cells, nTabs: nat, tabSize: nat) {
    |w| == nTabs && forall row :: 0 <= row < nTabs ==> |w[row]| == tabSize
  }

  /** The cells hold what the stream `s` adds up to. */
  ghost predicate Sums(place: Hash, w: Cells, s: seq<(Bytes, int)>) {
    forall row, col :: 0 <= row < |w| && 0 <= col < |w[row]| ==> w[row][col] == Mass(place, s, row, col)
  }

  /** The first `n` rows have been given weight `v` of element `e`. */
  ghost predicate Entered(place: Hash, w0: Cells, w: Cells, n: nat, e: Bytes, v: int) {
    && |w| == |w0| && (forall row :: 0 <= row < |w| ==> |w[row]| == |w0[row]|)
    && (forall row, col :: 0 <= row < |w| && 0 <= col < |w[row]| ==>
          w[row][col] == w0[row][col] + if row < n then Share(place, e, v, row, col) else 0)
  }

  lemma EnteredSums(place: Hash, w0: Cells, w: Cells, e: Bytes, v: int, s: seq<(Bytes, int)>)
    requires Entered(place, w0, w, |w0|, e, v) && Sums(place, w0, s)
    ensures Sums(place, w, s + [(e, v)])
  {
    var t := s + [(e, v)];
    assert t[..|s|] == s;
    forall row: nat, col: nat | row < |w| && col < |w[row]| ensures w[row][col] == Mass(place, t, row, col) {
      assert w0[row][col] == Mass(place, s, row, col);
    }
  }

  method AddSubCells(place: Hash, w0: Cells, e: Bytes, value: int, isAdd: bool) returns (w: Cells)
    requires forall row :: 0 <= row < |w0| ==> place(e, row).col < |w0[row]|
    ensures Entered(place, w0, w, |w0|, e, if isAdd then value else -value)
  {
    w := w0;
    for i := 0 to |w0|
      invariant Entered(place, w0, w, i, e, if isAdd then value else -value)
    {
      var at := place(e, i);
      if at.negative == isAdd {
        w := w[i := w[i][at.col := w[i][at.col] - value]];
      } else {
        w := w[i := w[i][at.col := w[i][at.col] + value]];
      }
    }
  }

  /** The cells of the first `n` rows are sums of those in `a` and `b`. */
  ghost predicate AddedUp(a: Cells, b: Cells, n: nat, w: Cells) {
    && |w| == |a| == |b|
    && (forall row :: 0 <= row < |w| ==> |w[row]| == |a[row]| == |b[row]|)
    && (forall row, col :: 0 <= row < |w| && 0 <= col < |w[row]| ==>
          w[row][col] == a[row][col] + if row < n then b[row][col] else 0)
  }

  lemma AddedUpSums(place: Hash, a: Cells, b: Cells, w: Cells, s: seq<(Bytes, int)>, t: seq<(Bytes, int)>)
    requires AddedUp(a, b, |a|, w) && Sums(place, a, s) && Sums(place, b, t)
    ensures Sums(place, w, s + t)
  {
    forall row: nat, col: nat | row < |w| && col < |w[row]| ensures w[row][col] == Mass(place, s + t, row, col) {
      assert a[row][col] == Mass(place, s, row, col) && b[row][col] == Mass(place, t, row, col);
      MassConcat(place, s, t, row, col);
    }
  }

  method AddCells(a: Cells, b: Cells, tabSize: nat) returns (w: Cells)
    requires Shaped(a, |a|, tabSize) && Shaped(b, |a|, tabSize)
    ensures AddedUp(a, b, |a|, w)
  {
    w := a;
    for i := 0 to |a|
      invariant AddedUp(a, b, i, w)
    {
      var row := AddRow(w[i], b[i]);
      w := w[i := row];
    }
  }

  method AddRow(a: seq<int>, b: seq<int>) returns (r: seq<int>)
    requires |a| == |b|
    ensures |r| == |a| && forall j :: 0 <= j < |a| ==> r[j] == a[j] + b[j]
  {
    r := a;
    for j := 0 to |a|
      invariant |r| == |a|
      invariant forall k :: 0 <= k < |a| ==> r[k] == if k < j then a[k] + b[k] else a[k]
    {
      r := r[j := r[j] + b[j]];
    }
  }

  /** The cells of an element with their signs corrected, one for each row. */
  ghost predicate Readings(place: Hash, w: Cells, e: Bytes, values: seq<int>) {
    && |values| == |w|
    && (forall row :: 0 <= row < |w| ==>
          place(e, row).col < |w[row]| && values[row] == Signed(place(e, row).negative, w[row][place(e, row).col]))
  }

  method Read(place: Hash, w: Cells, e: Bytes) returns (values: seq<int>)
    requires forall row :: 0 <= row < |w| ==> place(e, row).col < |w[row]|
    ensures Readings(place, w, e, values)
  {
    values := [];
    for i := 0 to |w|
      invariant |values| == i
      invariant forall row :: 0 <= row < i ==> values[row] == Signed(place(e, row).negative, w[row][place(e, row).col])
    {
      var at := place(e, i);
      values := values + [if at.negative then -w[i][at.col] else w[i][at.col]];
    }
  }

  // ------------------------------------------------------------------------ exactness by majority

  /** No other element with a weight of its own shares the cell of `e` in this row. */
  ghost predicate Clean(place: Hash, s: seq<(Bytes, int)>, e: Bytes, row: nat) {
    forall f :: f != e && Net(s, f) != 0 ==> place(f, row).col != place(e, row).col
  }

  ghost function CleanRows(place: Hash, s: seq<(Bytes, int)>, e: Bytes, n: nat): (r: nat) {
    if n == 0 then 0 else CleanRows(place, s, e, n - 1) + if Clean(place, s, e, n - 1) then 1 else 0
  }

  lemma {:induction false} SameClean(place: Hash, s: seq<(Bytes, int)>, t: seq<(Bytes, int)>, e: Bytes, n: nat)
    requires forall f :: Net(s, f) == Net(t, f)
    ensures CleanRows(place, s, e, n) == CleanRows(place, t, e, n)
  {
    if n > 0 {
      SameClean(place, s, t, e, n - 1);
      assert Clean(place, s, e, n - 1) == Clean(place, t, e, n - 1);
    }
  }

  /** A clean cell holds the weight of its element, with the sign of the cell. */
  lemma CleanCell(place: Hash, s: seq<(Bytes, int)>, e: Bytes, row: nat)
    requires Clean(place, s, e, row)
    ensures Mass(place, s, row, place(e, row).col) == Signed(place(e, row).negative, Net(s, e))
  {
    var t, col := Without(s, e), place(e, row).col;
    forall f | place(f, row).col == col ensures Net(t, f) == 0 {
      WithoutNet(s, e, f);
    }
    NetZeroMass(place, t, row, col);
    WithoutMass(place, s, e, row, col);
  }

  /** What the rows say about an element after `s`, as a function of `s`. */
  function Readout(place: Hash, nTabs: nat, s: seq<(Bytes, int)>, e: Bytes): (values: seq<int>)
    ensures |values| == nTabs
    ensures forall row :: 0 <= row < nTabs ==> values[row] == Signed(place(e, row).negative, Mass(place, s, row, place(e, row).col))
  {
    seq(nTabs, row requires 0 <= row < nTabs => Signed(place(e, row).negative, Mass(place, s, row, place(e, row).col)))
  }

  /** What weight `w` of element `f` does to what a row says about `e`: its own sign against that of `e`. */
  lemma ReadingMoves(place: Hash, nTabs: nat, s: seq<(Bytes, int)>, e: Bytes, f: Bytes, w: int, row: nat)
    requires row < nTabs
    ensures Readout(place, nTabs, s + [(f, w)], e)[row] - Readout(place, nTabs, s, e)[row] ==
      if place(f, row).col != place(e, row).col then 0 else if place(f, row).negative == place(e, row).negative then w else -w
  {
    assert (s + [(f, w)])[..|s|] == s;
  }

  /** The estimate for an element after `s`. */
  function Estimated(place: Hash, nTabs: nat, s: seq<(Bytes, int)>, e: Bytes): (est: int)
    requires nTabs > 0
  {
    Median(Readout(place, nTabs, s, e))
  }

  lemma ReadingsAre(place: Hash, w: Cells, s: seq<(Bytes, int)>, e: Bytes, values: seq<int>)
    requires Sums(place, w, s) && Readings(place, w, e, values)
    ensures values == Readout(place, |w|, s, e)
  {
    forall row | 0 <= row < |w| ensures values[row] == Readout(place, |w|, s, e)[row] {
      assert w[row][place(e, row).col] == Mass(place, s, row, place(e, row).col);
    }
  }

  lemma {:induction false} CleanReadings(place: Hash, s: seq<(Bytes, int)>, e: Bytes, values: seq<int>, n: nat)
    requires n <= |values| && values == Readout(place, |values|, s, e)
    ensures Occurs(values[..n], Net(s, e)) >= CleanRows(place, s, e, n)
  {
    if n > 0 {
      CleanReadings(place, s, e, values, n - 1);
      assert values[..n][..n - 1] == values[..n - 1];
      if Clean(place, s, e, n - 1) { CleanCell(place, s, e, n - 1); }
    }
  }

  /** If more than half of the rows are clean for `e`, the estimate is exact. */
  lemma MajorityExact(place: Hash, nTabs: nat, s: seq<(Bytes, int)>, e: Bytes)
    requires nTabs > 0 && 2 * CleanRows(place, s, e, nTabs) > nTabs
    ensures Estimated(place, nTabs, s, e) == Net(s, e)
  {
    var values := Readout(place, nTabs, s, e);
    CleanReadings(place, s, e, values, nTabs);
    assert values[..nTabs] == values;
    MajorityMedian(values, Net(s, e));
  }

  /** How many of the numbers are within `d` of `x`. */
  function Within(s: seq<int>, x: int, d: nat): (n: nat) {
    if s == [] then 0 else Within(s[..|s| - 1], x, d) + if x - d <= s[|s| - 1] <= x + d then 1 else 0
  }

  lemma {:induction false} WithinSide(s: seq<int>, x: int, d: nat, m: int)
    ensures m > x + d ==> Within(s, x, d) <= Below(s, m)
    ensures m < x - d ==> Within(s, x, d) <= Above(s, m)
  {
    if s != [] { WithinSide(s[..|s| - 1], x, d, m); }
  }

  /** If in more than half of the rows what else is in the cell adds up to no more than `d`, the estimate is off by no more. */
  lemma MajorityClose(place: Hash, nTabs: nat, s: seq<(Bytes, int)>, e: Bytes, d: nat)
    requires nTabs > 0 && 2 * Within(Readout(place, nTabs, s, e), Net(s, e), d) > nTabs
    ensures Net(s, e) - d <= Estimated(place, nTabs, s, e) <= Net(s, e) + d
  {
    var values := Readout(place, nTabs, s, e);
    MedianIsMiddle(values);
    WithinSide(values, Net(s, e), d, Median(values));
  }

  class Sketch {
    const nTabs: nat
    const tabSize: nat
    const place: Hash
    var w: Cells
    /** Everything ever added, with what was taken away as negative weights. */
    ghost var swept: seq<(Bytes, int)>

    ghost predicate Valid() reads this {
      nTabs > 0 && InRange(place, tabSize) && Shaped(w, nTabs, tabSize) && Sums(place, w, swept)
    }

    constructor (nTabs: nat, tabSize: nat, place: Hash)
      requires nTabs > 0 && InRange(place, tabSize)
      ensures Valid() && swept == []
      ensures this.nTabs == nTabs && this.tabSize == tabSize && this.place == place
    {
      this.nTabs, this.tabSize, this.place := nTabs, tabSize, place;
      w := seq(nTabs, _ => seq(tabSize, _ => 0));
      swept := [];
    }

    /** Adjust every row for the element: add its weight, or take it away. */
    method AddSub(e: Bytes, value: int, isAdd: bool)
      requires Valid()
      modifies this
      ensures Valid() && swept == old(swept) + [(e, if isAdd then value else -value)]
    {
      w := AddSubCells(place, w, e, value, isAdd);
      EnteredSums(place, old(w), w, e, if isAdd then value else -value, swept);
      swept := swept + [(e, if isAdd then value else -value)];
    }

    /** The median of the signed cells of the element. */
    method Estimate(e: Bytes) returns (est: int)
      requires Valid()
      ensures est == Estimated(place, nTabs, swept, e)
      ensures IsMiddle(Readout(place, nTabs, swept, e), est)
      ensures 2 * CleanRows(place, swept, e, nTabs) > nTabs ==> est == Net(swept, e)
    {
      var values := Read(place, w, e);
      ReadingsAre(place, w, swept, e, values);
      est := Median(values);
      MedianIsMiddle(values);
      if 2 * CleanRows(place, swept, e, nTabs) > nTabs {
        MajorityExact(place, nTabs, swept, e);
      }
    }

    method AddSketch(other: Sketch)
      requires Valid() && other.Valid() && other != this
      requires other.nTabs == nTabs && other.tabSize == tabSize && other.place == place
      modifies this
      ensures Valid() && swept == old(swept) + other.swept
    {
      w := AddCells(w, other.w, tabSize);
      AddedUpSums(place, old(w), other.w, w, swept, other.swept);
      swept := swept + other.swept;
    }

    /** Take over the cells of a flushed sketch. */
    method Decode(cells: Cells, ghost s: seq<(Bytes, int)>)
      requires nTabs > 0 && InRange(place, tabSize)
      requires Shaped(cells, nTabs, tabSize) && Sums(place, cells, s)
      modifies this
      ensures Valid() && swept == s
    {
      w, swept := cells, s;
    }
  }
}

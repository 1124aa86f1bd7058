/**
 * When a `top` table is exact: if no weight is negative and most rows tell the elements of the stream apart, a
 * table that is only added to holds the heaviest elements with their weights, whatever went through its sketch.
 */
module TopExact {
  import opened Sealing
  import opened ByteStrings
  import opened TabEntry
  import opened WeightTables
  import opened TopHeap
  import opened TopSketch
  import opened TopTable

  /** No other of the elements shares a cell with `e` in this row. */
  ghost predicate Alone(place: Hash, elems: set<Bytes>, e: Bytes, row: nat) {
    forall f :: f in elems && f != e ==> place(f, row).col != place(e, row).col
  }

  ghost function AloneRows(place: Hash, elems: set<Bytes>, e: Bytes, n: nat): (r: nat) {
    if n == 0 then 0 else AloneRows(place, elems, e, n - 1) + if Alone(place, elems, e, n - 1) then 1 else 0
  }

  /** Each of the elements is alone in most rows. */
  ghost predicate ToldApart(place: Hash, nTabs: nat, elems: set<Bytes>) {
    forall e :: e in elems ==> 2 * AloneRows(place, elems, e, nTabs) > nTabs
  }

  lemma {:induction false} AloneIsClean(place: Hash, elems: set<Bytes>, s: seq<(Bytes, int)>, e: Bytes, n: nat)
    requires forall y :: Net(s, y) != 0 ==> y in elems
    ensures AloneRows(place, elems, e, n) <= CleanRows(place, s, e, n)
  {
    if n > 0 {
      AloneIsClean(place, elems, s, e, n - 1);
      if Alone(place, elems, e, n - 1) { assert Clean(place, s, e, n - 1); }
    }
  }

  /** So what the sketch says of it is right. */
  lemma SketchExact(place: Hash, nTabs: nat, elems: set<Bytes>, s: seq<(Bytes, int)>, e: Bytes)
    requires nTabs > 0 && ToldApart(place, nTabs, elems) && e in elems && forall y :: Net(s, y) != 0 ==> y in elems
    ensures Estimated(place, nTabs, s, e) == Net(s, e)
  {
    AloneIsClean(place, elems, s, e, nTabs);
    MajorityExact(place, nTabs, s, e);
  }

  /** A candidate has its exact weight, and of any other element all is in the sketch. */
  ghost predicate ExactAt(elems: set<Bytes>, a: State, s: seq<(Bytes, int)>, y: Bytes) {
    && Net(s, y) >= 0 && (Net(a.s, y) != 0 ==> y in elems)
    && if y in a.m then a.m[y] == Net(s, y) && Net(a.s, y) == 0 else Net(a.s, y) == Net(s, y)
  }

  ghost predicate NoHeavier(a: State, s: seq<(Bytes, int)>, y: Bytes, u: Bytes) {
    y !in a.m && u in a.m ==> Net(s, y) <= a.m[u]
  }

  /** The weights of candidates are exact, and no other element is heavier than any of them. */
  ghost predicate Exact(max: nat, elems: set<Bytes>, a: State, s: seq<(Bytes, int)>) {
    && |a.h| == |a.m| <= max && a.m.Keys <= elems && a.m.Keys <= Totals(s).Keys
    && (|a.m| < max ==> a.m == Totals(s))
    && (forall y {:trigger ExactAt(elems, a, s, y)} :: ExactAt(elems, a, s, y))
    && (forall y, u {:trigger NoHeavier(a, s, y, u)} :: NoHeavier(a, s, y, u))
  }

  ghost predicate IsEmpty(a: State) {
    |a.m| == 0 && |a.h| == 0 && |a.s| == 0
  }

  lemma StartsExact(max: nat, elems: set<Bytes>, a: State)
    requires IsEmpty(a)
    ensures Exact(max, elems, a, [])
  {
  }

  /** Elements of the set, with weights that are not negative. */
  ghost predicate Counts(elems: set<Bytes>, s: seq<(Bytes, int)>) {
    forall i :: 0 <= i < |s| ==> Counted(elems, s, i)
  }

  predicate Counted(elems: set<Bytes>, s: seq<(Bytes, int)>, i: nat)
    requires i < |s|
  {
    s[i].0 in elems && s[i].1 >= 0
  }

  lemma StepExact(place: Hash, nTabs: nat, max: nat, elems: set<Bytes>, a: State, s: seq<(Bytes, int)>, e: Bytes, w: nat, b: State)
    requires nTabs > 0 && max > 0 && ToldApart(place, nTabs, elems) && e in elems
    requires Exact(max, elems, a, s) && Took(place, nTabs, max, a, e, w, b)
    ensures Exact(max, elems, b, s + [(e, w)])
  {
    assert Key(EntryFacts, 0);
    if e in a.m {
      KnownExact(max, elems, a, s, e, w, b);
    } else if |a.h| < max {
      NewExact(max, elems, a, s, e, w, b);
    } else {
      forall y ensures Net(a.s, y) != 0 ==> y in elems { assert ExactAt(elems, a, s, y); }
      SketchExact(place, nTabs, elems, a.s, e);
      assert ExactAt(elems, a, s, e);
      if a.h[0].weight <= w + Net(s, e) {
        WonExact(place, nTabs, max, elems, a, s, e, w, b);
      } else {
        LostExact(max, elems, a, s, e, w, b);
      }
    }
  }

  lemma KnownExact(max: nat, elems: set<Bytes>, a: State, s: seq<(Bytes, int)>, e: Bytes, w: nat, b: State)
    requires Exact(max, elems, a, s) && e in a.m
    requires b.m == a.m[e := a.m[e] + w] && b.s == a.s && Reweighted(a.h, e, w, b.h)
    ensures Exact(max, elems, b, s + [(e, w)])
  {
    var s1 := s + [(e, w)];
    OneMore(s, e, w);
    MapSame(a.m, e, a.m[e] + w);
    SameSize(a.h, e, w, b.h);
    forall y ensures ExactAt(elems, b, s1, y) { assert ExactAt(elems, a, s, y); }
    forall y, u ensures NoHeavier(b, s1, y, u) { assert NoHeavier(a, s, y, u); }
  }

  lemma SameSize(h0: seq<Elem>, e: Bytes, w: int, h: seq<Elem>)
    requires Reweighted(h0, e, w, h)
    ensures |h| == |h0|
  {
    assert Key(HeapFacts, 0);
  }

  lemma NewExact(max: nat, elems: set<Bytes>, a: State, s: seq<(Bytes, int)>, e: Bytes, w: nat, b: State)
    requires Exact(max, elems, a, s) && e !in a.m && e in elems && |a.h| < max
    requires b == State(a.m[e := w], Up(a.h + [Elem(e, w)], |a.h|), a.s)
    ensures Exact(max, elems, b, s + [(e, w)])
  {
    var s1 := s + [(e, w)];
    OneMore(s, e, w);
    MapGrows(a.m, e, w);
    forall y ensures ExactAt(elems, b, s1, y) {
      NetTotals(s, y);
      assert ExactAt(elems, a, s, y);
    }
    forall y, u ensures NoHeavier(b, s1, y, u) {
      NetTotals(s, y);
      assert ExactAt(elems, a, s, u);
    }
  }

  lemma LostExact(max: nat, elems: set<Bytes>, a: State, s: seq<(Bytes, int)>, e: Bytes, w: nat, b: State)
    requires Exact(max, elems, a, s) && e !in a.m && e in elems && |a.h| >= max > 0 && b == State(a.m, a.h, a.s + [(e, w)])
    requires a.h[0].value in a.m && IsLightest(a.m, a.h[0].value) && a.m[a.h[0].value] == a.h[0].weight && w + Net(s, e) < a.h[0].weight
    ensures Exact(max, elems, b, s + [(e, w)])
  {
    var s1 := s + [(e, w)];
    OneMore(s, e, w);
    OneMore(a.s, e, w);
    forall y ensures ExactAt(elems, b, s1, y) { assert ExactAt(elems, a, s, y); }
    forall y, u ensures NoHeavier(b, s1, y, u) { assert NoHeavier(a, s, y, u); }
  }

  lemma WonExact(place: Hash, nTabs: nat, max: nat, elems: set<Bytes>, a: State, s: seq<(Bytes, int)>, e: Bytes, w: nat, b: State)
    requires Exact(max, elems, a, s) && e !in a.m && e in elems && |a.h| >= max && Contended(place, nTabs, a, e, w, b)
    requires Estimated(place, nTabs, a.s, e) == Net(s, e) && a.h[0].weight <= w + Net(s, e)
    ensures Exact(max, elems, b, s + [(e, w)])
  {
    var s1, worst := s + [(e, w)], a.h[0];
    WonSizes(a, s, e, w, worst, b);
    forall y ensures ExactAt(elems, b, s1, y) {
      assert ExactAt(elems, a, s, y) && ExactAt(elems, a, s, worst.value) && ExactAt(elems, a, s, e);
      WonAt(elems, a, s, e, w, worst, b, y);
    }
    forall y, u ensures NoHeavier(b, s1, y, u) {
      assert NoHeavier(a, s, y, u) && NoHeavier(a, s, y, worst.value) && ExactAt(elems, a, s, worst.value);
      WonOver(a, s, e, w, worst, b, y, u);
    }
  }

  lemma WonSizes(a: State, s: seq<(Bytes, int)>, e: Bytes, w: nat, worst: Elem, b: State)
    requires e !in a.m && worst.value in a.m && a.m.Keys <= Totals(s).Keys && a.h != []
    requires b.m == (a.m - {worst.value})[e := w + Net(s, e)] && IsDown(a.h[0 := Elem(e, w + Net(s, e))], 0, |a.h|, b.h)
    ensures |b.m| == |a.m| && |b.h| == |a.h| && b.m.Keys <= a.m.Keys + {e} && b.m.Keys <= Totals(s + [(e, w)]).Keys
  {
    OneMore(s, e, w);
    SunkSize(a.h[0 := Elem(e, w + Net(s, e))], 0, |a.h|, b.h);
    MapShrinks(a.m, worst.value);
    MapGrows(a.m - {worst.value}, e, w + Net(s, e));
  }

  lemma WonOver(a: State, s: seq<(Bytes, int)>, e: Bytes, w: nat, worst: Elem, b: State, y: Bytes, u: Bytes)
    requires NoHeavier(a, s, y, u) && NoHeavier(a, s, y, worst.value) && e !in a.m && worst.value in a.m && IsLightest(a.m, worst.value)
    requires a.m[worst.value] == worst.weight == Net(s, worst.value) && worst.weight <= w + Net(s, e)
    requires b.m == (a.m - {worst.value})[e := w + Net(s, e)]
    ensures NoHeavier(b, s + [(e, w)], y, u)
  {
    OneMore(s, e, w);
  }

  lemma WonAt(elems: set<Bytes>, a: State, s: seq<(Bytes, int)>, e: Bytes, w: nat, worst: Elem, b: State, y: Bytes)
    requires ExactAt(elems, a, s, y) && ExactAt(elems, a, s, worst.value) && ExactAt(elems, a, s, e)
    requires e !in a.m && e in elems && worst.value in a.m && worst.value in elems && a.m[worst.value] == worst.weight
    requires b.m == (a.m - {worst.value})[e := w + Net(s, e)] && b.s == a.s + [(e, -Net(s, e))] + [(worst.value, worst.weight)]
    ensures ExactAt(elems, b, s + [(e, w)], y)
  {
    OneMore(s, e, w);
    Exchanged(a.s, e, -Net(s, e), worst.value, worst.weight, y);
  }

  lemma Exchanged(s: seq<(Bytes, int)>, e: Bytes, x: int, f: Bytes, z: int, y: Bytes)
    ensures Net(s + [(e, x)] + [(f, z)], y) == Net(s, y) + (if y == e then x else 0) + if y == f then z else 0
  {
    OneMore(s, e, x);
    OneMore(s + [(e, x)], f, z);
  }

  lemma SunkSize(s0: seq<Elem>, h: nat, n: nat, s: seq<Elem>)
    requires IsDown(s0, h, n, s)
    ensures |s| == |s0|
  {
    assert Key(HeapFacts, 0);
  }

  /** Adding a stream of elements, one after another. */
  lemma {:induction false} StreamExact(place: Hash, nTabs: nat, max: nat, elems: set<Bytes>, a: State, s: seq<(Bytes, int)>, states: seq<State>, b: State, n: nat)
    requires nTabs > 0 && max > 0 && ToldApart(place, nTabs, elems) && n <= |s| && Counts(elems, s) && IsEmpty(a)
    requires TookAll(place, nTabs, max, a, s, states, b)
    ensures n < |states| && Exact(max, elems, states[n], s[..n])
  {
    assert Key(ChainFacts, 0);
    if n == 0 {
      StartsExact(max, elems, a);
      assert s[..0] == [];
    } else {
      StreamExact(place, nTabs, max, elems, a, s, states, b, n - 1);
      assert Counted(elems, s, n - 1);
      StepExact(place, nTabs, max, elems, states[n - 1], s[..n - 1], s[n - 1].0, s[n - 1].1, states[n]);
      assert s[..n] == s[..n - 1] + [(s[n - 1].0, s[n - 1].1)];
    }
  }

  /** The heaviest candidates are the heaviest elements. */
  lemma ExactIsTop(max: nat, elems: set<Bytes>, a: State, s: seq<(Bytes, int)>, shown: seq<Elem>, n: nat)
    requires Exact(max, elems, a, s) && IsTop(shown, n, a.m) && n <= max
    ensures IsTop(shown, n, Totals(s))
  {
    var t := Totals(s);
    FewerKeys(a.m, t);
    forall i | 0 <= i < |shown| ensures shown[i].value in t && t[shown[i].value] == shown[i].weight {
      assert ExactAt(elems, a, s, shown[i].value);
      NetTotals(s, shown[i].value);
    }
    forall v, i | v in t && 0 <= i < |shown| && (forall i :: 0 <= i < |shown| ==> shown[i].value != v) ensures t[v] <= shown[i].weight {
      assert ExactAt(elems, a, s, v) && NoHeavier(a, s, v, shown[i].value);
      NetTotals(s, v);
    }
  }

  lemma FewerKeys(m: Weights, t: Weights)
    requires m.Keys <= t.Keys
    ensures |m| <= |t|
  {
    var a, b := m.Keys, t.Keys;
    assert b == a + (b - a) && |b| == |a| + |b - a|;
    assert |m| == |a| && |t| == |b|;
  }

  lemma {:induction false} InTotals(s: seq<(Bytes, int)>, i: nat)
    requires i < |s|
    ensures s[i].0 in Totals(s)
  {
    if i < |s| - 1 { InTotals(s[..|s| - 1], i); }
  }

  /** A `top(param)` table that a stream is added to shows the exact top of it, even if most of it went to the sketch. */
  method ReportAdded(s: seq<(Bytes, int)>, param: nat, nTabs: nat, tabSize: nat, place: Hash) returns (shown: seq<Elem>)
    requires nTabs > 0 && InRange(place, tabSize)
    requires ToldApart(place, nTabs, Totals(s).Keys) && forall i :: 0 <= i < |s| ==> s[i].1 >= 0
    ensures param > 0 ==> IsTop(shown, param, Totals(s))
  {
    var entry := new TopEntry(param, nTabs, tabSize, place);
    ghost var a := entry.Now();
    ghost var states := entry.AddAll(s);
    ghost var b := entry.Now();
    shown := entry.FlushForDisplay();
    if param > 0 {
      AllCount(s);
      AddedExact(place, nTabs, param * 10, a, s, states, b);
      if s != [] { ExactIsTop(param * 10, Totals(s).Keys, b, s, shown, param); }
    }
  }

  lemma AllCount(s: seq<(Bytes, int)>)
    requires forall i :: 0 <= i < |s| ==> s[i].1 >= 0
    ensures Counts(Totals(s).Keys, s)
  {
    forall i | 0 <= i < |s| ensures Counted(Totals(s).Keys, s, i) { InTotals(s, i); }
  }

  lemma AddedExact(place: Hash, nTabs: nat, max: nat, a: State, s: seq<(Bytes, int)>, states: seq<State>, b: State)
    requires nTabs > 0 && max > 0 && ToldApart(place, nTabs, Totals(s).Keys) && Counts(Totals(s).Keys, s) && IsEmpty(a)
    requires TookAll(place, nTabs, max, a, s, states, b)
    ensures Exact(max, Totals(s).Keys, b, s)
  {
    StreamExact(place, nTabs, max, Totals(s).Keys, a, s, states, b, |s|);
    assert s[..|s|] == s;
    assert Key(ChainFacts, 0);
  }
}

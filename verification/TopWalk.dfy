/**
 * Step 1 of a merge of `top` tables: a walk over the heap that reweighs the element at each index in
 * turn. The heap is put in order after every step, under the walk, so that which elements it meets
 * depends on where they move.
 */
module TopWalk {
  import opened HeapShape
  import opened Sealing
  import opened ByteStrings
  import opened WeightTables
  import opened TopHeap
  import opened TopSketch

  /** The array after the element at `i` has gained `w`. */
  function Step(s: seq<Elem>, i: nat, w: int): (r: seq<Elem>)
    requires i < |s|
    ensures |r| == |s|
  {
    Fix(Reweigh(s, i, w), i)
  }

  /** The array after as many steps as there are in `moved`. */
  function Walk(s: seq<Elem>, moved: seq<(Bytes, int)>): (r: seq<Elem>)
    requires |moved| <= |s|
    ensures |r| == |s|
  {
    if moved == [] then s
    else
      var i := |moved| - 1;
      Step(Walk(s, moved[..i]), i, moved[i].1)
  }

  /** The element that step `i` meets. */
  function Met(s: seq<Elem>, moved: seq<(Bytes, int)>, i: nat): (e: Bytes)
    requires i < |s| && i <= |moved| <= |s|
  {
    Walk(s, moved[..i])[i].value
  }

  /** The reweighed element is lighter than its parent, has no child, or is lighter than every child. */
  predicate Stays(s: seq<Elem>, i: nat, w: int)
    requires i < |s|
  {
    var t := Reweigh(s, i, w);
    || IsLight(t, i)
    || 2 * i + 1 >= |s|
    || (t[i].weight < t[2 * i + 1].weight && (2 * i + 2 < |s| ==> t[i].weight < t[2 * i + 2].weight))
  }

  ghost predicate Steady(s: seq<Elem>, moved: seq<(Bytes, int)>, n: nat) {
    n <= |moved| <= |s| && forall i :: 0 <= i < n ==> Stays(Walk(s, moved[..i]), i, moved[i].1)
  }

  ghost predicate Distinct(s: seq<Elem>) {
    forall i, j :: 0 <= i < j < |s| ==> s[i].value != s[j].value
  }

  ghost predicate IsMet(s: seq<Elem>, moved: seq<(Bytes, int)>, e: Bytes) {
    |moved| == |s| && exists i :: 0 <= i < |s| && Met(s, moved, i) == e
  }

  /** Every element is met by exactly one step. */
  ghost predicate MetOnce(s: seq<Elem>, moved: seq<(Bytes, int)>) {
    && |moved| == |s|
    && (forall p :: 0 <= p < |s| ==> IsMet(s, moved, s[p].value))
    && (forall i, j :: 0 <= i < j < |s| ==> Met(s, moved, i) != Met(s, moved, j))
  }

  // ----------------------------------------------------------------------------- what moves where

  /** A sift upwards keeps to the places up to where it starts. */
  lemma {:induction false} UpAbove(s: seq<Elem>, h: nat)
    requires h < |s|
    ensures forall q :: h < q < |s| ==> Up(s, h)[q] == s[q]
    decreases h
  {
    if IsLight(s, h) { UpAbove(Swap(s, h, Parent(h)), Parent(h)); }
  }

  lemma {:induction false} UpKeeps(s: seq<Elem>, h: nat, q: nat) returns (r: nat)
    requires q <= h < |s|
    ensures r <= h && Up(s, h)[r] == s[q]
    decreases h
  {
    r := q;
    if IsLight(s, h) {
      var p := Parent(h);
      var t := Swap(s, h, p);
      UpAbove(t, p);
      if q == p {
        r := h;
      } else if q == h {
        r := UpKeeps(t, p, p);
      } else if q < p {
        r := UpKeeps(t, p, q);
      }
    }
  }

  /** A sift downwards keeps to the places from where it starts. */
  lemma {:induction false} DownBelow(s: seq<Elem>, h: nat, n: nat)
    requires h < n <= |s|
    ensures forall q :: 0 <= q < h ==> Down(s, h, n)[q] == s[q]
    ensures IsHeavy(s, h, n) ==> Down(s, h, n)[h] == s[Kid(s, h, n)]
    decreases n - h
  {
    if IsHeavy(s, h, n) {
      var kid := Kid(s, h, n);
      DownBelow(Swap(s, h, kid), kid, n);
    }
  }

  lemma SwapDistinct(s: seq<Elem>, i: nat, j: nat)
    requires i < |s| && j < |s| && Distinct(s)
    ensures Distinct(Swap(s, i, j))
  {
  }

  lemma {:induction false} UpDistinct(s: seq<Elem>, h: nat)
    requires h < |s| && Distinct(s)
    ensures Distinct(Up(s, h))
    decreases h
  {
    if IsLight(s, h) {
      SwapDistinct(s, h, Parent(h));
      UpDistinct(Swap(s, h, Parent(h)), Parent(h));
    }
  }

  lemma {:induction false} DownDistinct(s: seq<Elem>, h: nat, n: nat)
    requires h < n <= |s| && Distinct(s)
    ensures Distinct(Down(s, h, n))
    decreases n - h
  {
    if IsHeavy(s, h, n) {
      SwapDistinct(s, h, Kid(s, h, n));
      DownDistinct(Swap(s, h, Kid(s, h, n)), Kid(s, h, n), n);
    }
  }

  lemma StepDistinct(s: seq<Elem>, i: nat, w: int)
    requires i < |s| && Distinct(s)
    ensures Distinct(Step(s, i, w))
  {
    var t := Reweigh(s, i, w);
    assert Distinct(t);
    if IsLight(t, i) { UpDistinct(t, i); } else { DownDistinct(t, i, |t|); }
  }

  lemma {:induction false} WalkDistinct(s: seq<Elem>, moved: seq<(Bytes, int)>)
    requires |moved| <= |s| && Distinct(s)
    ensures Distinct(Walk(s, moved))
  {
    if moved != [] {
      var i := |moved| - 1;
      WalkDistinct(s, moved[..i]);
      StepDistinct(Walk(s, moved[..i]), i, moved[i].1);
    }
  }

  /** Where the element stays or rises, nothing moves beyond it. */
  lemma StepStays(s: seq<Elem>, i: nat, w: int)
    requires i < |s| && Stays(s, i, w)
    ensures forall q :: i < q < |s| ==> Step(s, i, w)[q] == s[q]
  {
    var t := Reweigh(s, i, w);
    if IsLight(t, i) { UpAbove(t, i); }
  }

  /** Where it does not, a child comes to where the element was. */
  lemma StepSinks(s: seq<Elem>, i: nat, w: int) returns (kid: nat)
    requires i < |s| && !Stays(s, i, w)
    ensures i < kid < |s| && Step(s, i, w)[i] == s[kid]
  {
    var t := Reweigh(s, i, w);
    kid := Kid(t, i, |t|);
    DownBelow(t, i, |t|);
  }

  /** What is behind the walk stays behind it. */
  lemma StepBehind(s: seq<Elem>, i: nat, w: int, q: nat) returns (r: nat)
    requires q < i < |s|
    ensures r <= i && Step(s, i, w)[r] == s[q]
  {
    var t := Reweigh(s, i, w);
    assert t[q] == s[q];
    if IsLight(t, i) {
      r := UpKeeps(t, i, q);
    } else {
      r := q;
      DownBelow(t, i, |t|);
    }
  }

  // ------------------------------------------------------------------------------ who is met

  lemma Slice(moved: seq<(Bytes, int)>, n: nat)
    requires 0 < n <= |moved|
    ensures moved[..n][..n - 1] == moved[..n - 1] && moved[..n][n - 1] == moved[n - 1]
  {
  }

  /** As long as the walk is steady it meets the elements in the order in which they were. */
  lemma {:induction false} SteadyAhead(s: seq<Elem>, moved: seq<(Bytes, int)>, n: nat)
    requires Steady(s, moved, n)
    ensures forall q :: n <= q < |s| ==> Walk(s, moved[..n])[q] == s[q]
  {
    if n > 0 {
      SteadyAhead(s, moved, n - 1);
      Slice(moved, n);
      StepStays(Walk(s, moved[..n - 1]), n - 1, moved[n - 1].1);
    }
  }

  lemma SteadyMeets(s: seq<Elem>, moved: seq<(Bytes, int)>, n: nat, i: nat)
    requires Steady(s, moved, n) && i <= n && i < |s|
    ensures Met(s, moved, i) == s[i].value
  {
    SteadyAhead(s, moved, i);
  }

  /** An element behind the walk is never met again. */
  lemma {:induction false} Behind(s: seq<Elem>, moved: seq<(Bytes, int)>, i: nat, c: Bytes, j: nat) returns (r: nat)
    requires i < j <= |moved| <= |s| && Walk(s, moved[..i + 1])[i].value == c
    ensures r < j && Walk(s, moved[..j])[r].value == c
    decreases j
  {
    if j == i + 1 {
      r := i;
    } else {
      var q := Behind(s, moved, i, c, j - 1);
      Slice(moved, j);
      r := StepBehind(Walk(s, moved[..j - 1]), j - 1, moved[j - 1].1, q);
    }
  }

  lemma NotMetAgain(s: seq<Elem>, moved: seq<(Bytes, int)>, i: nat, c: Bytes, j: nat)
    requires i < j < |s| && j <= |moved| <= |s| && Distinct(s) && Walk(s, moved[..i + 1])[i].value == c
    ensures Met(s, moved, j) != c
  {
    var r := Behind(s, moved, i, c, j);
    WalkDistinct(s, moved[..j]);
  }

  /** The first step that sinks brings an element behind the walk that has not been met. */
  lemma Missed(s: seq<Elem>, moved: seq<(Bytes, int)>, i: nat) returns (p: nat)
    requires Distinct(s) && |moved| == |s| && i < |s| && Steady(s, moved, i) && !Stays(Walk(s, moved[..i]), i, moved[i].1)
    ensures i < p < |s| && forall j :: 0 <= j < |s| ==> Met(s, moved, j) != s[p].value
  {
    Slice(moved, i + 1);
    SteadyAhead(s, moved, i);
    p := StepSinks(Walk(s, moved[..i]), i, moved[i].1);
    forall j | 0 <= j < |s| ensures Met(s, moved, j) != s[p].value {
      if j <= i { SteadyMeets(s, moved, i, j); } else { NotMetAgain(s, moved, i, s[p].value, j); }
    }
  }

  lemma {:induction false} FirstUnsteady(s: seq<Elem>, moved: seq<(Bytes, int)>, n: nat) returns (i: nat)
    requires n <= |moved| <= |s| && !Steady(s, moved, n)
    ensures i < n && Steady(s, moved, i) && !Stays(Walk(s, moved[..i]), i, moved[i].1)
    decreases n
  {
    if n > 0 && !Steady(s, moved, n - 1) {
      i := FirstUnsteady(s, moved, n - 1);
    } else {
      i := n - 1;
    }
  }

  /** Each element is met exactly once if and only if no step lets an element sink. */
  lemma MetOnceIff(s: seq<Elem>, moved: seq<(Bytes, int)>)
    requires Distinct(s) && |moved| == |s|
    ensures MetOnce(s, moved) <==> Steady(s, moved, |s|)
  {
    if Steady(s, moved, |s|) {
      forall i | 0 <= i < |s| ensures Met(s, moved, i) == s[i].value { SteadyMeets(s, moved, |s|, i); }
      InOrder(s, moved);
    } else {
      var i := FirstUnsteady(s, moved, |s|);
      var p := Missed(s, moved, i);
      assert !IsMet(s, moved, s[p].value);
    }
  }

  lemma InOrder(s: seq<Elem>, moved: seq<(Bytes, int)>)
    requires Distinct(s) && |moved| == |s| && forall i :: 0 <= i < |s| ==> Met(s, moved, i) == s[i].value
    ensures MetOnce(s, moved)
  {
    forall p | 0 <= p < |s| ensures IsMet(s, moved, s[p].value) {
      assert Met(s, moved, p) == s[p].value;
    }
    forall i, j | 0 <= i < j < |s| ensures Met(s, moved, i) != Met(s, moved, j) {
      assert s[i].value != s[j].value;
    }
  }

  // --------------------------------------------------------------------------- what moves with them

  /** Step `i` meets this element, and moves what the other sketch then estimates for it. */
  ghost predicate MovedAt(place: Hash, nTabs: nat, s: seq<Elem>, swept: seq<(Bytes, int)>, moved: seq<(Bytes, int)>, i: nat) {
    && nTabs > 0 && i < |moved| <= |s| && moved[i].0 == Met(s, moved, i)
    && moved[i].1 == Estimated(place, nTabs, swept + Negated(moved[..i]), moved[i].0)
  }

  /** The walk so far, from the array `s` to `heap`, with a sketch of `swept`. */
  ghost predicate Walked(place: Hash, nTabs: nat, s: seq<Elem>, swept: seq<(Bytes, int)>, moved: seq<(Bytes, int)>, heap: seq<Elem>) {
    && |moved| <= |s| && heap == Walk(s, moved)
    && forall i {:trigger MovedAt(place, nTabs, s, swept, moved, i)} :: 0 <= i < |moved| ==> MovedAt(place, nTabs, s, swept, moved, i)
  }

  ghost predicate Walking(place: Hash, nTabs: nat, s: seq<Elem>, swept: seq<(Bytes, int)>, moved: seq<(Bytes, int)>, heap: seq<Elem>) {
    forall k {:trigger Key(WalkFacts, k)} :: Key(WalkFacts, k) ==> Walked(place, nTabs, s, swept, moved, heap)
  }

  lemma WalkStarts(place: Hash, nTabs: nat, s: seq<Elem>, swept: seq<(Bytes, int)>)
    ensures Walking(place, nTabs, s, swept, [], s)
  {
  }

  lemma WalkOn(place: Hash, nTabs: nat, s: seq<Elem>, swept: seq<(Bytes, int)>, moved: seq<(Bytes, int)>, heap: seq<Elem>,
               w: int, after: seq<Elem>)
    requires nTabs > 0 && Walking(place, nTabs, s, swept, moved, heap) && |moved| < |s| == |heap|
    requires w == Estimated(place, nTabs, swept + Negated(moved), heap[|moved|].value)
    requires IsFixed(Reweigh(heap, |moved|, w), |moved|, after)
    ensures Walking(place, nTabs, s, swept, moved + [(heap[|moved|].value, w)], after)
  {
    assert Key(WalkFacts, 0) && Key(HeapFacts, 0);
    var n, e := |moved|, heap[|moved|].value;
    var more := moved + [(e, w)];
    assert more[..n] == moved && more[n] == (e, w);
    assert after == Walk(s, more);
    assert MovedAt(place, nTabs, s, swept, more, n);
    forall i | 0 <= i < |moved| ensures MovedAt(place, nTabs, s, swept, more, i) {
      MovedBefore(place, nTabs, s, swept, moved, heap, more, i);
    }
  }

  lemma MovedBefore(place: Hash, nTabs: nat, s: seq<Elem>, swept: seq<(Bytes, int)>, moved: seq<(Bytes, int)>, heap: seq<Elem>,
                    more: seq<(Bytes, int)>, i: nat)
    requires i < |moved| < |more| <= |s| && more[..|moved|] == moved && Walked(place, nTabs, s, swept, moved, heap)
    ensures MovedAt(place, nTabs, s, swept, more, i)
  {
    assert more[..i] == moved[..i] && more[i] == moved[i] && MovedAt(place, nTabs, s, swept, moved, i);
  }

  lemma WalkEnds(place: Hash, nTabs: nat, s: seq<Elem>, swept: seq<(Bytes, int)>, moved: seq<(Bytes, int)>, heap: seq<Elem>)
    requires Walking(place, nTabs, s, swept, moved, heap)
    ensures Walked(place, nTabs, s, swept, moved, heap)
  {
    assert Key(WalkFacts, 0);
  }

  /** Where fewer elements have a weight no fewer rows are clean. */
  lemma {:induction false} CleanerRows(place: Hash, s: seq<(Bytes, int)>, t: seq<(Bytes, int)>, e: Bytes, n: nat)
    requires forall f :: Net(t, f) != 0 ==> Net(s, f) != 0
    ensures CleanRows(place, s, e, n) <= CleanRows(place, t, e, n)
  {
    if n > 0 {
      CleanerRows(place, s, t, e, n - 1);
      if Clean(place, s, e, n - 1) { assert Clean(place, t, e, n - 1); }
    }
  }

  /** The first `n` elements have taken all that was theirs. */
  ghost predicate TakenTo(s: seq<Elem>, swept: seq<(Bytes, int)>, moved: seq<(Bytes, int)>, n: nat) {
    n <= |moved| <= |s| && forall i :: 0 <= i < n ==> moved[i] == (s[i].value, Net(swept, s[i].value))
  }

  /** What is left is all for those not met yet, and nothing for the others. */
  lemma {:induction false} NetLeft(s: seq<Elem>, swept: seq<(Bytes, int)>, moved: seq<(Bytes, int)>, n: nat, f: Bytes)
    requires Distinct(s) && TakenTo(s, swept, moved, n)
    ensures Net(moved[..n], f) == if exists i :: 0 <= i < n && s[i].value == f then Net(swept, f) else 0
  {
    if n > 0 {
      NetLeft(s, swept, moved, n - 1, f);
      Slice(moved, n);
      assert s[n - 1].value == moved[n - 1].0;
    }
  }

  lemma Left(swept: seq<(Bytes, int)>, moved: seq<(Bytes, int)>, f: Bytes)
    ensures Net(swept + Negated(moved), f) == Net(swept, f) - Net(moved, f)
  {
    NetConcat(swept, Negated(moved), f);
    NegatedNet(moved, f);
  }

  ghost predicate MostlyClean(place: Hash, nTabs: nat, swept: seq<(Bytes, int)>, s: seq<Elem>) {
    forall i :: 0 <= i < |s| ==> 2 * CleanRows(place, swept, s[i].value, nTabs) > nTabs
  }

  lemma TakesItsShare(place: Hash, nTabs: nat, s: seq<Elem>, swept: seq<(Bytes, int)>, moved: seq<(Bytes, int)>, i: nat)
    requires nTabs > 0 && Distinct(s) && i < |moved| <= |s| && Steady(s, moved, i) && TakenTo(s, swept, moved, i)
    requires 2 * CleanRows(place, swept, s[i].value, nTabs) > nTabs && MovedAt(place, nTabs, s, swept, moved, i)
    ensures moved[i] == (s[i].value, Net(swept, s[i].value))
  {
    var e, rest := s[i].value, swept + Negated(moved[..i]);
    SteadyMeets(s, moved, i, i);
    forall f ensures Net(rest, f) == if exists j :: 0 <= j < i && s[j].value == f then 0 else Net(swept, f) {
      NetLeft(s, swept, moved, i, f);
      Left(swept, moved[..i], f);
    }
    CleanerRows(place, swept, rest, e, nTabs);
    MajorityExact(place, nTabs, rest, e);
  }

  lemma {:induction false} AllTake(place: Hash, nTabs: nat, s: seq<Elem>, swept: seq<(Bytes, int)>, moved: seq<(Bytes, int)>, heap: seq<Elem>, n: nat)
    requires nTabs > 0 && Distinct(s) && n <= |moved| && Walked(place, nTabs, s, swept, moved, heap) && Steady(s, moved, n)
    requires MostlyClean(place, nTabs, swept, s)
    ensures TakenTo(s, swept, moved, n)
  {
    if n > 0 {
      AllTake(place, nTabs, s, swept, moved, heap, n - 1);
      assert MovedAt(place, nTabs, s, swept, moved, n - 1);
      TakesItsShare(place, nTabs, s, swept, moved, n - 1);
    }
  }

  /**
   * What step 1 of a merge is for, and when it does it. If no step lets an element sink, every candidate
   * gets exactly its weight from the other sketch, in which nothing is left for it; if some step does, a
   * candidate gets nothing, and its weight stays in that sketch.
   */
  lemma SharesMoved(place: Hash, nTabs: nat, s: seq<Elem>, swept: seq<(Bytes, int)>, moved: seq<(Bytes, int)>, heap: seq<Elem>)
    requires nTabs > 0 && Distinct(s) && |moved| == |s| && Walked(place, nTabs, s, swept, moved, heap)
    requires MostlyClean(place, nTabs, swept, s)
    ensures Steady(s, moved, |s|) ==>
      forall p :: 0 <= p < |s| ==> moved[p] == (s[p].value, Net(swept, s[p].value)) && Net(swept + Negated(moved), s[p].value) == 0
    ensures !Steady(s, moved, |s|) ==>
      exists p :: 0 <= p < |s| && (forall j :: 0 <= j < |s| ==> moved[j].0 != s[p].value)
        && Net(swept + Negated(moved), s[p].value) == Net(swept, s[p].value)
  {
    if Steady(s, moved, |s|) {
      AllTake(place, nTabs, s, swept, moved, heap, |s|);
      assert moved[..|s|] == moved;
      forall p | 0 <= p < |s| ensures Net(swept + Negated(moved), s[p].value) == 0 {
        NetLeft(s, swept, moved, |s|, s[p].value);
        Left(swept, moved, s[p].value);
      }
    } else {
      var i := FirstUnsteady(s, moved, |s|);
      var p := Missed(s, moved, i);
      forall j | 0 <= j < |s| ensures moved[j].0 != s[p].value { assert MovedAt(place, nTabs, s, swept, moved, j); }
      NetNone(moved, s[p].value);
      Left(swept, moved, s[p].value);
    }
  }

  lemma {:induction false} NetNone(moved: seq<(Bytes, int)>, e: Bytes)
    requires forall j :: 0 <= j < |moved| ==> moved[j].0 != e
    ensures Net(moved, e) == 0
  {
    if moved != [] { NetNone(moved[..|moved| - 1], e); }
  }

  // ------------------------------------------------------------------------------ a walk that misses

  /** Candidates of weight 1, 2 and 3. */
  function Three(a: Bytes, b: Bytes, c: Bytes): (s: seq<Elem>) {
    [Elem(a, 1), Elem(b, 2), Elem(c, 3)]
  }

  /** If the lightest of the three gains 10 it is met twice, and the second not at all. */
  lemma SecondMissed(a: Bytes, b: Bytes, c: Bytes, moved: seq<(Bytes, int)>)
    requires |moved| == 3 && moved[0].1 == 10
    ensures Met(Three(a, b, c), moved, 0) == a && Met(Three(a, b, c), moved, 1) == a && Met(Three(a, b, c), moved, 2) == c
  {
    var s, t := Three(a, b, c), [Elem(a, 11), Elem(b, 2), Elem(c, 3)];
    var s1 := [Elem(b, 2), Elem(a, 11), Elem(c, 3)];
    assert Reweigh(s, 0, 10) == t && !IsLight(t, 0) && Kid(t, 0, 3) == 1 && IsHeavy(t, 0, 3);
    assert Swap(t, 0, 1) == s1 && !IsHeavy(s1, 1, 3);
    assert Step(s, 0, 10) == s1;
    Slice(moved, 1);
    Slice(moved, 2);
    assert Walk(s, moved[..0]) == s && Walk(s, moved[..1]) == s1;
    StepStays(s1, 1, moved[1].1);
  }

  /** So what the other sketch had for the second candidate stays there, though every estimate that counts was exact. */
  lemma ShareLeft(place: Hash, nTabs: nat, a: Bytes, b: Bytes, c: Bytes, swept: seq<(Bytes, int)>, moved: seq<(Bytes, int)>, heap: seq<Elem>)
    requires a != b && b != c && nTabs > 0 && Net(swept, a) == 10 && 2 * CleanRows(place, swept, a, nTabs) > nTabs
    requires |moved| == 3 && Walked(place, nTabs, Three(a, b, c), swept, moved, heap)
    ensures moved[0] == (a, 10) && moved[1].0 == a && moved[2].0 == c
    ensures Net(swept + Negated(moved), b) == Net(swept, b)
  {
    var s := Three(a, b, c);
    assert MovedAt(place, nTabs, s, swept, moved, 0) && MovedAt(place, nTabs, s, swept, moved, 1) && MovedAt(place, nTabs, s, swept, moved, 2);
    assert swept + Negated(moved[..0]) == swept;
    MajorityExact(place, nTabs, swept, a);
    SecondMissed(a, b, c, moved);
    NetNone(moved, b);
    Left(swept, moved, b);
  }
}

/**
 * `top` tables: exact candidates in a heap, everything else in a sketch. Weight moves between the two
 * on every step and over every merge, and none of it is lost.
 */
module TopTable {
  import opened Sealing
  import opened ByteStrings
  import opened TabEntry
  import opened WeightTables
  import opened WeightedRuns
  import opened TopHeap
  import opened TopSketch
  import opened TopWalk

  // ------------------------------------------------------------------------------ conservation

  /** The sketch and the candidates together account for `y`. */
  ghost predicate Accounts(swept: seq<(Bytes, int)>, tops: Weights, stream: seq<(Bytes, int)>, y: Bytes) {
    Net(swept, y) + Get(tops, y) == Net(stream, y)
  }

  /**
   * What a table of `max` candidates keeps, with or without a sketch: together they account for every
   * element, and there is a sketch exactly when there were more distinct elements than candidates.
   */
  ghost predicate Conserves(max: nat, sketched: bool, swept: seq<(Bytes, int)>, tops: Weights, stream: seq<(Bytes, int)>) {
    forall k {:trigger Key(ShareFacts, k)} :: Key(ShareFacts, k) ==>
      && (forall y {:trigger Accounts(swept, tops, stream, y)} :: Accounts(swept, tops, stream, y))
      && (if sketched then |Totals(stream)| > max else swept == [] && tops == Totals(stream))
      && (|tops| == 0 ==> stream == [])
  }

  lemma {:induction false} NetTotals(s: seq<(Bytes, int)>, y: Bytes)
    ensures Net(s, y) == Get(Totals(s), y)
  {
    if s != [] { NetTotals(s[..|s| - 1], y); }
  }

  lemma OneMore(s: seq<(Bytes, int)>, e: Bytes, w: int)
    ensures Totals(s + [(e, w)]) == Bump(Totals(s), e, w)
    ensures forall y :: Net(s + [(e, w)], y) == Net(s, y) + if y == e then w else 0
    ensures |Totals(s)| <= |Totals(s + [(e, w)])|
  {
    assert (s + [(e, w)])[..|s|] == s;
    if e in Totals(s) { MapSame(Totals(s), e, Get(Totals(s), e) + w); } else { MapGrows(Totals(s), e, w); }
  }

  lemma KnownConserves(max: nat, sketched: bool, swept: seq<(Bytes, int)>, tops: Weights, stream: seq<(Bytes, int)>, e: Bytes, w: int)
    requires Conserves(max, sketched, swept, tops, stream) && e in tops
    ensures Conserves(max, sketched, swept, tops[e := tops[e] + w], stream + [(e, w)])
  {
    assert Key(ShareFacts, 0);
    var tops', stream' := tops[e := tops[e] + w], stream + [(e, w)];
    OneMore(stream, e, w);
    MapSame(tops, e, tops[e] + w);
    forall y ensures Accounts(swept, tops', stream', y) { assert Accounts(swept, tops, stream, y); }
    assert |tops'| != 0 by { assert e in tops'; }
  }

  lemma NewConserves(max: nat, sketched: bool, swept: seq<(Bytes, int)>, tops: Weights, stream: seq<(Bytes, int)>, e: Bytes, w: int)
    requires Conserves(max, sketched, swept, tops, stream) && e !in tops
    ensures Conserves(max, sketched, swept, tops[e := w], stream + [(e, w)])
  {
    assert Key(ShareFacts, 0);
    var tops', stream' := tops[e := w], stream + [(e, w)];
    OneMore(stream, e, w);
    forall y ensures Accounts(swept, tops', stream', y) { assert Accounts(swept, tops, stream, y); }
    assert |tops'| != 0 by { assert e in tops'; }
  }

  /** A new element for a full table means that there are more elements than candidates. */
  lemma Overflows(max: nat, sketched: bool, swept: seq<(Bytes, int)>, tops: Weights, stream: seq<(Bytes, int)>, e: Bytes, w: int)
    requires Conserves(max, sketched, swept, tops, stream) && e !in tops && |tops| >= max
    ensures |Totals(stream + [(e, w)])| > max
  {
    assert Key(ShareFacts, 0);
    OneMore(stream, e, w);
    if !sketched { MapGrows(tops, e, w); }
  }

  lemma SweptConserves(max: nat, sketched: bool, swept: seq<(Bytes, int)>, tops: Weights, stream: seq<(Bytes, int)>, e: Bytes, w: int)
    requires Conserves(max, sketched, swept, tops, stream) && e !in tops && |tops| >= max > 0
    ensures Conserves(max, true, swept + [(e, w)], tops, stream + [(e, w)])
  {
    assert Key(ShareFacts, 0);
    var swept', stream' := swept + [(e, w)], stream + [(e, w)];
    Overflows(max, sketched, swept, tops, stream, e, w);
    OneMore(stream, e, w);
    OneMore(swept, e, w);
    forall y ensures Accounts(swept', tops, stream', y) { assert Accounts(swept, tops, stream, y); }
  }

  /** A newcomer takes its weight out of the sketch, and the candidate it displaces leaves its own there. */
  lemma ExchangeConserves(max: nat, sketched: bool, swept: seq<(Bytes, int)>, tops: Weights, stream: seq<(Bytes, int)>,
                          e: Bytes, w: int, sw: int, worst: Bytes)
    requires Conserves(max, sketched, swept, tops, stream) && e !in tops && |tops| >= max && worst in tops
    ensures Conserves(max, true, swept + [(e, -sw)] + [(worst, tops[worst])], (tops - {worst})[e := w + sw], stream + [(e, w)])
  {
    assert Key(ShareFacts, 0);
    var swept', tops', stream' := swept + [(e, -sw)] + [(worst, tops[worst])], (tops - {worst})[e := w + sw], stream + [(e, w)];
    Overflows(max, sketched, swept, tops, stream, e, w);
    forall y ensures Accounts(swept', tops', stream', y) {
      assert Accounts(swept, tops, stream, y);
      ExchangeAccounts(swept, tops, stream, e, w, sw, worst, y);
    }
    assert |tops'| != 0 by { assert e in tops'; }
  }

  lemma ExchangeAccounts(swept: seq<(Bytes, int)>, tops: Weights, stream: seq<(Bytes, int)>, e: Bytes, w: int, sw: int, worst: Bytes, y: Bytes)
    requires Accounts(swept, tops, stream, y) && e !in tops && worst in tops
    ensures Accounts(swept + [(e, -sw)] + [(worst, tops[worst])], (tops - {worst})[e := w + sw], stream + [(e, w)], y)
  {
    OneMore(stream, e, w);
    OneMore(swept, e, -sw);
    OneMore(swept + [(e, -sw)], worst, tops[worst]);
  }

  // ----------------------------------------------------------------------------- flushed tables

  /** What `Flush` writes: nothing, or the count of emits not in the string, the candidates, and the sketch if there is one. */
  datatype Flushed = Nothing | Flushed(extra: int, pairs: seq<(Bytes, int)>, tabSize: nat, nTabs: nat, cells: Cells)

  function PairsOf(val: Flushed): (pairs: seq<(Bytes, int)>) {
    if val.Flushed? then val.pairs else []
  }

  function EmitsOf(val: Flushed): (n: int) {
    if val.Flushed? then val.extra + |val.pairs| else 0
  }

  /** A flushed string that stands for `stream`, with `swept` in its sketch. */
  ghost predicate Describes(place: Hash, max: nat, val: Flushed, swept: seq<(Bytes, int)>, stream: seq<(Bytes, int)>) {
    && Conserves(max, val.Flushed? && val.nTabs > 0, swept, Totals(PairsOf(val)), stream)
    && (val.Flushed? ==> val.pairs != [])
    && (val.Flushed? && val.nTabs > 0 ==> Shaped(val.cells, val.nTabs, val.tabSize) && Sums(place, val.cells, swept))
  }

  /** Merging without a sketch: the candidates are all there is. */
  lemma JoinedPlain(max: nat, sketched: bool, swept: seq<(Bytes, int)>, tops: Weights, stream: seq<(Bytes, int)>,
                    pairs: seq<(Bytes, int)>, stream1: seq<(Bytes, int)>)
    requires Conserves(max, sketched, swept, tops, stream + pairs) && Conserves(max, false, [], Totals(pairs), stream1)
    ensures Conserves(max, sketched, swept, tops, stream + stream1)
  {
    assert Key(ShareFacts, 0);
    TotalsConcat(stream, pairs);
    TotalsConcat(stream, stream1);
    assert Totals(stream + pairs) == Totals(stream + stream1);
    forall y ensures Accounts(swept, tops, stream + stream1, y) {
      assert Accounts(swept, tops, stream + pairs, y);
      NetTotals(stream + pairs, y);
      NetTotals(stream + stream1, y);
    }
    EmptyPairs(pairs);
  }

  lemma EmptyPairs(pairs: seq<(Bytes, int)>)
    ensures |Totals(pairs)| == 0 <==> pairs == []
  {
    if pairs != [] { assert pairs[|pairs| - 1].0 in Totals(pairs); }
  }

  /**
   * Merging with a sketch: `moved` is what the candidates have been given out of the other sketch, in
   * whatever order, and what is left there is added to ours.
   */
  lemma JoinedSketch(max: nat, sketched: bool, swept: seq<(Bytes, int)>, tops: Weights, stream: seq<(Bytes, int)>,
                     moved: seq<(Bytes, int)>, pairs: seq<(Bytes, int)>, swept1: seq<(Bytes, int)>, stream1: seq<(Bytes, int)>)
    requires Conserves(max, sketched, swept, tops, stream + moved + pairs) && pairs != []
    requires Conserves(max, true, swept1, Totals(pairs), stream1)
    ensures Conserves(max, true, swept + (swept1 + Negated(moved)), tops, stream + stream1)
  {
    assert Key(ShareFacts, 0);
    forall y ensures Accounts(swept + (swept1 + Negated(moved)), tops, stream + stream1, y) {
      assert Accounts(swept, tops, stream + moved + pairs, y) && Accounts(swept1, Totals(pairs), stream1, y);
      NetTotals(pairs, y);
      NetConcat(stream + moved, pairs, y);
      NetConcat(stream, moved, y);
      NetConcat(stream, stream1, y);
      NetConcat(swept, swept1 + Negated(moved), y);
      NetConcat(swept1, Negated(moved), y);
      NegatedNet(moved, y);
    }
    MoreDistinct(stream, stream1);
  }

  lemma MoreDistinct(s: seq<(Bytes, int)>, t: seq<(Bytes, int)>)
    ensures |Totals(t)| <= |Totals(s + t)|
  {
    TotalsConcat(s, t);
    var a, b := Totals(t).Keys, Totals(s + t).Keys;
    assert b == a + (b - a) && |b| == |a| + |b - a|;
    assert |Totals(t)| == |a| && |Totals(s + t)| == |b|;
  }

  ghost predicate IsLightest(m: Weights, v: Bytes) {
    v in m && forall u :: u in m ==> m[v] <= m[u]
  }

  // ------------------------------------------------------------------------- one element after another

  /** The candidates, as they are in the heap, and what has been swept into the sketch. */
  datatype State = State(m: Weights, h: seq<Elem>, s: seq<(Bytes, int)>)

  /**
   * An element that is no candidate against the candidate at the root, which is a lightest one: with what the sketch
   * estimates for it, it takes the place of that one if it is no lighter, and else it goes to the sketch.
   */
  ghost predicate Contended(place: Hash, nTabs: nat, a: State, e: Bytes, w: int, b: State) {
    && nTabs > 0 && a.h != [] && IsLightest(a.m, a.h[0].value) && a.m[a.h[0].value] == a.h[0].weight
    && var worst, est := a.h[0], Estimated(place, nTabs, a.s, e);
       if worst.weight <= w + est then
         && b.s == a.s + [(e, -est)] + [(worst.value, worst.weight)] && b.m == (a.m - {worst.value})[e := w + est]
         && IsDown(a.h[0 := Elem(e, w + est)], 0, |a.h|, b.h)
       else b == State(a.m, a.h, a.s + [(e, w)])
  }

  lemma Lost(place: Hash, nTabs: nat, a: State, e: Bytes, w: int, est: int)
    requires nTabs > 0 && est == Estimated(place, nTabs, a.s, e) && a.h != [] && w + est < a.h[0].weight
    requires IsLightest(a.m, a.h[0].value) && a.m[a.h[0].value] == a.h[0].weight
    ensures Contended(place, nTabs, a, e, w, State(a.m, a.h, a.s + [(e, w)]))
  {
  }

  lemma Won(place: Hash, nTabs: nat, a: State, e: Bytes, w: int, est: int, h: seq<Elem>)
    requires nTabs > 0 && est == Estimated(place, nTabs, a.s, e) && a.h != [] && w + est >= a.h[0].weight
    requires IsLightest(a.m, a.h[0].value) && a.m[a.h[0].value] == a.h[0].weight
    requires IsDown(a.h[0 := Elem(e, w + est)], 0, |a.h|, h)
    ensures Contended(place, nTabs, a, e, w, State((a.m - {a.h[0].value})[e := w + est], h, a.s + [(e, -est)] + [(a.h[0].value, a.h[0].weight)]))
  {
  }

  lemma ContestConserves(place: Hash, nTabs: nat, max: nat, sketched: bool, a: State, stream: seq<(Bytes, int)>, e: Bytes, w: int, b: State)
    requires Conserves(max, sketched, a.s, a.m, stream) && e !in a.m && |a.m| >= max > 0
    requires Contended(place, nTabs, a, e, w, b)
    ensures Conserves(max, true, b.s, b.m, stream + [(e, w)])
  {
    if a.h[0].weight <= w + Estimated(place, nTabs, a.s, e) {
      WinnerConserves(place, nTabs, max, sketched, a, stream, e, w, b);
    } else {
      SweptConserves(max, sketched, a.s, a.m, stream, e, w);
    }
  }

  lemma WinnerConserves(place: Hash, nTabs: nat, max: nat, sketched: bool, a: State, stream: seq<(Bytes, int)>, e: Bytes, w: int, b: State)
    requires Conserves(max, sketched, a.s, a.m, stream) && e !in a.m && |a.m| >= max
    requires Contended(place, nTabs, a, e, w, b) && a.h[0].weight <= w + Estimated(place, nTabs, a.s, e)
    ensures Conserves(max, true, b.s, b.m, stream + [(e, w)])
  {
    ExchangeConserves(max, sketched, a.s, a.m, stream, e, w, Estimated(place, nTabs, a.s, e), a.h[0].value);
  }

  /** The weight of a candidate has changed, and with it its place. */
  ghost predicate Reweighted(h0: seq<Elem>, e: Bytes, w: int, h: seq<Elem>) {
    exists i :: 0 <= i < |h0| && h0[i].value == e && IsFixed(Reweigh(h0, i, w), i, h)
  }

  /** What adding an element to a table with room for `max` candidates makes of it. */
  ghost predicate Took(place: Hash, nTabs: nat, max: nat, a: State, e: Bytes, w: int, b: State) {
    forall k {:trigger Key(EntryFacts, k)} :: Key(EntryFacts, k) ==>
      if max == 0 then b == a
      else if e in a.m then b.m == a.m[e := a.m[e] + w] && b.s == a.s && Reweighted(a.h, e, w, b.h)
      else if |a.h| < max then b == State(a.m[e := w], Up(a.h + [Elem(e, w)], |a.h|), a.s)
      else Contended(place, nTabs, a, e, w, b)
  }

  lemma TookKnown(place: Hash, nTabs: nat, max: nat, a: State, e: Bytes, w: int, i: nat, h: seq<Elem>)
    requires max > 0 && e in a.m && i < |a.h| && a.h[i].value == e && IsFixed(Reweigh(a.h, i, w), i, h)
    ensures Took(place, nTabs, max, a, e, w, State(a.m[e := a.m[e] + w], h, a.s))
  {
  }

  lemma TookNew(place: Hash, nTabs: nat, max: nat, a: State, e: Bytes, w: int)
    requires e !in a.m && |a.h| < max
    ensures Took(place, nTabs, max, a, e, w, State(a.m[e := w], Up(a.h + [Elem(e, w)], |a.h|), a.s))
  {
  }

  lemma TookContest(place: Hash, nTabs: nat, max: nat, a: State, e: Bytes, w: int, b: State)
    requires e !in a.m && |a.h| >= max > 0 && Contended(place, nTabs, a, e, w, b)
    ensures Took(place, nTabs, max, a, e, w, b)
  {
  }

  /**
   * Adding an element, seen from outside: who is a candidate after it, and with what weight. In a full table a
   * new element becomes one if and only if, with what the sketch estimates for it, some candidate is no heavier;
   * then the only candidate that goes is a lightest one.
   */
  ghost predicate Admitted(place: Hash, nTabs: nat, max: nat, a: State, e: Bytes, w: int, b: State) {
    && nTabs > 0
    && var est, full := Estimated(place, nTabs, a.s, e), |a.h| >= max;
      && (forall v :: v in b.m && v != e ==> v in a.m && b.m[v] == a.m[v])
      && (e in b.m <==> e in a.m || !full || exists v :: v in a.m && a.m[v] <= w + est)
      && (e in b.m ==> b.m[e] == if e in a.m then a.m[e] + w else if full then w + est else w)
      && (forall v :: v in a.m && v !in b.m ==> full && e !in a.m && e in b.m && IsLightest(a.m, v))
      && (forall u, v :: u in a.m && u !in b.m && v in a.m && v !in b.m ==> u == v)
  }

  lemma TookAdmits(place: Hash, nTabs: nat, max: nat, a: State, e: Bytes, w: int, b: State)
    requires nTabs > 0 && max > 0 && Took(place, nTabs, max, a, e, w, b)
    ensures Admitted(place, nTabs, max, a, e, w, b)
  {
    assert Key(EntryFacts, 0);
    if e !in a.m && |a.h| >= max {
      ContestAdmits(place, nTabs, max, a, e, w, b);
    }
  }

  lemma ContestAdmits(place: Hash, nTabs: nat, max: nat, a: State, e: Bytes, w: int, b: State)
    requires Contended(place, nTabs, a, e, w, b) && e !in a.m && |a.h| >= max
    ensures Admitted(place, nTabs, max, a, e, w, b)
  {
    var est := Estimated(place, nTabs, a.s, e);
    if a.h[0].weight > w + est {
      forall v | v in a.m ensures a.m[v] > w + est { }
    }
  }

  /** The states a table goes through while it takes pairs in, from `a` to `b`. */
  ghost predicate TookAll(place: Hash, nTabs: nat, max: nat, a: State, pairs: seq<(Bytes, int)>, states: seq<State>, b: State) {
    forall k {:trigger Key(ChainFacts, k)} :: Key(ChainFacts, k) ==>
      && |states| == |pairs| + 1 && states[0] == a && states[|pairs|] == b
      && forall i :: 0 <= i < |pairs| ==>
           Took(place, nTabs, max, states[i], pairs[i].0, pairs[i].1, states[i + 1])
  }

  lemma TookNone(place: Hash, nTabs: nat, max: nat, a: State)
    ensures TookAll(place, nTabs, max, a, [], [a], a)
  {
  }

  lemma TookOne(place: Hash, nTabs: nat, max: nat, a: State, pairs: seq<(Bytes, int)>, n: nat, states: seq<State>, b: State, c: State)
    requires n < |pairs| && TookAll(place, nTabs, max, a, pairs[..n], states, b)
    requires Took(place, nTabs, max, b, pairs[n].0, pairs[n].1, c)
    ensures TookAll(place, nTabs, max, a, pairs[..n + 1], states + [c], c)
  {
    assert Key(ChainFacts, 0);
    var states', pairs' := states + [c], pairs[..n + 1];
    forall i | 0 <= i < n + 1
      ensures Took(place, nTabs, max, states'[i], pairs'[i].0, pairs'[i].1, states'[i + 1])
    {
      assert pairs'[i] == pairs[i] && (i < n ==> pairs[..n][i] == pairs[i]);
    }
  }

  // ---------------------------------------------------------------------------------- the entry

  class TopEntry {
    const param: nat
    const nTabs: nat
    const tabSize: nat
    const place: Hash
    const tops: Heap
    /** Allocated when first needed. */
    var sketch: Sketch?
    var tot: int
    ghost var stream: seq<(Bytes, int)>

    ghost predicate WellFormed()
      reads this, sketch
    {
      && tops.maxElems == param * 10 && nTabs > 0 && InRange(place, tabSize) && (param == 0 ==> sketch == null)
      && (sketch != null ==> sketch.Valid() && sketch.nTabs == nTabs && sketch.tabSize == tabSize && sketch.place == place)
    }

    ghost predicate Valid()
      reads this, tops, sketch
    {
      && tops.Valid() && WellFormed()
      && (param > 0 ==> Conserves(param * 10, sketch != null, Swept(), tops.contents, stream))
    }

    ghost function Swept(): (s: seq<(Bytes, int)>)
      reads this, sketch
    {
      if sketch == null then [] else sketch.swept
    }

    ghost function Now(): (a: State)
      reads this, tops, sketch
    {
      State(tops.contents, tops.heap, Swept())
    }

    constructor (param: nat, nTabs: nat, tabSize: nat, place: Hash)
      requires nTabs > 0 && InRange(place, tabSize)
      ensures Valid() && fresh(tops) && tops.contents == map[] && sketch == null && tot == 0 && stream == []
      ensures this.param == param && this.nTabs == nTabs && this.tabSize == tabSize && this.place == place
    {
      this.param, this.nTabs, this.tabSize, this.place := param, nTabs, tabSize, place;
      tops := new Heap(param * 10);
      sketch, tot, stream := null, 0, [];
      new;
      StartConserves(param * 10);
    }

    /** An element that is a candidate already. */
    method AddToCandidate(elem: Bytes, w: int)
      requires Valid() && elem in tops.contents
      modifies tops, this`stream
      ensures Valid() && stream == old(stream) + [(elem, w)] && |tops.heap| == |old(tops.heap)|
      ensures tops.contents == old(tops.contents)[elem := old(tops.contents)[elem] + w] && IsAt(old(tops.heap), old(tops.pos), elem)
      ensures IsFixed(Reweigh(old(tops.heap), old(tops.pos)[elem], w), old(tops.pos)[elem], tops.heap)
    {
      if param > 0 { KnownConserves(param * 10, sketch != null, Swept(), tops.contents, stream, elem, w); }
      tops.AddToWeight(w, elem);
      stream := stream + [(elem, w)];
    }

    /** An element that is no candidate, in a full table. */
    method Compete(elem: Bytes, w: int)
      requires Valid() && elem !in tops.contents && |tops.heap| == tops.maxElems > 0
      modifies this`sketch, this`stream, tops, sketch
      ensures Valid() && stream == old(stream) + [(elem, w)]
      ensures Contended(place, nTabs, old(Now()), elem, w, Now())
      ensures sketch == old(sketch) || fresh(sketch)
    {
      ghost var sketched, a := sketch != null, Now();
      Contend(elem, w);
      ContestConserves(place, nTabs, param * 10, sketched, a, stream, elem, w, Now());
      stream := stream + [(elem, w)];
    }

    /**
     * The element, with its estimated weight from the sketch, against the lightest candidate: it takes
     * that candidate's place if it is no lighter, and its new weight goes to the sketch if it is.
     */
    method Contend(elem: Bytes, w: int)
      requires WellFormed() && tops.Valid() && elem !in tops.contents && |tops.heap| > 0 && param > 0
      modifies this`sketch, tops, sketch
      ensures WellFormed() && tops.Valid() && sketch != null && (sketch == old(sketch) || fresh(sketch))
      ensures Contended(place, nTabs, old(Now()), elem, w, Now())
    {
      EnsureSketch();
      var est := sketch.Estimate(elem);
      var tw := w + est;
      var least := tops.Smallest();
      if tw < least.weight {
        sketch.AddSub(elem, w, true);
        Lost(place, nTabs, old(Now()), elem, w, est);
      } else {
        Displace(elem, est, tw, least);
        Won(place, nTabs, old(Now()), elem, w, est, tops.heap);
      }
    }

    method EnsureSketch()
      requires WellFormed() && param > 0
      modifies this`sketch
      ensures WellFormed() && sketch != null && sketch.swept == old(Swept())
      ensures sketch == old(sketch) || fresh(sketch)
    {
      if sketch == null {
        sketch := new Sketch(nTabs, tabSize, place);
      }
    }

    /** Swap with the lightest candidate. */
    method Displace(elem: Bytes, sw: int, tw: int, worst: Elem)
      requires WellFormed() && sketch != null && tops.Valid() && elem !in tops.contents && |tops.heap| > 0 && worst == tops.heap[0]
      modifies tops, sketch
      ensures WellFormed() && tops.Valid()
      ensures sketch.swept == old(sketch.swept) + [(elem, -sw)] + [(worst.value, worst.weight)]
      ensures tops.contents == (old(tops.contents) - {worst.value})[elem := tw]
      ensures IsDown(old(tops.heap)[0 := Elem(elem, tw)], 0, |old(tops.heap)|, tops.heap)
    {
      sketch.AddSub(elem, sw, false);
      sketch.AddSub(worst.value, worst.weight, true);
      tops.ReplaceSmallest(elem, tw);
    }

    method AddCandidate(elem: Bytes, w: int)
      requires Valid() && elem !in tops.contents && |tops.heap| < tops.maxElems
      modifies tops, this`stream
      ensures Valid() && stream == old(stream) + [(elem, w)]
      ensures Took(place, nTabs, tops.maxElems, old(Now()), elem, w, Now())
    {
      NewConserves(param * 10, sketch != null, Swept(), tops.contents, stream, elem, w);
      tops.AddNewElem(elem, w);
      stream := stream + [(elem, w)];
      TookNew(place, nTabs, tops.maxElems, old(Now()), elem, w);
    }

    method AddWeightedElem(elem: Bytes, w: int)
      requires Valid()
      modifies this, tops, sketch
      ensures Valid() && stream == old(stream) + [(elem, w)] && tot == old(tot) + 1
      ensures Took(place, nTabs, tops.maxElems, old(Now()), elem, w, Now())
      ensures sketch == old(sketch) || fresh(sketch)
    {
      tot := tot + 1;
      if tops.maxElems == 0 {
        stream := stream + [(elem, w)];
        return;
      }
      var known := tops.Find(elem);
      if known {
        AddToCandidate(elem, w);
        TookKnown(place, nTabs, tops.maxElems, old(Now()), elem, w, old(tops.pos)[elem], tops.heap);
      } else if |tops.heap| != tops.maxElems {
        AddCandidate(elem, w);
      } else {
        Compete(elem, w);
        TookContest(place, nTabs, tops.maxElems, old(Now()), elem, w, Now());
      }
    }

    method Clear()
      requires WellFormed()
      modifies this, tops
      ensures Valid() && stream == [] && tot == 0
    {
      tot := 0;
      tops.Clear();
      sketch := null;
      stream := [];
      StartConserves(param * 10);
    }

    /** Candidates heaviest first, then the sketch; a table without candidates writes nothing and is left as it is. */
    method Flush() returns (out: Flushed)
      requires Valid()
      modifies this, tops
      ensures Valid()
      ensures |PairsOf(out)| <= param * 10 && (out.Flushed? && out.nTabs > 0 ==> out.nTabs == nTabs && out.tabSize == tabSize)
      ensures out.Flushed? && out.nTabs == 0 ==> out.tabSize == 0
      ensures param > 0 ==> Describes(place, param * 10, out, old(Swept()), old(stream))
      ensures HeaviestFirst(PairsOf(out), old(tops.contents))
      ensures if |old(tops.heap)| == 0 then out == Nothing && unchanged(this) && unchanged(tops) && (param > 0 ==> stream == [])
              else EmitsOf(out) == old(tot) && stream == [] && tot == 0
    {
      if |tops.heap| == 0 {
        NoPairs(tops.contents);
        if param > 0 { NothingConserved(param * 10, sketch != null, Swept(), tops.contents, stream); }
        return Nothing;
      }
      var n := |tops.heap|;
      var pairs := SortedCandidates();
      if sketch != null {
        out := Flushed(tot - n, pairs, sketch.tabSize, nTabs, sketch.w);
      } else {
        out := Flushed(tot - n, pairs, 0, 0, []);
      }
      Clear();
    }

    /** The candidates, heaviest first; the heap is none any more. */
    method SortedCandidates() returns (pairs: seq<(Bytes, int)>)
      requires tops.Valid()
      modifies tops`heap, tops`pos
      ensures |pairs| == |old(tops.heap)| && Totals(pairs) == tops.contents && HeaviestFirst(pairs, tops.contents)
    {
      ghost var at := tops.Sort();
      pairs := Pairs(tops.heap);
      PairsTotals(tops.heap, at, tops.contents, |tops.heap|);
      SortedPairs(tops.heap, at, tops.contents);
    }

    /** The `param` heaviest candidates, heaviest first. */
    method FlushForDisplay() returns (shown: seq<Elem>)
      requires Valid()
      modifies tops`heap, tops`pos
      ensures Valid()
      ensures if tot == 0 then shown == [] else IsTop(shown, param, tops.contents)
    {
      if tot == 0 {
        return [];
      }
      shown := Heaviest();
    }

    method Heaviest() returns (shown: seq<Elem>)
      requires tops.Valid()
      modifies tops`heap, tops`pos
      ensures tops.Valid() && IsTop(shown, param, tops.contents)
    {
      ghost var at := tops.Sort();
      var nv := if param > |tops.heap| then |tops.heap| else param;
      shown := tops.heap[..nv];
      FirstAreTop(tops.heap, at, tops.contents, param);
      tops.ReHeap(at);
    }

    /**
     * Give each current candidate its weight from the other sketch. The heap is reordered under way, so a
     * candidate can be met twice or not at all: `moved` says whom each step met, and what it moved.
     */
    method AdjustCandidates(other: Sketch) returns (ghost moved: seq<(Bytes, int)>)
      requires Valid() && other.Valid() && other != sketch
      modifies tops, this`stream, other
      ensures Valid() && stream == old(stream) + moved
      ensures other.Valid() && other.swept == old(other.swept) + Negated(moved)
      ensures |moved| == |old(tops.heap)| && Distinct(old(tops.heap))
      ensures Walked(other.place, other.nTabs, old(tops.heap), old(other.swept), moved, tops.heap)
      ensures tops.contents == Gained(old(tops.contents), moved)
    {
      moved := [];
      ghost var heap0, held0, swept0, stream0 := tops.heap, tops.contents, other.swept, stream;
      HoldsDistinct(tops.heap, tops.pos, tops.contents);
      AdjustStarts(other.place, other.nTabs, heap0, held0, stream0, swept0);
      for i := 0 to |tops.heap|
        invariant Ready(other) && |tops.heap| == |heap0| && |moved| == i
        invariant Adjusting(other.place, other.nTabs, heap0, held0, stream0, swept0, moved, tops.heap, tops.contents, stream, other.swept)
      {
        moved := AdjustNext(other, i, heap0, held0, stream0, swept0, moved);
      }
      assert Key(TableFacts, 0);
      AdjustEnds(other.place, other.nTabs, heap0, held0, stream0, swept0, moved, tops.heap, tops.contents, stream, other.swept);
    }

    /** Both tables are as they should be. */
    ghost predicate Ready(other: Sketch)
      reads this, tops, sketch, other
    {
      forall k {:trigger Key(TableFacts, k)} :: Key(TableFacts, k) ==> Valid() && other.Valid() && other != sketch
    }

    /** One step of the walk. */
    method AdjustNext(other: Sketch, i: nat, ghost heap0: seq<Elem>, ghost held0: Weights, ghost stream0: seq<(Bytes, int)>,
                      ghost swept0: seq<(Bytes, int)>, ghost moved0: seq<(Bytes, int)>) returns (ghost moved: seq<(Bytes, int)>)
      requires Ready(other) && i < |tops.heap| == |heap0| && |moved0| == i
      requires Adjusting(other.place, other.nTabs, heap0, held0, stream0, swept0, moved0, tops.heap, tops.contents, stream, other.swept)
      modifies tops, this`stream, other
      ensures Ready(other) && |tops.heap| == |heap0| && |moved| == i + 1
      ensures Adjusting(other.place, other.nTabs, heap0, held0, stream0, swept0, moved, tops.heap, tops.contents, stream, other.swept)
    {
      ghost var heap, held, str, left := tops.heap, tops.contents, stream, other.swept;
      ghost var e, w := AdjustOne(other, i);
      AdjustStep(other.place, other.nTabs, heap0, held0, stream0, swept0, moved0, heap, held, str, left, e, w, tops.heap);
      moved := moved0 + [(e, w)];
    }

    /** Add the weight of the element at `i` from the other sketch, and take it away there. */
    method AdjustOne(other: Sketch, i: nat) returns (ghost e: Bytes, ghost w: int)
      requires Ready(other) && i < |tops.heap|
      modifies tops, this`stream, other
      ensures Ready(other) && other.nTabs > 0 && stream == old(stream) + [(e, w)] && |tops.heap| == |old(tops.heap)|
      ensures other.swept == old(other.swept) + [(e, -w)]
      ensures e == old(tops.heap)[i].value && IsEstimate(other.place, other.nTabs, old(other.swept), e, w)
      ensures IsFixed(Reweigh(old(tops.heap), i, w), i, tops.heap)
      ensures e in old(tops.contents) && tops.contents == old(tops.contents)[e := old(tops.contents)[e] + w]
    {
      assert Key(TableFacts, 0);
      var elem := tops.heap[i].value;
      PlacedNext(tops.heap, tops.pos, tops.contents, i);
      var est := other.Estimate(elem);
      AddToCandidate(elem, est);
      other.AddSub(elem, est, false);
      e, w := elem, est;
    }

    method AddAll(pairs: seq<(Bytes, int)>) returns (ghost states: seq<State>)
      requires Valid()
      modifies this, tops, sketch
      ensures Valid() && stream == old(stream) + pairs && tot == old(tot) + |pairs|
      ensures TookAll(place, nTabs, tops.maxElems, old(Now()), pairs, states, Now())
      ensures sketch == old(sketch) || fresh(sketch)
    {
      states := [Now()];
      TookNone(place, nTabs, tops.maxElems, Now());
      for i := 0 to |pairs|
        invariant Valid() && stream == old(stream) + pairs[..i] && tot == old(tot) + i
        invariant TookAll(place, nTabs, tops.maxElems, old(Now()), pairs[..i], states, Now())
        invariant sketch == old(sketch) || fresh(sketch)
      {
        ghost var before := Now();
        OneMorePair(old(stream), pairs, i);
        AddWeightedElem(pairs[i].0, pairs[i].1);
        TookOne(place, nTabs, tops.maxElems, old(Now()), pairs, i, states, before, Now());
        states := states + [Now()];
      }
      assert pairs[..|pairs|] == pairs;
    }

    /** Combine the two sketches. */
    method TakeSketch(other: Sketch)
      requires WellFormed() && other.Valid() && other != sketch && param > 0
      requires other.nTabs == nTabs && other.tabSize == tabSize && other.place == place
      modifies this`sketch, sketch
      ensures WellFormed() && sketch != null && sketch.swept == old(Swept()) + other.swept
      ensures sketch == old(sketch) || sketch == other
    {
      if sketch == null {
        sketch := other;
      } else {
        sketch.AddSketch(other);
      }
    }

    predicate Acceptable(val: Flushed) {
      val.Nothing? || (|val.pairs| <= param * 10 && if val.nTabs != 0 then val.nTabs == nTabs && val.tabSize == tabSize else val.tabSize == 0)
    }

    /** Merge what another entry flushed after `stream1`. */
    method Merge(val: Flushed, ghost swept1: seq<(Bytes, int)>, ghost stream1: seq<(Bytes, int)>)
      returns (status: MergeStatus, ghost moved: seq<(Bytes, int)>, ghost states: seq<State>)
      requires Valid()
      requires Acceptable(val) ==> if param > 0 then Describes(place, param * 10, val, swept1, stream1) else val.Nothing?
      modifies this, tops, sketch
      ensures status == if Acceptable(val) then MergeOk else MergeError
      ensures status == MergeError ==> unchanged(this) && unchanged(tops) && (sketch != null ==> unchanged(sketch))
      ensures status == MergeOk ==> Valid() && stream == old(stream) + stream1 && tot == old(tot) + EmitsOf(val)
      ensures status == MergeOk && val.Flushed? && val.nTabs != 0 ==> Adjusted(place, nTabs, old(tops.heap), swept1, moved, Swept())
      ensures status == MergeOk && val.Nothing? ==> Now() == old(Now())
      ensures status == MergeOk && val.Flushed? ==> Combined(place, nTabs, tops.maxElems, old(Now()), val, swept1, moved, states, Now())
      ensures sketch == old(sketch) || fresh(sketch)
    {
      moved, states := [], [];
      if val.Nothing? {
        Relabel(stream, val, swept1, stream1);
        return MergeOk, moved, states;
      }
      if |val.pairs| > tops.maxElems {
        return MergeError, moved, states;
      }
      if val.nTabs != 0 && (val.nTabs != nTabs || val.tabSize != tabSize) {
        return MergeError, moved, states;
      }
      if val.nTabs == 0 && val.tabSize != 0 {
        return MergeError, moved, states;
      }
      moved, states := Absorb(val, swept1, stream1);
      status := MergeOk;
    }

    /** Once the string is known to be good: candidates, then new candidates, then sketches. */
    method Absorb(val: Flushed, ghost swept1: seq<(Bytes, int)>, ghost stream1: seq<(Bytes, int)>)
      returns (ghost moved: seq<(Bytes, int)>, ghost states: seq<State>)
      requires Valid() && val.Flushed? && param > 0 && (val.nTabs != 0 ==> val.nTabs == nTabs && val.tabSize == tabSize)
      requires Describes(place, param * 10, val, swept1, stream1)
      modifies this, tops, sketch
      ensures Valid() && stream == old(stream) + stream1 && tot == old(tot) + val.extra + |val.pairs|
      ensures val.nTabs != 0 ==> Adjusted(place, nTabs, old(tops.heap), swept1, moved, Swept())
      ensures Combined(place, nTabs, tops.maxElems, old(Now()), val, swept1, moved, states, Now())
      ensures sketch == old(sketch) || fresh(sketch)
    {
      moved := [];
      if val.nTabs != 0 {
        moved, states := MergeSketched(val, swept1, stream1);
      } else {
        states := AddAll(val.pairs);
        Relabel(old(stream), val, swept1, stream1);
        CombinedPlain(place, nTabs, tops.maxElems, old(Now()), val, swept1, moved, states, Now());
      }
      tot := tot + val.extra;
    }

    /** Pairs that stand for a stream are as good as the stream. */
    ghost method Relabel(s: seq<(Bytes, int)>, val: Flushed, swept1: seq<(Bytes, int)>, stream1: seq<(Bytes, int)>)
      requires Valid() && stream == s + PairsOf(val) && (val.Flushed? ==> val.nTabs == 0)
      requires param > 0 ==> Describes(place, param * 10, val, swept1, stream1)
      modifies this`stream
      ensures Valid() && stream == s + stream1
    {
      if param > 0 {
        JoinedPlain(param * 10, sketch != null, Swept(), tops.contents, s, PairsOf(val), stream1);
      }
      stream := s + stream1;
    }

    /** Steps 1 and 2: adjust candidates, then add those of the other table. */
    method AdjustAndAdd(other: Sketch, pairs: seq<(Bytes, int)>) 
      returns (ghost moved: seq<(Bytes, int)>, ghost after: seq<Elem>, ghost states: seq<State>)
      requires Valid() && other.Valid() && other != sketch
      modifies this, tops, sketch, other
      ensures Valid() && stream == old(stream) + moved + pairs && tot == old(tot) + |pairs|
      ensures other.Valid() && other.swept == old(other.swept) + Negated(moved) && other != sketch
      ensures |moved| == |old(tops.heap)| && Distinct(old(tops.heap))
      ensures Walked(other.place, other.nTabs, old(tops.heap), old(other.swept), moved, after)
      ensures TookAll(place, nTabs, tops.maxElems, State(Gained(old(tops.contents), moved), after, old(Swept())), pairs, states, Now())
      ensures sketch == old(sketch) || fresh(sketch)
    {
      moved := AdjustCandidates(other);
      after := tops.heap;
      states := AddAll(pairs);
    }

    method MergeSketched(val: Flushed, ghost swept1: seq<(Bytes, int)>, ghost stream1: seq<(Bytes, int)>)
      returns (ghost moved: seq<(Bytes, int)>, ghost states: seq<State>)
      requires Valid() && val.Flushed? && param > 0 && val.nTabs == nTabs && val.tabSize == tabSize
      requires Describes(place, param * 10, val, swept1, stream1)
      modifies this, tops, sketch
      ensures Valid() && stream == old(stream) + stream1 && tot == old(tot) + |val.pairs|
      ensures Adjusted(place, nTabs, old(tops.heap), swept1, moved, Swept())
      ensures Combined(place, nTabs, tops.maxElems, old(Now()), val, swept1, moved, states, Now())
      ensures sketch == old(sketch) || fresh(sketch)
    {
      var newsketch := new Sketch(nTabs, tabSize, place);
      newsketch.Decode(val.cells, swept1);
      ghost var after;
      moved, after, states := AdjustAndAdd(newsketch, val.pairs);
      TakeRest(newsketch, old(stream), old(Now()), moved, after, states, val, swept1, stream1);
    }

    method TakeRest(other: Sketch, ghost stream0: seq<(Bytes, int)>, ghost a: State, ghost moved: seq<(Bytes, int)>, ghost after: seq<Elem>,
                    ghost states: seq<State>, val: Flushed, ghost swept1: seq<(Bytes, int)>, ghost stream1: seq<(Bytes, int)>)
      requires val.Flushed? && val.nTabs > 0 && Describes(place, param * 10, val, swept1, stream1)
      requires Valid() && stream == stream0 + moved + val.pairs && param > 0
      requires other.Valid() && other != sketch && other.swept == swept1 + Negated(moved)
      requires other.nTabs == nTabs && other.tabSize == tabSize && other.place == place
      requires |moved| == |a.h| && Distinct(a.h) && Walked(place, nTabs, a.h, swept1, moved, after)
      requires TookAll(place, nTabs, tops.maxElems, State(Gained(a.m, moved), after, a.s), val.pairs, states, Now())
      modifies this`sketch, this`stream, sketch
      ensures Valid() && stream == stream0 + stream1 && Adjusted(place, nTabs, a.h, swept1, moved, Swept())
      ensures Combined(place, nTabs, tops.maxElems, a, val, swept1, moved, states, Now())
      ensures sketch == old(sketch) || sketch == other
    {
      JoinedSketch(param * 10, sketch != null, Swept(), tops.contents, stream0, moved, val.pairs, swept1, stream1);
      TakeSketch(other);
      stream := stream0 + stream1;
      IsAdjusted(place, nTabs, a.h, swept1, moved, after, old(Swept()), Swept());
      CombinedSketched(place, nTabs, tops.maxElems, a, val, swept1, moved, after, states, old(Now()), Now());
    }
  }

  lemma HoldsDistinct(s: seq<Elem>, index: map<Bytes, nat>, m: Weights)
    requires Holds(s, index, m)
    ensures Distinct(s)
  {
    forall i, j | 0 <= i < j < |s| ensures s[i].value != s[j].value { assert Placed(s, index, i) && Placed(s, index, j); }
  }

  /** What candidates weigh after what they gained. */
  function Gained(m: Weights, moved: seq<(Bytes, int)>): (r: Weights) {
    map v | v in m :: m[v] + Net(moved, v)
  }

  ghost predicate Gaining(m: Weights, moved: seq<(Bytes, int)>, r: Weights) {
    forall k {:trigger Key(WalkFacts, k)} :: Key(WalkFacts, k) ==> r == Gained(m, moved)
  }

  lemma NothingGained(m: Weights)
    ensures Gaining(m, [], m)
  {
    assert Gained(m, []) == m;
  }

  lemma GainMore(m: Weights, moved: seq<(Bytes, int)>, r: Weights, e: Bytes, w: int)
    requires Gaining(m, moved, r) && e in r
    ensures Gaining(m, moved + [(e, w)], r[e := r[e] + w])
  {
    assert Key(WalkFacts, 0);
    assert (moved + [(e, w)])[..|moved|] == moved;
    assert r[e := r[e] + w] == Gained(m, moved + [(e, w)]);
  }

  /** The walk so far, with all that it changes. */
  ghost predicate Adjusting(place: Hash, nTabs: nat, s: seq<Elem>, m0: Weights, stream0: seq<(Bytes, int)>, swept0: seq<(Bytes, int)>,
                            moved: seq<(Bytes, int)>, heap: seq<Elem>, m: Weights, stream: seq<(Bytes, int)>, swept: seq<(Bytes, int)>) {
    forall k {:trigger Key(WalkFacts, k)} :: Key(WalkFacts, k) ==>
      && Walking(place, nTabs, s, swept0, moved, heap) && Gaining(m0, moved, m)
      && stream == stream0 + moved && swept == swept0 + Negated(moved)
  }

  lemma AdjustStarts(place: Hash, nTabs: nat, s: seq<Elem>, m: Weights, stream: seq<(Bytes, int)>, swept: seq<(Bytes, int)>)
    ensures Adjusting(place, nTabs, s, m, stream, swept, [], s, m, stream, swept)
  {
    WalkStarts(place, nTabs, s, swept);
    NothingGained(m);
    assert stream + [] == stream && swept + Negated([]) == swept;
  }

  ghost predicate IsEstimate(place: Hash, nTabs: nat, s: seq<(Bytes, int)>, e: Bytes, w: int) {
    forall k {:trigger Key(SketchFacts, k)} :: Key(SketchFacts, k) ==> nTabs > 0 && w == Estimated(place, nTabs, s, e)
  }

  lemma AdjustStep(place: Hash, nTabs: nat, s: seq<Elem>, m0: Weights, stream0: seq<(Bytes, int)>, swept0: seq<(Bytes, int)>,
                   moved: seq<(Bytes, int)>, heap: seq<Elem>, m: Weights, stream: seq<(Bytes, int)>, swept: seq<(Bytes, int)>,
                   e: Bytes, w: int, after: seq<Elem>)
    requires nTabs > 0 && Adjusting(place, nTabs, s, m0, stream0, swept0, moved, heap, m, stream, swept) && |moved| < |s| == |heap|
    requires e == heap[|moved|].value && IsEstimate(place, nTabs, swept, e, w) && e in m
    requires IsFixed(Reweigh(heap, |moved|, w), |moved|, after)
    ensures Adjusting(place, nTabs, s, m0, stream0, swept0, moved + [(e, w)], after, m[e := m[e] + w], stream + [(e, w)], swept + [(e, -w)])
  {
    assert Key(WalkFacts, 0) && Key(SketchFacts, 0);
    WalkOn(place, nTabs, s, swept0, moved, heap, w, after);
    GainMore(m0, moved, m, e, w);
    OneMoreMoved(stream0, swept0, moved, e, w);
  }

  lemma AdjustEnds(place: Hash, nTabs: nat, s: seq<Elem>, m0: Weights, stream0: seq<(Bytes, int)>, swept0: seq<(Bytes, int)>,
                   moved: seq<(Bytes, int)>, heap: seq<Elem>, m: Weights, stream: seq<(Bytes, int)>, swept: seq<(Bytes, int)>)
    requires Adjusting(place, nTabs, s, m0, stream0, swept0, moved, heap, m, stream, swept)
    ensures Walked(place, nTabs, s, swept0, moved, heap) && m == Gained(m0, moved)
    ensures stream == stream0 + moved && swept == swept0 + Negated(moved)
  {
    assert Key(WalkFacts, 0);
    WalkEnds(place, nTabs, s, swept0, moved, heap);
  }

  /**
   * The walk over the candidates `heap` has given them `moved` out of the other sketch, and what is left
   * there of `swept1` has been added to ours.
   */
  ghost predicate Adjusted(place: Hash, nTabs: nat, heap: seq<Elem>, swept1: seq<(Bytes, int)>, moved: seq<(Bytes, int)>, swept: seq<(Bytes, int)>) {
    forall k {:trigger Key(WalkFacts, k)} :: Key(WalkFacts, k) ==>
      && |moved| == |heap| && Distinct(heap) && Walked(place, nTabs, heap, swept1, moved, Walk(heap, moved))
      && exists before :: swept == before + (swept1 + Negated(moved))
  }

  lemma IsAdjusted(place: Hash, nTabs: nat, heap: seq<Elem>, swept1: seq<(Bytes, int)>, moved: seq<(Bytes, int)>, after: seq<Elem>,
                   before: seq<(Bytes, int)>, swept: seq<(Bytes, int)>)
    requires |moved| == |heap| && Distinct(heap) && Walked(place, nTabs, heap, swept1, moved, after)
    requires swept == before + (swept1 + Negated(moved))
    ensures Adjusted(place, nTabs, heap, swept1, moved, swept)
  {
  }

  /**
   * Merging a table into one in state `a`: the candidates gain what the walk moved, if there is a sketch to move it
   * from; the other table's candidates are taken in one after another, in order; what is left of the other
   * sketch is added to ours.
   */
  ghost predicate Combined(place: Hash, nTabs: nat, max: nat, a: State, val: Flushed, swept1: seq<(Bytes, int)>, moved: seq<(Bytes, int)>,
                            states: seq<State>, b: State)
    requires val.Flushed?
  {
    forall k {:trigger Key(WalkFacts, k)} :: Key(WalkFacts, k) ==>
      && states != [] && b.m == states[|states| - 1].m && b.h == states[|states| - 1].h
      && TookAll(place, nTabs, max, states[0], val.pairs, states, states[|states| - 1])
      && if val.nTabs == 0 then states[0] == a && b.s == states[|states| - 1].s
         else |moved| == |a.h| && states[0] == State(Gained(a.m, moved), Walk(a.h, moved), a.s) && b.s == states[|states| - 1].s + (swept1 + Negated(moved))
  }

  lemma CombinedPlain(place: Hash, nTabs: nat, max: nat, a: State, val: Flushed, swept1: seq<(Bytes, int)>, moved: seq<(Bytes, int)>,
                      states: seq<State>, b: State)
    requires val.Flushed? && val.nTabs == 0 && TookAll(place, nTabs, max, a, val.pairs, states, b)
    ensures Combined(place, nTabs, max, a, val, swept1, moved, states, b)
  {
    assert Key(ChainFacts, 0);
  }

  lemma CombinedSketched(place: Hash, nTabs: nat, max: nat, a: State, val: Flushed, swept1: seq<(Bytes, int)>, moved: seq<(Bytes, int)>,
                         after: seq<Elem>, states: seq<State>, last: State, b: State)
    requires val.Flushed? && val.nTabs != 0 && TookAll(place, nTabs, max, State(Gained(a.m, moved), after, a.s), val.pairs, states, last)
    requires |moved| == |a.h| && Walked(place, nTabs, a.h, swept1, moved, after)
    requires b.m == last.m && b.h == last.h && b.s == last.s + (swept1 + Negated(moved))
    ensures Combined(place, nTabs, max, a, val, swept1, moved, states, b)
  {
    assert Key(ChainFacts, 0) && Key(WalkFacts, 0);
  }

  /** So whom a merge takes in, step by step. */
  lemma MergedAdmits(place: Hash, nTabs: nat, max: nat, a: State, val: Flushed, swept1: seq<(Bytes, int)>, moved: seq<(Bytes, int)>,
                     states: seq<State>, b: State, i: nat)
    requires nTabs > 0 && max > 0 && val.Flushed? && i < |val.pairs| && Combined(place, nTabs, max, a, val, swept1, moved, states, b)
    ensures |states| == |val.pairs| + 1
    ensures states[0].m == (if val.nTabs == 0 then a.m else Gained(a.m, moved)) && states[|val.pairs|].m == b.m
    ensures Admitted(place, nTabs, max, states[i], val.pairs[i].0, val.pairs[i].1, states[i + 1])
  {
    assert Key(ChainFacts, 0) && Key(WalkFacts, 0);
    TookAdmits(place, nTabs, max, states[i], val.pairs[i].0, val.pairs[i].1, states[i + 1]);
  }

  lemma OneMoreMoved(stream: seq<(Bytes, int)>, swept: seq<(Bytes, int)>, moved: seq<(Bytes, int)>, e: Bytes, w: int)
    ensures stream + moved + [(e, w)] == stream + (moved + [(e, w)])
    ensures swept + Negated(moved) + [(e, -w)] == swept + Negated(moved + [(e, w)])
  {
    assert (moved + [(e, w)])[..|moved|] == moved;
  }

  function Pairs(s: seq<Elem>): (pairs: seq<(Bytes, int)>)
    ensures |pairs| == |s|
  {
    if s == [] then [] else Pairs(s[..|s| - 1]) + [(s[|s| - 1].value, s[|s| - 1].weight)]
  }

  /** The first `n` elements that an indexed array holds. */
  ghost predicate FirstOnes(index: map<Bytes, nat>, m: Weights, n: nat, t: Weights) {
    forall v :: (v in t <==> v in index && index[v] < n) && (v in t ==> v in m && t[v] == m[v])
  }

  lemma {:induction false} PairsFirst(s: seq<Elem>, index: map<Bytes, nat>, m: Weights, n: nat)
    requires Holds(s, index, m) && n <= |s|
    ensures FirstOnes(index, m, n, Totals(Pairs(s[..n])))
  {
    if n > 0 {
      PairsFirst(s, index, m, n - 1);
      var before, e := Pairs(s[..n - 1]), s[n - 1];
      PairsNext(s, n);
      OneMore(before, e.value, e.weight);
      PlacedNext(s, index, m, n - 1);
      NextOne(s, index, m, n - 1);
      NextFirst(index, m, n - 1, Totals(before), e.value, e.weight);
    }
  }

  lemma PairsNext(s: seq<Elem>, n: nat)
    requires 0 < n <= |s|
    ensures Pairs(s[..n]) == Pairs(s[..n - 1]) + [(s[n - 1].value, s[n - 1].weight)]
  {
    assert s[..n][..n - 1] == s[..n - 1];
  }

  lemma PlacedNext(s: seq<Elem>, index: map<Bytes, nat>, m: Weights, n: nat)
    requires Holds(s, index, m) && n < |s|
    ensures s[n].value in index && index[s[n].value] == n && s[n].value in m && m[s[n].value] == s[n].weight
  {
    assert Placed(s, index, n) && Found(s, index, m, s[n].value);
  }

  lemma NextFirst(index: map<Bytes, nat>, m: Weights, n: nat, t: Weights, e: Bytes, w: int)
    requires FirstOnes(index, m, n, t) && e in index && index[e] == n && e in m && m[e] == w
    requires forall v :: v in index && index[v] == n ==> v == e
    ensures FirstOnes(index, m, n + 1, Bump(t, e, w))
  {
  }

  lemma NextOne(s: seq<Elem>, index: map<Bytes, nat>, m: Weights, n: nat)
    requires Holds(s, index, m) && n < |s|
    ensures forall v :: v in index && index[v] == n ==> v == s[n].value
  {
    forall v | v in index && index[v] == n ensures v == s[n].value { assert Found(s, index, m, v); }
  }

  lemma PairsTotals(s: seq<Elem>, index: map<Bytes, nat>, m: Weights, n: nat)
    requires Holds(s, index, m) && n == |s|
    ensures Totals(Pairs(s)) == m
  {
    PairsFirst(s, index, m, n);
    assert s[..n] == s;
    forall v ensures v in m ==> index[v] < n { assert Found(s, index, m, v); }
    assert Totals(Pairs(s)).Keys == m.Keys;
  }

  /** The `n` heaviest of `m`, or all if there are fewer, each once with its weight, heaviest first. */
  ghost predicate IsTop(shown: seq<Elem>, n: nat, m: Weights) {
    && |shown| == (if |m| < n then |m| else n)
    && (forall i, j :: 0 <= i < j < |shown| ==> shown[i].value != shown[j].value && shown[i].weight >= shown[j].weight)
    && (forall i :: 0 <= i < |shown| ==> shown[i].value in m && m[shown[i].value] == shown[i].weight)
    && (forall v :: v in m && (forall i :: 0 <= i < |shown| ==> shown[i].value != v) ==>
          forall i :: 0 <= i < |shown| ==> m[v] <= shown[i].weight)
  }

  /** Exactly what `m` holds, each element once, heaviest first. */
  ghost predicate HeaviestFirst(pairs: seq<(Bytes, int)>, m: Weights) {
    && |pairs| == |m|
    && (forall i, j :: 0 <= i < j < |pairs| ==> pairs[i].0 != pairs[j].0 && pairs[i].1 >= pairs[j].1)
    && (forall i :: 0 <= i < |pairs| ==> pairs[i].0 in m && m[pairs[i].0] == pairs[i].1)
    && (forall v :: v in m ==> (v, m[v]) in pairs)
  }

  lemma NoPairs(m: Weights)
    requires |m| == 0
    ensures HeaviestFirst([], m)
  {
    assert m == map[];
  }

  lemma {:induction false} PairsAt(s: seq<Elem>, i: nat)
    requires i < |s|
    ensures Pairs(s)[i] == (s[i].value, s[i].weight)
  {
    if i < |s| - 1 { PairsAt(s[..|s| - 1], i); }
  }

  lemma SortedPairs(s: seq<Elem>, index: map<Bytes, nat>, m: Weights)
    requires Holds(s, index, m) && DescendingFrom(s, 0)
    ensures HeaviestFirst(Pairs(s), m)
  {
    var pairs := Pairs(s);
    forall i, j | 0 <= i < j < |s| ensures pairs[i].0 != pairs[j].0 && pairs[i].1 >= pairs[j].1 {
      PairsAt(s, i);
      PairsAt(s, j);
      assert Placed(s, index, i) && Placed(s, index, j) && NoneLighter(s, j, s[j].weight);
    }
    forall i | 0 <= i < |s| ensures pairs[i].0 in m && m[pairs[i].0] == pairs[i].1 {
      PairsAt(s, i);
      assert Placed(s, index, i) && Found(s, index, m, s[i].value);
    }
    forall v | v in m ensures (v, m[v]) in pairs {
      assert Found(s, index, m, v);
      PairsAt(s, index[v]);
    }
  }

  /** What is reported of a flushed table: the first `n` of its pairs. */
  function Reported(pairs: seq<(Bytes, int)>, n: nat): (shown: seq<Elem>)
    ensures |shown| == if |pairs| < n then |pairs| else n
    ensures forall i :: 0 <= i < |shown| ==> shown[i] == Elem(pairs[i].0, pairs[i].1)
  {
    seq(if |pairs| < n then |pairs| else n, i requires 0 <= i < |pairs| => Elem(pairs[i].0, pairs[i].1))
  }

  /** They are the `n` heaviest, for every `n`. */
  lemma ReportedAreTop(pairs: seq<(Bytes, int)>, m: Weights, n: nat)
    requires HeaviestFirst(pairs, m)
    ensures IsTop(Reported(pairs, n), n, m)
  {
    var shown := Reported(pairs, n);
    forall v, i | v in m && 0 <= i < |shown| && (forall i :: 0 <= i < |shown| ==> shown[i].value != v) ensures m[v] <= shown[i].weight {
      var j :| 0 <= j < |pairs| && pairs[j] == (v, m[v]);
      assert j >= |shown|;
    }
  }

  lemma FirstAreTop(s: seq<Elem>, index: map<Bytes, nat>, m: Weights, n: nat)
    requires Holds(s, index, m) && DescendingFrom(s, 0)
    ensures IsTop(s[..if n > |s| then |s| else n], n, m)
  {
    var shown := s[..if n > |s| then |s| else n];
    forall i, j | 0 <= i < j < |shown| ensures shown[i].value != shown[j].value && shown[i].weight >= shown[j].weight {
      assert Placed(s, index, i) && Placed(s, index, j) && NoneLighter(s, j, s[j].weight);
    }
    forall i | 0 <= i < |shown| ensures shown[i].value in m && m[shown[i].value] == shown[i].weight {
      assert Placed(s, index, i) && Found(s, index, m, s[i].value);
    }
    forall v, i | v in m && 0 <= i < |shown| && (forall i :: 0 <= i < |shown| ==> shown[i].value != v) ensures m[v] <= shown[i].weight {
      assert Found(s, index, m, v) && NoneLighter(s, index[v], s[index[v]].weight);
    }
  }

  lemma NothingConserved(max: nat, sketched: bool, swept: seq<(Bytes, int)>, tops: Weights, stream: seq<(Bytes, int)>)
    requires Conserves(max, sketched, swept, tops, stream) && |tops| == 0
    ensures tops == map[] && stream == [] && Conserves(max, false, swept, map[], stream)
  {
    assert Key(ShareFacts, 0);
  }

  /** There is a sketch exactly when there were more distinct elements than candidates, and without one nothing is missing. */
  lemma SketchedIff(max: nat, sketched: bool, swept: seq<(Bytes, int)>, tops: Weights, stream: seq<(Bytes, int)>)
    requires Conserves(max, sketched, swept, tops, stream) && |tops| <= max
    ensures sketched <==> |Totals(stream)| > max
    ensures !sketched ==> tops == Totals(stream)
  {
    assert Key(ShareFacts, 0);
  }

  lemma StartConserves(max: nat)
    ensures Conserves(max, false, [], map[], [])
  {
  }

  // ------------------------------------------------------------------------------------- runs

  method Replay(run: Run, param: nat, nTabs: nat, tabSize: nat, place: Hash) returns (entry: TopEntry)
    requires nTabs > 0 && InRange(place, tabSize)
    ensures fresh(entry) && fresh(entry.tops) && (entry.sketch != null ==> fresh(entry.sketch))
    ensures entry.Valid() && entry.stream == Stream(run) && entry.tot == Counted(run, param)
    ensures entry.param == param && entry.nTabs == nTabs && entry.tabSize == tabSize && entry.place == place
    decreases run, 1
  {
    match run
    case Start =>
      entry := new TopEntry(param, nTabs, tabSize, place);
    case Add(r, e, w) =>
      entry := Replay(r, param, nTabs, tabSize, place);
      entry.AddWeightedElem(e, w);
    case Join(a, b) =>
      entry := Replay(a, param, nTabs, tabSize, place);
      var out, swept := FlushRun(b, param, nTabs, tabSize, place);
      ghost var moved, states;
      var status;
      status, moved, states := entry.Merge(out, swept, Stream(b));
      assert status == MergeOk;
  }

  method FlushRun(run: Run, param: nat, nTabs: nat, tabSize: nat, place: Hash) returns (out: Flushed, ghost swept: seq<(Bytes, int)>)
    requires nTabs > 0 && InRange(place, tabSize)
    ensures |PairsOf(out)| <= param * 10 && (out.Flushed? && out.nTabs > 0 ==> out.nTabs == nTabs && out.tabSize == tabSize)
    ensures out.Flushed? && out.nTabs == 0 ==> out.tabSize == 0
    ensures if param > 0 then Describes(place, param * 10, out, swept, Stream(run)) else out == Nothing
    ensures param > 0 && |Totals(Stream(run))| <= 10 * param ==> HeaviestFirst(PairsOf(out), Totals(Stream(run)))
    ensures EmitsOf(out) == if param > 0 then Counted(run, param) else 0
    decreases run, 2
  {
    var entry := Replay(run, param, nTabs, tabSize, place);
    swept := entry.Swept();
    CountedExactly(run, param);
    if param > 0 { SketchedIff(param * 10, entry.sketch != null, swept, entry.tops.contents, Stream(run)); }
    out := entry.Flush();
  }

  /** What is reported of a flushed table is the exact top of the stream too, if there is room for all of it. */
  method ReportFlushed(run: Run, param: nat, nTabs: nat, tabSize: nat, place: Hash) returns (shown: seq<Elem>)
    requires nTabs > 0 && InRange(place, tabSize)
    ensures param > 0 && |Totals(Stream(run))| <= 10 * param ==> IsTop(shown, param, Totals(Stream(run)))
  {
    var out, swept := FlushRun(run, param, nTabs, tabSize, place);
    shown := Reported(PairsOf(out), param);
    if param > 0 && |Totals(Stream(run))| <= 10 * param { ReportedAreTop(PairsOf(out), Totals(Stream(run)), param); }
  }

  function Cell(cells: Cells, row: nat, col: nat): (r: int) {
    if row < |cells| && col < |cells[row]| then cells[row][col] else 0
  }

  /** What is held in a cell, by the sketch and by the candidates counted there, is what the whole stream adds up to there. */
  lemma CellConserved(place: Hash, w: Cells, swept: seq<(Bytes, int)>, tops: seq<(Bytes, int)>, stream: seq<(Bytes, int)>, row: nat, col: nat)
    requires forall y {:trigger Accounts(swept, Totals(tops), stream, y)} :: Accounts(swept, Totals(tops), stream, y)
    requires Cell(w, row, col) == Mass(place, swept, row, col)
    ensures Cell(w, row, col) + Mass(place, tops, row, col) == Mass(place, stream, row, col)
  {
    forall y ensures Net(swept + tops, y) == Net(stream, y) {
      NetConcat(swept, tops, y);
      NetTotals(tops, y);
      assert Accounts(swept, Totals(tops), stream, y);
    }
    SameNetSameMass(place, swept + tops, stream, row, col);
    MassConcat(place, swept, tops, row, col);
  }

  /** Cell by cell, a sketch and candidates hold what `stream` adds up to. */
  ghost predicate NothingLost(place: Hash, nTabs: nat, tabSize: nat, cells: Cells, candidates: seq<Elem>, stream: seq<(Bytes, int)>) {
    forall row: nat, col: nat :: row < nTabs && col < tabSize ==>
      Cell(cells, row, col) + Mass(place, Pairs(candidates), row, col) == Mass(place, stream, row, col)
  }

  lemma AllAccounted(place: Hash, nTabs: nat, tabSize: nat, max: nat, cells: Cells, candidates: seq<Elem>, sketched: bool,
                     swept: seq<(Bytes, int)>, stream: seq<(Bytes, int)>)
    requires Conserves(max, sketched, swept, Totals(Pairs(candidates)), stream)
    requires if sketched then Shaped(cells, nTabs, tabSize) && Sums(place, cells, swept) else cells == []
    ensures NothingLost(place, nTabs, tabSize, cells, candidates, stream)
  {
    assert Key(ShareFacts, 0);
    forall row: nat, col: nat | row < nTabs && col < tabSize
      ensures Cell(cells, row, col) + Mass(place, Pairs(candidates), row, col) == Mass(place, stream, row, col)
    {
      assert sketched ==> cells[row][col] == Mass(place, swept, row, col);
      CellConserved(place, cells, swept, Pairs(candidates), stream, row, col);
    }
  }

  /**
   * A `top(param)` table after any run: nothing is lost, cell by cell; there is no sketch if and only if
   * there were no more distinct elements than candidates, and then the heaviest of the whole stream are shown.
   */
  method Report(run: Run, param: nat, nTabs: nat, tabSize: nat, place: Hash)
    returns (shown: seq<Elem>, candidates: seq<Elem>, cells: Cells, tot: int)
    requires nTabs > 0 && InRange(place, tabSize)
    ensures param > 0 ==> NothingLost(place, nTabs, tabSize, cells, candidates, Stream(run))
    ensures param > 0 ==> IsTop(shown, param, Totals(Pairs(candidates)))
    ensures param > 0 ==> (cells == [] <==> |Totals(Stream(run))| <= 10 * param)
    ensures param > 0 && |Totals(Stream(run))| <= 10 * param ==> IsTop(shown, param, Totals(Stream(run)))
    ensures tot == |Stream(run)| <==> param > 0 || JoinedIn(run) == 0
  {
    var entry := Replay(run, param, nTabs, tabSize, place);
    CountedExactly(run, param);
    tot := entry.tot;
    shown := entry.FlushForDisplay();
    candidates, cells := entry.tops.heap, if entry.sketch == null then [] else entry.sketch.w;
    PairsTotals(candidates, entry.tops.pos, entry.tops.contents, |candidates|);
    if param > 0 {
      SketchedIff(param * 10, entry.sketch != null, entry.Swept(), entry.tops.contents, Stream(run));
      AllAccounted(place, nTabs, tabSize, param * 10, cells, candidates, entry.sketch != null, entry.Swept(), Stream(run));
    }
  }
}

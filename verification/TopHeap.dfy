/**
 * The candidates of a `top` table: a binary heap of weighted elements, lightest first, with an index
 * from each value to its position.
 */
module TopHeap {
  import opened HeapShape
  import opened Sealing
  import opened ByteStrings
  import opened WeightTables

  // ------------------------------------------------------------------- heaps with one element out of place

  /** Among the first `n` elements no child is lighter than its parent. */
  ghost predicate IsHeap(s: seq<Elem>, n: nat) {
    n <= |s| && forall i :: 1 <= i < n ==> s[Parent(i)].weight <= s[i].weight
  }

  /** A heap but that the element at `h` may be lighter than its parent. */
  ghost predicate LightAt(s: seq<Elem>, h: nat) {
    && h < |s|
    && (forall i :: 1 <= i < |s| && i != h ==> s[Parent(i)].weight <= s[i].weight)
    && (forall i :: 1 <= i < |s| && h > 0 && Parent(i) == h ==> s[Parent(h)].weight <= s[i].weight)
  }

  /** A heap of `n` elements but that the element at `h` may be heavier than its children. */
  ghost predicate HeavyAt(s: seq<Elem>, h: nat, n: nat) {
    && h < n <= |s|
    && (forall i :: 1 <= i < n && Parent(i) != h ==> s[Parent(i)].weight <= s[i].weight)
    && (forall i :: 1 <= i < n && h > 0 && Parent(i) == h ==> s[Parent(h)].weight <= s[i].weight)
  }

  lemma LightStep(s: seq<Elem>, h: nat)
    requires LightAt(s, h) && h > 0 && s[h].weight < s[Parent(h)].weight
    ensures LightAt(Swap(s, h, Parent(h)), Parent(h))
  {
    var p := Parent(h);
    var t := Swap(s, h, p);
    forall i | 1 <= i < |t| && i != p ensures t[Parent(i)].weight <= t[i].weight {
      if Parent(i) == p && i != h {
        assert s[p].weight <= s[i].weight;
      }
    }
    forall i | 1 <= i < |t| && p > 0 && Parent(i) == p ensures t[Parent(p)].weight <= t[i].weight {
      assert s[Parent(p)].weight <= s[p].weight;
      if i != h { assert s[p].weight <= s[i].weight; }
    }
  }

  lemma HeavyStep(s: seq<Elem>, h: nat, n: nat, kid: nat)
    requires HeavyAt(s, h, n) && IsLightestKid(s, h, n, kid) && s[kid].weight <= s[h].weight
    ensures HeavyAt(Swap(s, h, kid), kid, n)
  {
    var t := Swap(s, h, kid);
    forall i | 1 <= i < n && Parent(i) != kid ensures t[Parent(i)].weight <= t[i].weight {
      if i == h { assert s[Parent(h)].weight <= s[kid].weight; }
    }
    forall i | 1 <= i < n && Parent(i) == kid ensures t[Parent(kid)].weight <= t[i].weight {
      assert s[kid].weight <= s[i].weight;
    }
  }

  ghost predicate IsLightestKid(s: seq<Elem>, h: nat, n: nat, kid: nat) {
    h < kid < n <= |s| && Parent(kid) == h && forall i :: 1 <= i < n && Parent(i) == h ==> s[kid].weight <= s[i].weight
  }

  /** The root of a heap is lightest. */
  lemma {:induction false} RootLightest(s: seq<Elem>, n: nat, i: nat)
    requires IsHeap(s, n) && i < n
    ensures s[0].weight <= s[i].weight
  {
    if i > 0 { RootLightest(s, n, Parent(i)); }
  }

  // ------------------------------------------------------------------------------- moving elements

  lemma SwapHolds(s: seq<Elem>, index: map<Bytes, nat>, m: Weights, i: nat, j: nat)
    requires Holds(s, index, m) && i < |s| && j < |s|
    ensures Holds(Swap(s, i, j), index[s[j].value := i][s[i].value := j], m)
  {
    var s', index' := Swap(s, i, j), index[s[j].value := i][s[i].value := j];
    assert Placed(s, index, i) && Placed(s, index, j);
    assert index'.Keys == index.Keys;
    forall v ensures Found(s', index', m, v) { assert Found(s, index, m, v); }
    forall k ensures Placed(s', index', k) { assert Placed(s, index, k); }
  }

  lemma SiftHolds(full: seq<Elem>, pos: map<Bytes, nat>, m: Weights, h: nat, to: nat)
    requires h < |full| && to < |full| && to != h && Holds(full, pos[full[h].value := h], m)
    ensures Holds(Swap(full, h, to), pos[full[to].value := h][full[h].value := to], m)
  {
    var p := pos[full[h].value := h];
    assert Placed(full, p, h) && Placed(full, p, to);
    SwapHolds(full, p, m, h, to);
    MoveKeys(pos, full[h].value, full[to].value, h, to);
  }

  lemma MoveKeys(pos: map<Bytes, nat>, a: Bytes, b: Bytes, h: nat, to: nat)
    requires a != b
    ensures pos[a := h][b := h][a := to] == pos[b := h][a := to]
  {
  }

  lemma MoveHole(s: seq<Elem>, h: nat, e: Elem, to: nat)
    requires h < |s| && to < |s| && h != to
    ensures Swap(s[h := e], h, to) == s[h := s[to]][to := e]
  {
  }

  /** A sift upwards: `e` belongs in the free slot `h`, or above it. */
  ghost predicate SiftingUp(s: seq<Elem>, pos: map<Bytes, nat>, m: Weights, h: nat, e: Elem) {
    h < |s| && LightAt(s[h := e], h) && Holds(s[h := e], pos[e.value := h], m)
  }

  lemma UpStep(s: seq<Elem>, pos: map<Bytes, nat>, m: Weights, h: nat, e: Elem)
    requires SiftingUp(s, pos, m, h, e) && h > 0 && e.weight < s[Parent(h)].weight
    ensures SiftingUp(s[h := s[Parent(h)]], pos[s[Parent(h)].value := h], m, Parent(h), e)
  {
    var p := Parent(h);
    LightStep(s[h := e], h);
    SiftHolds(s[h := e], pos, m, h, p);
    MoveHole(s, h, e, p);
  }

  lemma UpDone(s: seq<Elem>, pos: map<Bytes, nat>, m: Weights, h: nat, e: Elem)
    requires SiftingUp(s, pos, m, h, e) && (h > 0 ==> s[Parent(h)].weight <= e.weight)
    ensures Holds(s[h := e], pos[e.value := h], m) && IsHeap(s[h := e], |s|)
  {
  }

  /** None of the first `n` elements is lighter than `x`. */
  ghost predicate NoneLighter(s: seq<Elem>, n: nat, x: int) {
    n <= |s| && forall i :: 0 <= i < n ==> x <= s[i].weight
  }

  /** Elements from `n` on are those of `s0`, and if none before was lighter than `floor`, none is. */
  ghost predicate KeepsBounds(s0: seq<Elem>, s: seq<Elem>, n: nat, floor: int) {
    && n <= |s0| == |s| && (forall i :: n <= i < |s| ==> s[i] == s0[i])
    && (NoneLighter(s0, n, floor) ==> NoneLighter(s, n, floor))
  }

  /** A sift downwards among the first `n`: `e` belongs in the free slot `h`, or below it. */
  ghost predicate SiftingDown(s0: seq<Elem>, s: seq<Elem>, pos: map<Bytes, nat>, m: Weights, h: nat, n: nat, e: Elem, floor: int) {
    && h < n <= |s| && HeavyAt(s[h := e], h, n) && Holds(s[h := e], pos[e.value := h], m)
    && KeepsBounds(s0, s[h := e], n, floor)
  }

  lemma DownStart(s: seq<Elem>, pos: map<Bytes, nat>, m: Weights, h: nat, n: nat, floor: int)
    requires HeavyAt(s, h, n) && Holds(s, pos, m)
    ensures SiftingDown(s, s, pos, m, h, n, s[h], floor)
  {
    assert Placed(s, pos, h);
    assert s[h := s[h]] == s && pos[s[h].value := h] == pos;
  }

  lemma DownStep(s0: seq<Elem>, s: seq<Elem>, pos: map<Bytes, nat>, m: Weights, h: nat, n: nat, e: Elem, floor: int, kid: nat)
    requires SiftingDown(s0, s, pos, m, h, n, e, floor) && IsLightestKid(s, h, n, kid) && s[kid].weight <= e.weight
    ensures SiftingDown(s0, s[h := s[kid]], pos[s[kid].value := h], m, kid, n, e, floor)
    ensures s[kid].value in m
  {
    HeavyStep(s[h := e], h, n, kid);
    SiftHolds(s[h := e], pos, m, h, kid);
    MoveHole(s, h, e, kid);
    assert Placed(s[h := e], pos[e.value := h], kid);
    SwapKeepsBounds(s0, s[h := e], n, floor, h, kid);
  }

  lemma SwapKeepsBounds(s0: seq<Elem>, s: seq<Elem>, n: nat, floor: int, i: nat, j: nat)
    requires KeepsBounds(s0, s, n, floor) && i < n && j < n
    ensures KeepsBounds(s0, Swap(s, i, j), n, floor)
  {
  }

  lemma DownDone(s0: seq<Elem>, s: seq<Elem>, pos: map<Bytes, nat>, m: Weights, h: nat, n: nat, e: Elem, floor: int, kid: nat)
    requires SiftingDown(s0, s, pos, m, h, n, e, floor)
    requires 2 * h + 1 >= n || (IsLightestKid(s, h, n, kid) && e.weight < s[kid].weight)
    ensures Holds(s[h := e], pos[e.value := h], m) && IsHeap(s[h := e], n) && e.value in m
  {
    forall i | 1 <= i < n && Parent(i) == h ensures e.weight <= s[i].weight { KidsOf(i, h); }
    assert Placed(s[h := e], pos[e.value := h], h);
  }

  // --------------------------------------------------------------------- where elements end up

  predicate IsLight(s: seq<Elem>, h: nat)
    requires h < |s|
  {
    h != 0 && s[h].weight < s[Parent(h)].weight
  }

  /** The lighter of the two children, the left one on a tie. */
  function Kid(s: seq<Elem>, h: nat, n: nat): (kid: nat)
    requires 2 * h + 1 < n <= |s|
    ensures h < kid < n
  {
    if 2 * h + 2 < n && s[2 * h + 2].weight < s[2 * h + 1].weight then 2 * h + 2 else 2 * h + 1
  }

  /** The array once the element at `h` has risen past all heavier parents. */
  function Up(s: seq<Elem>, h: nat): (r: seq<Elem>)
    requires h < |s|
    ensures |r| == |s|
    decreases h
  {
    if IsLight(s, h) then Up(Swap(s, h, Parent(h)), Parent(h)) else s
  }

  /** The element at `h` has to give way to its lighter child. */
  predicate IsHeavy(s: seq<Elem>, h: nat, n: nat)
    requires h < n <= |s|
  {
    2 * h + 1 < n && s[Kid(s, h, n)].weight <= s[h].weight
  }

  /** The array once the element at `h` has sunk below all children no heavier than it, among the first `n`. */
  function Down(s: seq<Elem>, h: nat, n: nat): (r: seq<Elem>)
    requires h < n <= |s|
    ensures |r| == |s|
    decreases n - h
  {
    if IsHeavy(s, h, n) then Down(Swap(s, h, Kid(s, h, n)), Kid(s, h, n), n) else s
  }

  function Fix(s: seq<Elem>, h: nat): (r: seq<Elem>)
    requires h < |s|
    ensures |r| == |s|
  {
    if IsLight(s, h) then Up(s, h) else Down(s, h, |s|)
  }

  /** The element at the start of the path has moved to its end, and those on the way one place back; all else is as it was. */
  ghost predicate MovedAlong(s: seq<Elem>, path: seq<nat>, r: seq<Elem>) {
    && path != [] && |r| == |s| && (forall i :: i in path ==> i < |s|)
    && path[0] < |s| && path[|path| - 1] < |s| && r[path[|path| - 1]] == s[path[0]]
    && (forall j {:trigger ShiftedAt(s, path, r, j)} :: ShiftedAt(s, path, r, j))
    && (forall i :: 0 <= i < |s| && i !in path ==> r[i] == s[i])
  }

  ghost predicate ShiftedAt(s: seq<Elem>, path: seq<nat>, r: seq<Elem>, j: int) {
    0 < j < |path| && path[j] < |s| && path[j - 1] < |r| ==> r[path[j - 1]] == s[path[j]]
  }

  /** One more step before the rest of the way. */
  lemma MovedOn(s: seq<Elem>, h: nat, p: nat, rest: seq<nat>, r: seq<Elem>)
    requires h < |s| && p < |s| && h != p && rest != [] && rest[0] == p && h !in rest && p !in rest[1..]
    requires MovedAlong(Swap(s, h, p), rest, r)
    ensures MovedAlong(s, [h] + rest, r)
  {
    var t, path := Swap(s, h, p), [h] + rest;
    assert path[|path| - 1] == rest[|rest| - 1];
    forall i | i in path ensures i < |s| { }
    forall j ensures ShiftedAt(s, path, r, j) {
      if 1 < j < |path| {
        assert ShiftedAt(t, rest, r, j - 1);
        assert path[j] == rest[j - 1] == rest[1..][j - 2] && path[j - 1] == rest[j - 2];
      } else if j == 1 && j < |path| {
        assert path[1] == p && path[0] == h;
        assert r[h] == t[h];
      }
    }
    forall i | 0 <= i < |s| && i !in path ensures r[i] == s[i] {
      assert i != h && i !in rest;
      assert i != p by { assert p in rest; }
    }
  }

  /** From parent to parent, all of them heavier than the element, to the root or below a parent that is not. */
  ghost predicate WayUp(s: seq<Elem>, path: seq<nat>) {
    && path != [] && path[0] < |s| && path[0] !in path[1..] && (forall i :: i in path ==> i <= path[0])
    && (forall j {:trigger RisesAt(s, path, j)} :: RisesAt(s, path, j))
    && var last := path[|path| - 1]; last == 0 || (last < |s| && s[Parent(last)].weight <= s[path[0]].weight)
  }

  ghost predicate RisesAt(s: seq<Elem>, path: seq<nat>, j: int) {
    0 < j < |path| ==> path[j - 1] > 0 && path[j] == Parent(path[j - 1]) && path[j] < |s| && path[0] < |s| && s[path[j]].weight > s[path[0]].weight
  }

  lemma {:induction false} UpMoves(s: seq<Elem>, h: nat) returns (path: seq<nat>)
    requires h < |s|
    ensures path != [] && path[0] == h && WayUp(s, path) && MovedAlong(s, path, Up(s, h))
    decreases h
  {
    if IsLight(s, h) {
      var p := Parent(h);
      var rest := UpMoves(Swap(s, h, p), p);
      WayOn(s, h, rest);
      MovedOn(s, h, p, rest, Up(s, h));
      path := [h] + rest;
    } else {
      path := [h];
      NotMoved(s, h);
    }
  }

  lemma NotMoved(s: seq<Elem>, h: nat)
    requires h < |s|
    ensures MovedAlong(s, [h], s)
  {
  }

  lemma WayOn(s: seq<Elem>, h: nat, rest: seq<nat>)
    requires h < |s| && IsLight(s, h) && rest != [] && rest[0] == Parent(h) && WayUp(Swap(s, h, Parent(h)), rest)
    ensures WayUp(s, [h] + rest) && h !in rest
  {
    var p, path := Parent(h), [h] + rest;
    var t := Swap(s, h, p);
    assert path[1..] == rest && path[|path| - 1] == rest[|rest| - 1] && rest[|rest| - 1] in rest;
    forall j ensures RisesAt(s, path, j) {
      if 1 < j < |path| {
        assert RisesAt(t, rest, j - 1) && path[j] == rest[j - 1] && path[j - 1] == rest[j - 2];
        assert rest[j - 2] in rest;
      }
    }
  }

  /** From child to child, always the lighter or else the left one, none heavier than the element, to where all children are. */
  ghost predicate WayDown(s: seq<Elem>, n: nat, path: seq<nat>) {
    && n <= |s| && path != [] && path[0] < n && path[0] !in path[1..] && (forall i :: i in path ==> path[0] <= i < n)
    && (forall j {:trigger SinksAt(s, n, path, j)} :: SinksAt(s, n, path, j))
    && (forall i :: 1 <= i < n && Parent(i) == path[|path| - 1] ==> s[i].weight > s[path[0]].weight)
  }

  ghost predicate SinksAt(s: seq<Elem>, n: nat, path: seq<nat>, j: int) {
    0 < j < |path| && path[0] < n <= |s| ==>
      && IsLightestKid(s, path[j - 1], n, path[j]) && s[path[j]].weight <= s[path[0]].weight
      && (path[j] == 2 * path[j - 1] + 2 ==> s[path[j]].weight < s[path[j] - 1].weight)
  }

  lemma {:induction false} DownMoves(s: seq<Elem>, h: nat, n: nat) returns (path: seq<nat>)
    requires h < n <= |s|
    ensures path != [] && path[0] == h && WayDown(s, n, path) && MovedAlong(s, path, Down(s, h, n))
    decreases n - h
  {
    KidsBelow(s, h, n);
    if IsHeavy(s, h, n) {
      var kid := Kid(s, h, n);
      var rest := DownMoves(Swap(s, h, kid), kid, n);
      WayDownOn(s, h, n, rest);
      MovedOn(s, h, kid, rest, Down(s, h, n));
      path := [h] + rest;
    } else {
      path := [h];
      NotMoved(s, h);
    }
  }

  lemma KidsBelow(s: seq<Elem>, h: nat, n: nat)
    requires h < n <= |s|
    ensures 2 * h + 1 < n ==> IsLightestKid(s, h, n, Kid(s, h, n))
    ensures 2 * h + 1 >= n ==> forall i :: 1 <= i < n ==> Parent(i) != h
  {
    forall i | 1 <= i < n && Parent(i) == h ensures 2 * h + 1 < n && s[Kid(s, h, n)].weight <= s[i].weight { KidsOf(i, h); }
    if 2 * h + 1 < n { KidsOf(Kid(s, h, n), h); }
  }

  lemma WayDownOn(s: seq<Elem>, h: nat, n: nat, rest: seq<nat>)
    requires h < n <= |s| && IsHeavy(s, h, n) && rest != [] && rest[0] == Kid(s, h, n) && WayDown(Swap(s, h, Kid(s, h, n)), n, rest)
    ensures WayDown(s, n, [h] + rest) && h !in rest
  {
    var kid, path := Kid(s, h, n), [h] + rest;
    var t := Swap(s, h, kid);
    KidsBelow(s, h, n);
    assert path[1..] == rest && path[|path| - 1] == rest[|rest| - 1] && rest[|rest| - 1] in rest;
    forall j ensures SinksAt(s, n, path, j) {
      if 1 < j < |path| { SinksNext(s, h, kid, n, rest, j); }
    }
    forall i | 1 <= i < n && Parent(i) == path[|path| - 1] ensures s[i].weight > s[h].weight {
      assert t[i].weight > t[kid].weight;
    }
  }

  lemma SinksNext(s: seq<Elem>, h: nat, kid: nat, n: nat, rest: seq<nat>, j: nat)
    requires h < kid < n <= |s| && rest != [] && rest[0] == kid && WayDown(Swap(s, h, kid), n, rest) && 1 < j <= |rest|
    ensures SinksAt(s, n, [h] + rest, j)
  {
    var t := Swap(s, h, kid);
    assert SinksAt(t, n, rest, j - 1) && rest[j - 2] in rest && rest[j - 1] in rest;
    SameKids(s, t, h, kid, n, rest[j - 2], rest[j - 1]);
  }

  /** Below the child nothing has changed. */
  lemma SameKids(s: seq<Elem>, t: seq<Elem>, h: nat, kid: nat, n: nat, i: nat, j: nat)
    requires h < kid < n <= |s| && t == Swap(s, h, kid) && i >= kid && IsLightestKid(t, i, n, j)
    ensures IsLightestKid(s, i, n, j) && s[j] == t[j] && (j == 2 * i + 2 ==> s[j - 1] == t[j - 1])
  {
  }

  ghost predicate IsFixed(s: seq<Elem>, h: nat, r: seq<Elem>) {
    forall k {:trigger Key(HeapFacts, k)} :: Key(HeapFacts, k) ==> h < |s| && r == Fix(s, h)
  }

  /** What is left to rise from `h` on makes of `s` what it makes of `s0` from `h0` on. */
  ghost predicate Rising(s0: seq<Elem>, h0: nat, s: seq<Elem>, h: nat) {
    forall k {:trigger Key(HeapFacts, k)} :: Key(HeapFacts, k) ==> h0 < |s0| && h < |s| && Up(s, h) == Up(s0, h0)
  }

  lemma RisingStep(s0: seq<Elem>, h0: nat, s: seq<Elem>, h: nat, e: Elem)
    requires 0 < h < |s| && e.weight < s[Parent(h)].weight && Rising(s0, h0, s[h := e], h)
    ensures Rising(s0, h0, s[h := s[Parent(h)]][Parent(h) := e], Parent(h))
  {
    assert Key(HeapFacts, 0);
    MoveHole(s, h, e, Parent(h));
  }

  lemma RisingEnds(s0: seq<Elem>, h0: nat, s: seq<Elem>, h: nat)
    requires h < |s| && !IsLight(s, h) && Rising(s0, h0, s, h)
    ensures h0 < |s0| && s == Up(s0, h0)
  {
    assert Key(HeapFacts, 0);
  }

  ghost predicate Sinking(s0: seq<Elem>, h0: nat, s: seq<Elem>, h: nat, n: nat) {
    forall k {:trigger Key(HeapFacts, k)} :: Key(HeapFacts, k) ==> h0 < n <= |s0| && h < n <= |s| && Down(s, h, n) == Down(s0, h0, n)
  }

  lemma SinkingStep(s0: seq<Elem>, h0: nat, s: seq<Elem>, h: nat, n: nat, e: Elem, kid: nat)
    requires 2 * h + 1 < n <= |s| && kid == Kid(s, h, n) && s[kid].weight <= e.weight && Sinking(s0, h0, s[h := e], h, n)
    ensures Sinking(s0, h0, s[h := s[kid]][kid := e], kid, n)
  {
    assert Key(HeapFacts, 0);
    MoveHole(s, h, e, kid);
  }

  lemma SinkingEnds(s0: seq<Elem>, h0: nat, s: seq<Elem>, h: nat, n: nat)
    requires h < n <= |s| && !IsHeavy(s, h, n) && Sinking(s0, h0, s, h, n)
    ensures IsDown(s0, h0, n, s)
  {
    assert Key(HeapFacts, 0);
  }

  ghost predicate IsDown(s0: seq<Elem>, h0: nat, n: nat, s: seq<Elem>) {
    forall k {:trigger Key(HeapFacts, k)} :: Key(HeapFacts, k) ==> h0 < n <= |s0| && s == Down(s0, h0, n)
  }

  lemma FixedDown(s0: seq<Elem>, h0: nat, s: seq<Elem>)
    requires h0 < |s0| && !IsLight(s0, h0) && IsDown(s0, h0, |s0|, s)
    ensures IsFixed(s0, h0, s)
  {
    assert Key(HeapFacts, 0);
  }

  method LighterKid(s: seq<Elem>, h: nat, n: nat) returns (kid: nat)
    requires 2 * h + 1 < n <= |s|
    ensures IsLightestKid(s, h, n, kid) && kid == Kid(s, h, n)
  {
    kid := 2 * h + 1;
    if kid + 1 < n && s[kid + 1].weight < s[kid].weight {
      kid := kid + 1;
    }
    KidsOf(kid, h);
    forall i | 1 <= i < n && Parent(i) == h ensures s[kid].weight <= s[i].weight { KidsOf(i, h); }
  }

  // --------------------------------------------------------------------------------- the heap

  class Heap {
    const maxElems: nat
    /** The elements, and the position each of them records; after sorting the positions are stale. */
    var heap: seq<Elem>
    var pos: map<Bytes, nat>
    ghost var contents: Weights

    ghost predicate Indexed() reads this {
      Holds(heap, pos, contents)
    }

    ghost predicate Valid() reads this {
      Indexed() && IsHeap(heap, |heap|) && |heap| <= maxElems
    }

    constructor (maxElems: nat)
      ensures Valid() && this.maxElems == maxElems && contents == map[]
    {
      this.maxElems := maxElems;
      heap, pos, contents := [], map[], map[];
    }

    /** Move a light element up to its proper place. */
    method FixHeapUp(start: nat)
      requires Indexed() && LightAt(heap, start)
      modifies this`heap, this`pos
      ensures Indexed() && IsHeap(heap, |heap|) && |heap| == |old(heap)| && heap == Up(old(heap), start)
    {
      var h := start;
      var e := heap[h];
      assert Placed(heap, pos, h);
      assert heap[h := e] == heap && pos[e.value := h] == pos;
      while h != 0
        invariant |heap| == |old(heap)| && SiftingUp(heap, pos, contents, h, e)
        invariant Rising(old(heap), start, heap[h := e], h)
        decreases h
      {
        var parent := Parent(h);
        var pe := heap[parent];
        if !(e.weight < pe.weight) {
          break;
        }
        UpStep(heap, pos, contents, h, e);
        RisingStep(old(heap), start, heap, h, e);
        heap, pos := heap[h := pe], pos[pe.value := h];
        h := parent;
      }
      UpDone(heap, pos, contents, h, e);
      RisingEnds(old(heap), start, heap[h := e], h);
      heap, pos := heap[h := e], pos[e.value := h];
    }

    method FixHeapDown(start: nat, n: nat, ghost place0: map<Bytes, nat>, ghost floor: int) returns (ghost place: map<Bytes, nat>)
      requires HeavyAt(heap, start, n) && Holds(heap, place0, contents) && pos.Keys == contents.Keys
      modifies this`heap, this`pos
      ensures IsHeap(heap, n) && Holds(heap, place, contents) && KeepsBounds(old(heap), heap, n, floor)
      ensures pos.Keys == contents.Keys && (old(pos) == place0 ==> pos == place)
      ensures IsDown(old(heap), start, n, heap)
    {
      heap, pos, place := SiftDown(heap, pos, contents, start, n, place0, floor);
    }

    /** The weight of the element at `h` has changed; move it up or down to its proper place. */
    method FixHeap(h: nat)
      requires Indexed() && MisplacedAt(heap, h)
      modifies this`heap, this`pos
      ensures Indexed() && IsHeap(heap, |heap|) && |heap| == |old(heap)|
      ensures IsFixed(old(heap), h, heap)
    {
      MisplacedHow(heap, h);
      if IsLight(heap, h) {
        FixHeapUp(h);
      } else {
        ghost var _ := FixHeapDown(h, |heap|, pos, 0);
        FixedDown(old(heap), h, heap);
      }
    }

    method Find(s: Bytes) returns (found: bool)
      requires Valid()
      ensures found <==> s in contents
    {
      found := s in pos;
    }

    /** The value and weight of the lightest element. */
    method Smallest() returns (e: Elem)
      requires Valid() && |heap| > 0
      ensures e.value in contents && contents[e.value] == e.weight
      ensures forall v :: v in contents ==> e.weight <= contents[v]
      ensures e == heap[0]
    {
      e := heap[0];
      assert Placed(heap, pos, 0) && Found(heap, pos, contents, e.value);
      forall v | v in contents ensures e.weight <= contents[v] {
        assert Found(heap, pos, contents, v);
        RootLightest(heap, |heap|, pos[v]);
      }
    }

    method AddNewElem(value: Bytes, w: int)
      requires Valid() && value !in contents && |heap| < maxElems
      modifies this
      ensures Valid() && contents == old(contents)[value := w] && |heap| == |old(heap)| + 1
      ensures heap == Up(old(heap) + [Elem(value, w)], |old(heap)|)
    {
      AppendHolds(heap, pos, contents, value, w);
      heap, pos := heap + [Elem(value, w)], pos[value := |heap|];
      contents := contents[value := w];
      FixHeapUp(|heap| - 1);
    }

    method ReplaceSmallest(value: Bytes, w: int)
      requires Valid() && value !in contents && |heap| > 0
      modifies this
      ensures Valid() && contents == (old(contents) - {old(heap)[0].value})[value := w] && |heap| == |old(heap)|
      ensures IsDown(old(heap)[0 := Elem(value, w)], 0, |old(heap)|, heap)
    {
      var smallest := heap[0].value;
      assert Placed(heap, pos, 0);
      ReplaceHolds(heap, pos, contents, smallest, value, w);
      pos := pos - {smallest};
      heap, pos := heap[0 := Elem(value, w)], pos[value := 0];
      contents := (contents - {smallest})[value := w];
      ghost var _ := FixHeapDown(0, |heap|, pos, 0);
    }

    method AddToWeight(w: int, value: Bytes)
      requires Valid() && value in contents
      modifies this
      ensures Valid() && contents == old(contents)[value := old(contents)[value] + w] && |heap| == |old(heap)|
      ensures IsAt(old(heap), old(pos), value) && IsFixed(Reweigh(old(heap), old(pos)[value], w), old(pos)[value], heap)
    {
      var h := pos[value];
      Reweighed(heap, pos, contents, value, w);
      heap := Reweigh(heap, h, w);
      contents := contents[value := contents[value] + w];
      FixHeap(h);
    }

    /** Heaviest first. The array is no longer a heap, and the recorded positions are stale. */
    method Sort() returns (ghost place: map<Bytes, nat>)
      requires Valid()
      modifies this`heap, this`pos
      ensures Holds(heap, place, contents) && DescendingFrom(heap, 0) && pos.Keys == contents.Keys
    {
      heap, pos, place := SortDown(heap, pos, contents);
    }

    /** Undo the sort by reversing it: lightest first is a heap again. */
    method ReHeap(ghost place: map<Bytes, nat>)
      requires Holds(heap, place, contents) && DescendingFrom(heap, 0) && pos.Keys == contents.Keys && |heap| <= maxElems
      modifies this`heap, this`pos
      ensures Valid()
    {
      heap, pos := Reverse(heap, pos, contents, place);
    }

    method Clear()
      modifies this
      ensures Valid() && contents == map[] && heap == []
    {
      heap, pos, contents := [], map[], map[];
    }
  }

  /** The index leads from `value` to an element with that value. */
  predicate IsAt(s: seq<Elem>, pos: map<Bytes, nat>, value: Bytes) {
    value in pos && pos[value] < |s| && s[pos[value]].value == value
  }

  function Reweigh(s: seq<Elem>, h: nat, w: int): (r: seq<Elem>)
    requires h < |s|
    ensures |r| == |s|
  {
    s[h := Elem(s[h].value, s[h].weight + w)]
  }

  /** A heap but that the element at `h` may be too light or too heavy for its place. */
  ghost predicate MisplacedAt(s: seq<Elem>, h: nat) {
    forall k {:trigger Key(HeapFacts, k)} :: Key(HeapFacts, k) ==> h < |s| && if IsLight(s, h) then LightAt(s, h) else HeavyAt(s, h, |s|)
  }

  lemma MisplacedHow(s: seq<Elem>, h: nat)
    requires MisplacedAt(s, h)
    ensures h < |s| && if IsLight(s, h) then LightAt(s, h) else HeavyAt(s, h, |s|)
  {
    assert Key(HeapFacts, 0);
  }

  lemma Reweighed(s: seq<Elem>, pos: map<Bytes, nat>, m: Weights, value: Bytes, w: int)
    requires Holds(s, pos, m) && IsHeap(s, |s|) && value in m
    ensures IsAt(s, pos, value) && s[pos[value]].weight == m[value]
    ensures var t := Reweigh(s, pos[value], w); Holds(t, pos, m[value := m[value] + w]) && MisplacedAt(t, pos[value])
  {
    assert Found(s, pos, m, value);
    ReweighHolds(s, pos, m, value, m[value] + w);
    ReweighShape(s, pos[value], Elem(value, m[value] + w));
  }

  lemma ReweighShape(s: seq<Elem>, h: nat, e: Elem)
    requires IsHeap(s, |s|) && h < |s|
    ensures if IsLight(s[h := e], h) then LightAt(s[h := e], h) else HeavyAt(s[h := e], h, |s|)
  {
    forall i | 1 <= i < |s| && h > 0 && Parent(i) == h ensures s[Parent(h)].weight <= s[i].weight {
      assert s[Parent(h)].weight <= s[h].weight;
    }
  }

  // ------------------------------------------------------------------------------- sorting

  /** From position `n` on, every element is no heavier than any before it. */
  ghost predicate DescendingFrom(s: seq<Elem>, n: nat) {
    forall j :: n <= j < |s| ==> NoneLighter(s, j, s[j].weight)
  }

  /** The root is lightest, so it goes to the end of the heap part. */
  lemma RootToEnd(s: seq<Elem>, ne: nat)
    requires ne < |s| && IsHeap(s, ne + 1) && DescendingFrom(s, ne + 1) && ne > 0
    ensures var t := Swap(s, 0, ne); DescendingFrom(t, ne) && HeavyAt(t, 0, ne)
  {
    var t := Swap(s, 0, ne);
    forall j | ne <= j < |t| ensures NoneLighter(t, j, t[j].weight) {
      if j == ne {
        forall i | 0 <= i < ne ensures t[j].weight <= t[i].weight { RootLightest(s, ne + 1, if i == 0 then ne else i); }
      } else {
        assert NoneLighter(s, j, s[j].weight);
      }
    }
  }

  lemma StillDescending(s: seq<Elem>, t: seq<Elem>, ne: nat)
    requires ne < |s| && DescendingFrom(s, ne) && KeepsBounds(s, t, ne, s[ne].weight)
    ensures DescendingFrom(t, ne)
  {
    assert NoneLighter(s, ne, s[ne].weight);
    forall j | ne <= j < |t| ensures NoneLighter(t, j, t[j].weight) {
      assert NoneLighter(s, j, s[j].weight);
    }
  }

  method SortDown(heap0: seq<Elem>, pos0: map<Bytes, nat>, ghost m: Weights)
    returns (heap: seq<Elem>, pos: map<Bytes, nat>, ghost place: map<Bytes, nat>)
    requires Holds(heap0, pos0, m) && IsHeap(heap0, |heap0|)
    ensures |heap| == |heap0| && Holds(heap, place, m) && DescendingFrom(heap, 0) && pos.Keys == m.Keys
  {
    heap, pos, place := heap0, pos0, pos0;
    var ne: nat := |heap|;
    while ne > 1
      invariant ne <= |heap| == |heap0| && (ne == 0 ==> |heap| == 0)
      invariant IsHeap(heap, ne) && DescendingFrom(heap, ne) && Holds(heap, place, m) && pos.Keys == m.Keys
    {
      ne := ne - 1;
      RootToEnd(heap, ne);
      SwapHolds(heap, place, m, 0, ne);
      place := place[heap[ne].value := 0][heap[0].value := ne];
      heap := Swap(heap, 0, ne);
      ghost var before := heap;
      heap, pos, place := SiftDown(heap, pos, m, 0, ne, place, heap[ne].weight);
      StillDescending(before, heap, ne);
    }
    FirstToo(heap, ne);
  }

  lemma FirstToo(s: seq<Elem>, n: nat)
    requires n <= 1 && DescendingFrom(s, n)
    ensures DescendingFrom(s, 0)
  {
    if n == 1 && |s| > 0 { assert NoneLighter(s, 0, s[0].weight); }
  }

  lemma ReversedHeap(s: seq<Elem>)
    requires DescendingFrom(s, 0)
    ensures IsHeap(Reversed(s), |s|)
  {
    var r := Reversed(s);
    forall i | 1 <= i < |r| ensures r[Parent(i)].weight <= r[i].weight {
      var j := |s| - 1 - Parent(i);
      assert NoneLighter(s, j, s[j].weight);
    }
  }

  /** Positions that are right everywhere in the reversed array make it an index of the same contents. */
  lemma ReversedHolds(s: seq<Elem>, place: map<Bytes, nat>, m: Weights, pos: map<Bytes, nat>)
    requires Holds(s, place, m) && pos.Keys == m.Keys
    requires forall i {:trigger Placed(Reversed(s), pos, i)} :: Placed(Reversed(s), pos, i)
    ensures Holds(Reversed(s), pos, m)
  {
    var r := Reversed(s);
    forall v ensures Found(r, pos, m, v) {
      if v in pos {
        assert Found(s, place, m, v);
        assert Placed(r, pos, |s| - 1 - place[v]);
      }
    }
  }

  /** The outer `i` elements on both sides are reversed. */
  ghost predicate EndsSwapped(s: seq<Elem>, i: nat, heap: seq<Elem>) {
    && 2 * i <= |s| == |heap|
    && (forall j :: 0 <= j < |s| ==> heap[j] == if j < i || j >= |s| - i then Reversed(s)[j] else s[j])
  }

  /** The positions of the outer `i` elements on both sides of the reversed array are recorded. */
  ghost predicate EndsPlaced(s: seq<Elem>, i: nat, pos: map<Bytes, nat>) {
    forall j {:trigger Placed(Reversed(s), pos, j)} :: j < i || j >= |s| - i ==> Placed(Reversed(s), pos, j)
  }

  lemma SwapEnds(s: seq<Elem>, i: nat, heap: seq<Elem>)
    requires EndsSwapped(s, i, heap) && 2 * i + 1 < |s|
    ensures var o := |s| - 1 - i;
      heap[i] == s[i] && heap[o] == s[o] && EndsSwapped(s, i + 1, heap[i := heap[o]][o := heap[i]])
  {
    var o, n := |s| - 1 - i, i + 1;
    var after := heap[i := heap[o]][o := heap[i]];
    forall j | 0 <= j < |s| ensures after[j] == if j < n || j >= |s| - n then Reversed(s)[j] else s[j] {
    }
  }

  lemma PlaceEnds(s: seq<Elem>, place: map<Bytes, nat>, m: Weights, i: nat, pos: map<Bytes, nat>)
    requires Holds(s, place, m) && EndsPlaced(s, i, pos) && 2 * i + 1 < |s| && pos.Keys == m.Keys
    ensures var o := |s| - 1 - i; var after := pos[s[o].value := i][s[i].value := o];
      EndsPlaced(s, i + 1, after) && after.Keys == m.Keys
  {
    var o := |s| - 1 - i;
    var after := pos[s[o].value := i][s[i].value := o];
    assert after.Keys == pos.Keys by { assert Placed(s, place, i) && Placed(s, place, o); }
    forall j {:trigger Placed(Reversed(s), after, j)} | j < i + 1 || j >= |s| - i - 1 ensures Placed(Reversed(s), after, j) {
      if j != i && j != o { assert Placed(Reversed(s), pos, j); }
      ReversePlaced(s, place, m, i, pos, j);
    }
  }

  lemma ReversePlaced(s: seq<Elem>, place: map<Bytes, nat>, m: Weights, i: nat, pos: map<Bytes, nat>, j: int)
    requires Holds(s, place, m) && 2 * i + 1 < |s|
    requires j != i && j != |s| - 1 - i ==> Placed(Reversed(s), pos, j)
    ensures var o := |s| - 1 - i; Placed(Reversed(s), pos[s[o].value := i][s[i].value := o], j)
  {
    var o := |s| - 1 - i;
    assert Placed(s, place, i) && Placed(s, place, o) && Placed(s, place, |s| - 1 - j);
  }

  lemma ReverseMiddle(s: seq<Elem>, place: map<Bytes, nat>, m: Weights, i: nat, heap: seq<Elem>, pos: map<Bytes, nat>)
    requires Holds(s, place, m) && EndsSwapped(s, i, heap) && EndsPlaced(s, i, pos) && pos.Keys == m.Keys && |s| - 1 <= 2 * i
    ensures heap == Reversed(s)
    ensures var after := if |s| % 2 == 1 then pos[heap[i].value := i] else pos; Holds(heap, after, m)
  {
    AllSwapped(s, i, heap);
    MiddleHolds(s, place, m, i, heap, pos, if |s| % 2 == 1 then pos[heap[i].value := i] else pos);
  }

  lemma MiddleHolds(s: seq<Elem>, place: map<Bytes, nat>, m: Weights, i: nat, heap: seq<Elem>, pos: map<Bytes, nat>, after: map<Bytes, nat>)
    requires Holds(s, place, m) && heap == Reversed(s) && EndsPlaced(s, i, pos) && pos.Keys == m.Keys && 2 * i <= |s| && |s| - 1 <= 2 * i
    requires after == if |s| % 2 == 1 then pos[heap[i].value := i] else pos
    ensures Holds(heap, after, m)
  {
    SameKeys(s, place, m, i, heap, pos, after);
    forall j ensures Placed(heap, after, j) { MiddlePlaced(s, place, m, i, heap, pos, j); }
    ReversedHolds(s, place, m, after);
  }

  lemma SameKeys(s: seq<Elem>, place: map<Bytes, nat>, m: Weights, i: nat, heap: seq<Elem>, pos: map<Bytes, nat>, after: map<Bytes, nat>)
    requires Holds(s, place, m) && heap == Reversed(s) && pos.Keys == m.Keys && 2 * i <= |s| && |s| - 1 <= 2 * i
    requires after == if |s| % 2 == 1 then pos[heap[i].value := i] else pos
    ensures after.Keys == m.Keys
  {
    if |s| % 2 == 1 { assert Placed(s, place, |s| - 1 - i); }
  }

  lemma AllSwapped(s: seq<Elem>, i: nat, heap: seq<Elem>)
    requires EndsSwapped(s, i, heap) && |s| - 1 <= 2 * i
    ensures heap == Reversed(s)
  {
    forall j | 0 <= j < |s| ensures heap[j] == Reversed(s)[j] {}
  }

  lemma MiddlePlaced(s: seq<Elem>, place: map<Bytes, nat>, m: Weights, i: nat, heap: seq<Elem>, pos: map<Bytes, nat>, j: int)
    requires Holds(s, place, m) && heap == Reversed(s) && EndsPlaced(s, i, pos) && 2 * i <= |s| && |s| - 1 <= 2 * i
    ensures Placed(heap, if |s| % 2 == 1 then pos[heap[i].value := i] else pos, j)
  {
    assert Placed(Reversed(s), pos, j) || j == i;
    assert Placed(s, place, |s| - 1 - j) && Placed(s, place, |s| - 1 - i);
  }

  /** The outer `i` elements on both sides are reversed, and their positions recorded. */
  ghost predicate Halfway(s: seq<Elem>, m: Weights, i: nat, heap: seq<Elem>, pos: map<Bytes, nat>) {
    forall k {:trigger Key(HeapFacts, k)} :: Key(HeapFacts, k) ==> EndsSwapped(s, i, heap) && EndsPlaced(s, i, pos) && pos.Keys == m.Keys
  }

  lemma HalfwayStarts(s: seq<Elem>, m: Weights, pos: map<Bytes, nat>)
    requires pos.Keys == m.Keys
    ensures Halfway(s, m, 0, s, pos)
  {
  }

  lemma HalfwayStep(s: seq<Elem>, place: map<Bytes, nat>, m: Weights, i: nat, o: nat, heap: seq<Elem>, pos: map<Bytes, nat>)
    requires Holds(s, place, m) && i < o == |s| - 1 - i && |heap| == |s| && Halfway(s, m, i, heap, pos)
    ensures Halfway(s, m, i + 1, heap[i := heap[o]][o := heap[i]], pos[heap[o].value := i][heap[i].value := o])
  {
    assert Key(HeapFacts, 0);
    SwapEnds(s, i, heap);
    PlaceEnds(s, place, m, i, pos);
  }

  lemma HalfwayEnds(s: seq<Elem>, m: Weights, i: nat, heap: seq<Elem>, pos: map<Bytes, nat>)
    requires Halfway(s, m, i, heap, pos)
    ensures EndsSwapped(s, i, heap) && EndsPlaced(s, i, pos) && pos.Keys == m.Keys
  {
    assert Key(HeapFacts, 0);
  }

  /** Swap the ends towards the middle, recording each new position. */
  method SwapHalves(heap0: seq<Elem>, pos0: map<Bytes, nat>, ghost m: Weights, ghost place: map<Bytes, nat>)
    returns (heap: seq<Elem>, pos: map<Bytes, nat>)
    requires Holds(heap0, place, m) && pos0.Keys == m.Keys
    ensures |heap| == |heap0| && Halfway(heap0, m, |heap0| / 2, heap, pos)
  {
    heap, pos := heap0, pos0;
    var ne := |heap|;
    var nswap := ne / 2;
    assert 2 * nswap <= ne;
    HalfwayStarts(heap0, m, pos0);
    for i := 0 to nswap
      invariant |heap| == ne && Halfway(heap0, m, i, heap, pos)
    {
      var o := ne - 1 - i;
      HalfwayStep(heap0, place, m, i, o, heap, pos);
      var e, e2 := heap[i], heap[o];
      heap, pos := heap[i := e2][o := e], pos[e2.value := i][e.value := o];
    }
  }

  method Reverse(heap0: seq<Elem>, pos0: map<Bytes, nat>, ghost m: Weights, ghost place: map<Bytes, nat>)
    returns (heap: seq<Elem>, pos: map<Bytes, nat>)
    requires Holds(heap0, place, m) && DescendingFrom(heap0, 0) && pos0.Keys == m.Keys
    ensures |heap| == |heap0| && Holds(heap, pos, m) && IsHeap(heap, |heap|)
  {
    heap, pos := SwapHalves(heap0, pos0, m, place);
    var middle := |heap| / 2;
    HalfwayEnds(heap0, m, middle, heap, pos);
    ReverseMiddle(heap0, place, m, middle, heap, pos);
    if |heap| % 2 == 1 {
      pos := pos[heap[middle].value := middle];
    }
    ReversedHeap(heap0);
  }

  /** A sift downwards that began with `s0` at `start`. */
  ghost predicate Sift(s0: seq<Elem>, start: nat, s: seq<Elem>, pos: map<Bytes, nat>, m: Weights, h: nat, n: nat, e: Elem, floor: int) {
    forall k {:trigger Key(SiftFacts, k)} :: Key(SiftFacts, k) ==>
      h < |s| && SiftingDown(s0, s, pos, m, h, n, e, floor) && Sinking(s0, start, s[h := e], h, n)
  }

  lemma SiftStarts(s: seq<Elem>, pos: map<Bytes, nat>, m: Weights, h: nat, n: nat, floor: int)
    requires HeavyAt(s, h, n) && Holds(s, pos, m)
    ensures Sift(s, h, s, pos, m, h, n, s[h], floor)
  {
    DownStart(s, pos, m, h, n, floor);
    assert s[h := s[h]] == s;
  }

  lemma SiftOn(s0: seq<Elem>, start: nat, s: seq<Elem>, pos: map<Bytes, nat>, m: Weights, h: nat, n: nat, e: Elem, floor: int, kid: nat)
    requires 2 * h + 1 < n <= |s| && Sift(s0, start, s, pos, m, h, n, e, floor)
    requires IsLightestKid(s, h, n, kid) && kid == Kid(s, h, n) && s[kid].weight <= e.weight
    ensures Sift(s0, start, s[h := s[kid]], pos[s[kid].value := h], m, kid, n, e, floor)
    ensures s[kid].value in m
  {
    assert Key(SiftFacts, 0);
    DownStep(s0, s, pos, m, h, n, e, floor, kid);
    SinkingStep(s0, start, s, h, n, e, kid);
  }

  lemma SiftEnds(s0: seq<Elem>, start: nat, s: seq<Elem>, pos: map<Bytes, nat>, m: Weights, h: nat, n: nat, e: Elem, floor: int, kid: nat)
    requires h < n <= |s| && Sift(s0, start, s, pos, m, h, n, e, floor)
    requires 2 * h + 1 >= n || (IsLightestKid(s, h, n, kid) && kid == Kid(s, h, n) && e.weight < s[kid].weight)
    ensures IsHeap(s[h := e], n) && Holds(s[h := e], pos[e.value := h], m) && KeepsBounds(s0, s[h := e], n, floor) && e.value in m
    ensures IsDown(s0, start, n, s[h := e])
  {
    assert Key(SiftFacts, 0);
    DownDone(s0, s, pos, m, h, n, e, floor, kid);
    SinkingEnds(s0, start, s[h := e], h, n);
  }

  /**
   * Move a heavy element down among the first `n`. The recorded positions are right after if they were
   * before; where elements really are is tracked by `place0` and `place`.
   */
  method SiftDown(heap0: seq<Elem>, pos0: map<Bytes, nat>, ghost m: Weights, start: nat, n: nat,
                  ghost place0: map<Bytes, nat>, ghost floor: int)
    returns (heap: seq<Elem>, pos: map<Bytes, nat>, ghost place: map<Bytes, nat>)
    requires HeavyAt(heap0, start, n) && Holds(heap0, place0, m) && pos0.Keys == m.Keys
    ensures IsHeap(heap, n) && Holds(heap, place, m) && KeepsBounds(heap0, heap, n, floor)
    ensures pos.Keys == m.Keys && (pos0 == place0 ==> pos == place)
    ensures IsDown(heap0, start, n, heap)
  {
    var h := start;
    var e := heap0[h];
    SiftStarts(heap0, place0, m, start, n, floor);
    heap, pos, place := heap0, pos0, place0;
    ghost var kid := 0;
    while 2 * h + 1 < n
      invariant h < n <= |heap| && Sift(heap0, start, heap, place, m, h, n, e, floor)
      invariant pos.Keys == m.Keys && (pos0 == place0 ==> pos == place)
      decreases n - h
    {
      var k := LighterKid(heap, h, n);
      var ke := heap[k];
      if e.weight < ke.weight {
        kid := k;
        break;
      }
      SiftOn(heap0, start, heap, place, m, h, n, e, floor, k);
      heap, pos, place := heap[h := ke], pos[ke.value := h], place[ke.value := h];
      h := k;
    }
    SiftEnds(heap0, start, heap, place, m, h, n, e, floor, kid);
    heap, pos, place := heap[h := e], pos[e.value := h], place[e.value := h];
  }
}

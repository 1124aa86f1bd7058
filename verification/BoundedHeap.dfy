/**
 * Binary heaps under any strict weak order, least element first: what a heap of bounded size keeps of a
 * stream is as good as any selection from it.
 */
module BoundedHeap {
  import opened HeapShape


  /** Elements that neither comes before the other count as equal. */
  ghost predicate WeakOrder<T(!new)>(less: (T, T) -> bool) {
    && (forall a :: !less(a, a))
    && (forall a, b, c :: less(a, b) && less(b, c) ==> less(a, c))
    && (forall a, b, c :: less(a, c) ==> less(a, b) || less(b, c))
  }

  /** `a` may be above `b`. */
  predicate Above<T>(less: (T, T) -> bool, a: T, b: T) {
    !less(b, a)
  }

  ghost predicate IsHeap<T>(less: (T, T) -> bool, s: seq<T>, n: nat) {
    n <= |s| && forall i :: 1 <= i < n ==> Above(less, s[Parent(i)], s[i])
  }

  /** A heap but that the element at `h` may be too small for its place. */
  ghost predicate LowAt<T>(less: (T, T) -> bool, s: seq<T>, h: nat) {
    && h < |s|
    && (forall i :: 1 <= i < |s| && i != h ==> Above(less, s[Parent(i)], s[i]))
    && (forall i :: 1 <= i < |s| && h > 0 && Parent(i) == h ==> Above(less, s[Parent(h)], s[i]))
  }

  /** A heap of `n` but that the element at `h` may be too large for its place. */
  ghost predicate HighAt<T>(less: (T, T) -> bool, s: seq<T>, h: nat, n: nat) {
    && h < n <= |s|
    && (forall i :: 1 <= i < n && Parent(i) != h ==> Above(less, s[Parent(i)], s[i]))
    && (forall i :: 1 <= i < n && h > 0 && Parent(i) == h ==> Above(less, s[Parent(h)], s[i]))
  }

  lemma AboveTransitive<T(!new)>(less: (T, T) -> bool, a: T, b: T, c: T)
    requires WeakOrder(less) && Above(less, a, b) && Above(less, b, c)
    ensures Above(less, a, c)
  {
  }

  lemma LowStep<T(!new)>(less: (T, T) -> bool, s: seq<T>, h: nat)
    requires WeakOrder(less) && LowAt(less, s, h) && h > 0 && less(s[h], s[Parent(h)])
    ensures LowAt(less, Swap(s, h, Parent(h)), Parent(h))
  {
    var p, t := Parent(h), Swap(s, h, Parent(h));
    forall i | 1 <= i < |t| && i != p ensures Above(less, t[Parent(i)], t[i]) {
      if Parent(i) == p && i != h {
        assert Above(less, s[p], s[i]);
        AboveTransitive(less, s[h], s[p], s[i]);
      } else if Parent(i) == h {
        assert Above(less, s[p], s[i]);
      }
    }
    forall i | 1 <= i < |t| && p > 0 && Parent(i) == p ensures Above(less, t[Parent(p)], t[i]) {
      assert Above(less, s[Parent(p)], s[p]);
      if i != h { AboveTransitive(less, s[Parent(p)], s[p], s[i]); }
    }
  }

  ghost predicate IsLeastKid<T>(less: (T, T) -> bool, s: seq<T>, h: nat, n: nat, kid: nat) {
    h < kid < n <= |s| && Parent(kid) == h && forall i :: 1 <= i < n && Parent(i) == h ==> Above(less, s[kid], s[i])
  }

  lemma HighStep<T(!new)>(less: (T, T) -> bool, s: seq<T>, h: nat, n: nat, kid: nat)
    requires WeakOrder(less) && HighAt(less, s, h, n) && IsLeastKid(less, s, h, n, kid) && !less(s[h], s[kid])
    ensures HighAt(less, Swap(s, h, kid), kid, n)
  {
    var t := Swap(s, h, kid);
    forall i | 1 <= i < n && Parent(i) != kid ensures Above(less, t[Parent(i)], t[i]) {
      if i == h { assert Above(less, s[Parent(h)], s[kid]); }
      if Parent(i) == h && i == kid { assert Above(less, s[kid], s[h]); }
    }
    forall i | 1 <= i < n && Parent(i) == kid ensures Above(less, t[Parent(kid)], t[i]) {
      assert Above(less, s[kid], s[i]);
    }
  }

  lemma {:induction false} RootLeast<T(!new)>(less: (T, T) -> bool, s: seq<T>, n: nat, i: nat)
    requires WeakOrder(less) && IsHeap(less, s, n) && i < n
    ensures Above(less, s[0], s[i])
  {
    if i > 0 {
      RootLeast(less, s, n, Parent(i));
      AboveTransitive(less, s[0], s[Parent(i)], s[i]);
    }
  }

  /** A sift upwards: `e` belongs in the free slot `h`, or above it. */
  ghost predicate SiftingUp<T>(less: (T, T) -> bool, s0: seq<T>, s: seq<T>, h: nat, e: T) {
    h < |s| && LowAt(less, s[h := e], h) && multiset(s[h := e]) == multiset(s0)
  }

  lemma UpStep<T(!new)>(less: (T, T) -> bool, s0: seq<T>, s: seq<T>, h: nat, e: T)
    requires WeakOrder(less) && SiftingUp(less, s0, s, h, e) && h > 0 && less(e, s[Parent(h)])
    ensures SiftingUp(less, s0, s[h := s[Parent(h)]], Parent(h), e)
  {
    LowStep(less, s[h := e], h);
    assert Swap(s[h := e], h, Parent(h)) == s[h := s[Parent(h)]][Parent(h) := e];
  }

  lemma UpDone<T(!new)>(less: (T, T) -> bool, s0: seq<T>, s: seq<T>, h: nat, e: T)
    requires SiftingUp(less, s0, s, h, e) && (h > 0 ==> !less(e, s[Parent(h)]))
    ensures IsHeap(less, s[h := e], |s|) && multiset(s[h := e]) == multiset(s0)
  {
    var t := s[h := e];
    forall i | 1 <= i < |t| ensures Above(less, t[Parent(i)], t[i]) {}
  }

  method FixHeapUp<T(!new)>(less: (T, T) -> bool, s0: seq<T>, start: nat) returns (s: seq<T>)
    requires WeakOrder(less) && LowAt(less, s0, start)
    ensures |s| == |s0| && IsHeap(less, s, |s|) && multiset(s) == multiset(s0)
  {
    var h, e := start, s0[start];
    s := s0;
    assert s[h := e] == s;
    while h != 0
      invariant |s| == |s0| && h < |s| && SiftingUp(less, s0, s, h, e)
      decreases h
    {
      var parent := Parent(h);
      if !less(e, s[parent]) {
        break;
      }
      UpStep(less, s0, s, h, e);
      s := s[h := s[parent]];
      h := parent;
    }
    UpDone(less, s0, s, h, e);
    s := s[h := e];
  }

  method LesserKid<T(!new)>(less: (T, T) -> bool, s: seq<T>, h: nat, n: nat) returns (kid: nat)
    requires WeakOrder(less) && 2 * h + 1 < n <= |s|
    ensures IsLeastKid(less, s, h, n, kid)
  {
    kid := 2 * h + 1;
    if kid + 1 < n && less(s[kid + 1], s[kid]) {
      kid := kid + 1;
    }
    KidsOf(kid, h);
    forall i | 1 <= i < n && Parent(i) == h ensures Above(less, s[kid], s[i]) { KidsOf(i, h); }
  }

  /** Elements from `n` on are untouched, and what may be above all before still may. */
  ghost predicate KeepsRest<T>(less: (T, T) -> bool, s0: seq<T>, s: seq<T>, n: nat) {
    n <= |s0| == |s| && s[n..] == s0[n..] && multiset(s) == multiset(s0) && multiset(s[..n]) == multiset(s0[..n])
  }

  lemma SwapKeepsRest<T>(less: (T, T) -> bool, s0: seq<T>, s: seq<T>, n: nat, i: nat, j: nat)
    requires KeepsRest(less, s0, s, n) && i < n && j < n
    ensures KeepsRest(less, s0, Swap(s, i, j), n)
  {
    assert Swap(s, i, j)[..n] == Swap(s[..n], i, j);
    assert Swap(s, i, j)[n..] == s[n..];
  }

  method FixHeapDown<T(!new)>(less: (T, T) -> bool, s0: seq<T>, start: nat, n: nat) returns (s: seq<T>)
    requires WeakOrder(less) && HighAt(less, s0, start, n)
    ensures IsHeap(less, s, n) && KeepsRest(less, s0, s, n)
  {
    var h, e := start, s0[start];
    s := s0;
    assert s[h := e] == s;
    while 2 * h + 1 < n
      invariant |s| == |s0| && h < n && HighAt(less, s[h := e], h, n) && KeepsRest(less, s0, s[h := e], n)
      decreases n - h
    {
      var kid := LesserKid(less, s[h := e], h, n);
      if less(e, s[kid]) {
        DownDone(less, s[h := e], h, n, kid);
        s := s[h := e];
        return;
      }
      HighStep(less, s[h := e], h, n, kid);
      SwapKeepsRest(less, s0, s[h := e], n, h, kid);
      assert Swap(s[h := e], h, kid) == s[h := s[kid]][kid := e];
      s := s[h := s[kid]];
      h := kid;
    }
    forall i | 1 <= i < n ensures Parent(i) != h { KidsOf(i, h); }
    s := s[h := e];
  }

  lemma DownDone<T(!new)>(less: (T, T) -> bool, s: seq<T>, h: nat, n: nat, kid: nat)
    requires WeakOrder(less) && HighAt(less, s, h, n) && IsLeastKid(less, s, h, n, kid) && less(s[h], s[kid])
    ensures IsHeap(less, s, n)
  {
    forall i | 1 <= i < n && Parent(i) == h ensures Above(less, s[h], s[i]) {
      AboveTransitive(less, s[h], s[kid], s[i]);
    }
  }

  // ----------------------------------------------------------------------------------- sorting

  /** From position `n` on, everything may be above all that is before it. */
  ghost predicate DescendingFrom<T>(less: (T, T) -> bool, s: seq<T>, n: nat) {
    forall i, j :: 0 <= i < j < |s| && n <= j ==> Above(less, s[j], s[i])
  }

  lemma RootToEnd<T(!new)>(less: (T, T) -> bool, s: seq<T>, ne: nat)
    requires WeakOrder(less) && 0 < ne < |s| && IsHeap(less, s, ne + 1) && DescendingFrom(less, s, ne + 1)
    ensures var t := Swap(s, 0, ne); DescendingFrom(less, t, ne) && HighAt(less, t, 0, ne)
  {
    var t := Swap(s, 0, ne);
    forall i, j | 0 <= i < j < |t| && ne <= j ensures Above(less, t[j], t[i]) {
      if j == ne {
        RootLeast(less, s, ne + 1, if i == 0 then ne else i);
      } else {
        assert Above(less, s[j], s[if i == 0 then ne else if i == ne then 0 else i]);
      }
    }
  }

  lemma StillDescending<T>(less: (T, T) -> bool, s: seq<T>, t: seq<T>, n: nat)
    requires DescendingFrom(less, s, n) && KeepsRest(less, s, t, n)
    ensures DescendingFrom(less, t, n)
  {
    forall i, j | 0 <= i < j < |t| && n <= j ensures Above(less, t[j], t[i]) {
      assert t[j] == t[n..][j - n] && s[j] == s[n..][j - n];
      if i < n {
        assert t[i] in multiset(t[..n]) by { assert t[..n][i] == t[i]; }
        var k :| 0 <= k < n && s[..n][k] == t[i];
        assert Above(less, s[j], s[k]);
      } else {
        assert t[i] == t[n..][i - n] && s[i] == s[n..][i - n];
      }
    }
  }

  /** Largest first; no longer a heap. */
  method Sort<T(!new)>(less: (T, T) -> bool, s0: seq<T>) returns (s: seq<T>)
    requires WeakOrder(less) && IsHeap(less, s0, |s0|)
    ensures DescendingFrom(less, s, 0) && multiset(s) == multiset(s0) && |s| == |s0|
  {
    s := s0;
    var ne: nat := |s|;
    while ne > 1
      invariant ne <= |s| == |s0| && IsHeap(less, s, ne) && DescendingFrom(less, s, ne) && multiset(s) == multiset(s0)
      invariant ne == 0 ==> |s| == 0
    {
      ne := ne - 1;
      RootToEnd(less, s, ne);
      var t := Swap(s, 0, ne);
      s := FixHeapDown(less, t, 0, ne);
      StillDescending(less, t, s, ne);
    }
  }

  /** The outer `i` elements on both sides have changed places. */
  ghost predicate Turned<T>(s0: seq<T>, s: seq<T>, i: nat) {
    && 2 * i <= |s0| == |s|
    && (forall j :: 0 <= j < i ==> s[j] == Reversed(s0)[j])
    && (forall j :: i <= j < |s| - i ==> s[j] == s0[j])
    && (forall j :: |s| - i <= j < |s| ==> s[j] == Reversed(s0)[j])
  }

  lemma TurnOne<T>(s0: seq<T>, s: seq<T>, i: nat)
    requires Turned(s0, s, i) && 2 * i + 1 < |s|
    ensures Turned(s0, s[i := s[|s| - 1 - i]][|s| - 1 - i := s[i]], i + 1)
  {
    var n, t := |s|, s[i := s[|s| - 1 - i]][|s| - 1 - i := s[i]];
    assert t[i] == s0[n - 1 - i] == Reversed(s0)[i] && t[n - 1 - i] == s0[i] == Reversed(s0)[n - 1 - i];
  }

  /** Undo the sort by reversing it: smallest first is a heap again. */
  method ReHeap<T(!new)>(less: (T, T) -> bool, s0: seq<T>) returns (s: seq<T>)
    requires DescendingFrom(less, s0, 0)
    ensures s == Reversed(s0) && IsHeap(less, s, |s|) && multiset(s) == multiset(s0)
  {
    s := s0;
    var ne := |s|;
    for i := 0 to ne / 2
      invariant |s| == ne && Turned(s0, s, i) && multiset(s) == multiset(s0)
    {
      TurnOne(s0, s, i);
      s := Swap(s, i, ne - 1 - i);
    }
    TurnedAll(s0, s, ne / 2);
    ReversedHeap(less, s0);
  }

  lemma TurnedAll<T>(s0: seq<T>, s: seq<T>, i: nat)
    requires Turned(s0, s, i) && |s| - 1 <= 2 * i
    ensures s == Reversed(s0)
  {
    forall j | 0 <= j < |s| ensures s[j] == Reversed(s0)[j] {
      if i <= j < |s| - i { assert j == |s| - 1 - j; }
    }
  }

  lemma ReversedHeap<T>(less: (T, T) -> bool, s: seq<T>)
    requires DescendingFrom(less, s, 0)
    ensures IsHeap(less, Reversed(s), |s|)
  {
    var n, r := |s|, Reversed(s);
    forall i | 1 <= i < n ensures Above(less, r[Parent(i)], r[i]) {
      assert Above(less, s[n - 1 - Parent(i)], s[n - 1 - i]);
    }
  }

  // ------------------------------------------------------------------------- the bounded heap

  class Heap<T(!new)> {
    const maxElems: nat
    const less: (T, T) -> bool
    var heap: seq<T>
    /** What was added and is no longer held. */
    ghost var dropped: multiset<T>

    ghost predicate Valid() reads this {
      WeakOrder(less) && Selects(less, maxElems, heap, dropped)
    }

    constructor (maxElems: nat, less: (T, T) -> bool)
      requires WeakOrder(less)
      ensures Valid() && heap == [] && dropped == multiset{} && this.maxElems == maxElems && this.less == less
    {
      this.maxElems, this.less := maxElems, less;
      heap, dropped := [], multiset{};
    }

    /** Added while there is room, and after that in exchange for the smallest if it is larger. */
    method AddElem(e: T)
      requires Valid()
      modifies this
      ensures Valid() && multiset(heap) + dropped == old(multiset(heap) + dropped) + multiset{e}
    {
      if |heap| < maxElems {
        LowLast(less, heap, e);
        heap := FixHeapUp(less, heap + [e], |heap|);
      } else if maxElems > 0 && less(heap[0], e) {
        ghost var before := heap;
        ExchangeRoot(less, heap, e);
        heap := FixHeapDown(less, heap[0 := e], 0, |heap|);
        Exchanges(less, maxElems, before, heap, dropped, e);
        dropped := dropped + multiset{before[0]};
      } else {
        DropsWorse(less, maxElems, heap, dropped, e);
        dropped := dropped + multiset{e};
      }
    }
  }

  /** A heap of bounded size that has dropped something only when full, and nothing larger than what it holds. */
  ghost predicate Selects<T(!new)>(less: (T, T) -> bool, max: nat, heap: seq<T>, dropped: multiset<T>) {
    && IsHeap(less, heap, |heap|) && |heap| <= max
    && (|heap| < max ==> dropped == multiset{})
    && (forall x, y :: x in dropped && y in heap ==> !less(y, x))
  }

  lemma Exchanges<T(!new)>(less: (T, T) -> bool, max: nat, s: seq<T>, t: seq<T>, dropped: multiset<T>, e: T)
    requires WeakOrder(less) && Selects(less, max, s, dropped) && |s| == max && s != [] && less(s[0], e)
    requires IsHeap(less, t, |t|) && |t| == |s| && multiset(t) == multiset(s) - multiset{s[0]} + multiset{e}
    ensures Selects(less, max, t, dropped + multiset{s[0]})
    ensures multiset(t) + (dropped + multiset{s[0]}) == multiset(s) + dropped + multiset{e}
  {
    assert s[0] in multiset(s);
    StillBest(less, s, t, dropped, e);
  }

  lemma LowLast<T>(less: (T, T) -> bool, s: seq<T>, e: T)
    requires IsHeap(less, s, |s|)
    ensures LowAt(less, s + [e], |s|)
  {
  }

  lemma ExchangeRoot<T>(less: (T, T) -> bool, s: seq<T>, e: T)
    requires IsHeap(less, s, |s|) && s != []
    ensures HighAt(less, s[0 := e], 0, |s|)
    ensures multiset(s[0 := e]) == multiset(s) - multiset{s[0]} + multiset{e}
  {
  }

  lemma StillBest<T(!new)>(less: (T, T) -> bool, s: seq<T>, t: seq<T>, dropped: multiset<T>, e: T)
    requires WeakOrder(less) && IsHeap(less, s, |s|) && s != [] && less(s[0], e)
    requires multiset(t) == multiset(s) - multiset{s[0]} + multiset{e}
    requires forall x, y :: x in dropped && y in s ==> !less(y, x)
    ensures forall x, y :: x in dropped + multiset{s[0]} && y in t ==> !less(y, x)
  {
    forall x, y | x in dropped + multiset{s[0]} && y in t ensures !less(y, x) {
      assert y in multiset(t);
      if y != e {
        assert y in multiset(s);
        var i :| 0 <= i < |s| && s[i] == y;
        RootLeast(less, s, |s|, i);
      } else if x in dropped {
        assert s[0] in s;
        AboveTransitive(less, x, s[0], e);
      }
    }
  }

  lemma DropsWorse<T(!new)>(less: (T, T) -> bool, max: nat, s: seq<T>, dropped: multiset<T>, e: T)
    requires WeakOrder(less) && Selects(less, max, s, dropped) && |s| == max && (s != [] ==> !less(s[0], e))
    ensures Selects(less, max, s, dropped + multiset{e})
  {
    forall y | y in s ensures !less(y, e) {
      var i :| 0 <= i < |s| && s[i] == y;
      RootLeast(less, s, |s|, i);
      AboveTransitive(less, e, s[0], y);
    }
  }
}

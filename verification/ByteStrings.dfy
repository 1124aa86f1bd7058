/** Byte strings and their order: what `std::string` comparison computes. */
module ByteStrings {

  type byte = x: int | 0 <= x < 256

  type Bytes = seq<byte>

  /** Unsigned lexicographic order; a proper prefix comes first. */
  predicate Less(a: Bytes, b: Bytes) {
    b != [] && (a == [] || a[0] < b[0] || (a[0] == b[0] && Less(a[1..], b[1..])))
  }

  /** The strings agree before position `i`, and there `a` has ended or has the smaller byte. */
  ghost predicate SmallerAt(a: Bytes, b: Bytes, i: nat) {
    i <= |a| && i < |b| && a[..i] == b[..i] && (i == |a| || a[i] < b[i])
  }

  /** The first difference decides. */
  lemma {:induction false} LessDiffers(a: Bytes, b: Bytes)
    ensures Less(a, b) <==> exists i :: SmallerAt(a, b, i)
  {
    forall i: nat | SmallerAt(a, b, i) ensures i == 0 || (a != [] && b != [] && a[0] == b[0]) {
      if i > 0 { assert a[..i][0] == b[..i][0]; }
    }
    if a == [] || b == [] || a[0] != b[0] {
      if Less(a, b) { assert SmallerAt(a, b, 0); }
    } else {
      LessDiffers(a[1..], b[1..]);
      if i: nat :| SmallerAt(a[1..], b[1..], i) {
        assert a[..i + 1] == [a[0]] + a[1..][..i] && b[..i + 1] == [b[0]] + b[1..][..i];
        assert SmallerAt(a, b, i + 1);
      }
      if i: nat :| SmallerAt(a, b, i) {
        assert a[1..][..i - 1] == a[..i][1..] && b[1..][..i - 1] == b[..i][1..];
        assert SmallerAt(a[1..], b[1..], i - 1);
      }
    }
  }

  predicate AtMost(a: Bytes, b: Bytes) {
    !Less(b, a)
  }

  lemma {:induction false} LessIrreflexive(a: Bytes)
    ensures !Less(a, a)
  {
    if a != [] { LessIrreflexive(a[1..]); }
  }

  lemma {:induction false} LessTransitive(a: Bytes, b: Bytes, c: Bytes)
    requires Less(a, b) && Less(b, c)
    ensures Less(a, c)
  {
    if a != [] && a[0] == b[0] == c[0] { LessTransitive(a[1..], b[1..], c[1..]); }
  }

  lemma {:induction false} LessTotal(a: Bytes, b: Bytes)
    requires a != b
    ensures Less(a, b) || Less(b, a)
  {
    if a != [] && b != [] && a[0] == b[0] {
      assert a == [a[0]] + a[1..] && b == [b[0]] + b[1..];
      LessTotal(a[1..], b[1..]);
    }
  }

  lemma LessImpliesAtMost(a: Bytes, b: Bytes)
    requires Less(a, b)
    ensures AtMost(a, b)
  {
    if Less(b, a) {
      LessTransitive(a, b, a);
      LessIrreflexive(a);
    }
  }

  lemma AtMostTransitive(a: Bytes, b: Bytes, c: Bytes)
    requires AtMost(a, b) && AtMost(b, c)
    ensures AtMost(a, c)
  {
    if Less(c, a) {
      if a != b { LessTotal(a, b); }
      if b != c { LessTotal(b, c); }
      if a != b && b != c {
        LessTransitive(a, b, c);
        LessTransitive(a, c, a);
      }
      LessIrreflexive(a);
    }
  }

  lemma AtMostLess(a: Bytes, b: Bytes, c: Bytes)
    requires AtMost(a, b) && Less(b, c)
    ensures Less(a, c)
  {
    if a != b {
      LessTotal(a, b);
      LessTransitive(a, b, c);
    }
  }

  predicate Sorted(s: seq<Bytes>) {
    forall i, j {:trigger AtMost(s[i], s[j])} :: 0 <= i < j < |s| ==> AtMost(s[i], s[j])
  }

  /** Appending an element that is at least the last one keeps a sequence sorted. */
  lemma SortedAppend(s: seq<Bytes>, x: Bytes)
    requires Sorted(s)
    requires s != [] ==> AtMost(s[|s| - 1], x)
    ensures Sorted(s + [x])
  {
    forall i | 0 <= i < |s| ensures AtMost(s[i], x) {
      if i < |s| - 1 { AtMostTransitive(s[i], s[|s| - 1], x); }
    }
  }

  /** Where `x` goes in a sorted sequence: after everything strictly below it. */
  function Insert(s: seq<Bytes>, x: Bytes): (r: seq<Bytes>) {
    if s == [] || AtMost(s[|s| - 1], x) then s + [x] else Insert(s[..|s| - 1], x) + [s[|s| - 1]]
  }

  /** The specification of `std::sort`: a sorted rearrangement. */
  function Sort(s: seq<Bytes>): (r: seq<Bytes>) {
    if s == [] then [] else Insert(Sort(s[..|s| - 1]), s[|s| - 1])
  }

  lemma {:induction false} InsertSorts(s: seq<Bytes>, x: Bytes)
    requires Sorted(s)
    ensures Sorted(Insert(s, x))
    ensures multiset(Insert(s, x)) == multiset(s) + multiset{x}
  {
    if s == [] || AtMost(s[|s| - 1], x) {
      SortedAppend(s, x);
    } else {
      var init, last := s[..|s| - 1], s[|s| - 1];
      assert s == init + [last];
      InsertSorts(init, x);
      var r := Insert(init, x);
      LessImpliesAtMost(x, last);
      assert r[|r| - 1] in multiset(r);
      assert r[|r| - 1] == x || r[|r| - 1] in init;
      SortedAppend(r, last);
    }
  }

  lemma {:induction false} SortSorts(s: seq<Bytes>)
    ensures Sorted(Sort(s)) && multiset(Sort(s)) == multiset(s) && |Sort(s)| == |s|
  {
    if s != [] {
      var init, last := s[..|s| - 1], s[|s| - 1];
      assert s == init + [last];
      SortSorts(init);
      InsertSorts(Sort(init), last);
    }
    assert |multiset(Sort(s))| == |Sort(s)| && |multiset(s)| == |s|;
  }
}

/**
 * The numbers behind the limit: for which tables the total up to which the promise is proved to be kept is
 * the exact one, and that one more element can break it.
 */
module QuantileExact {
  import opened Arithmetic
  import opened ByteStrings
  import opened QuantileSummary
  import opened QuantileGrowth
  import opened QuantileSplitters
  import opened QuantileTable
  import opened QuantileRuns
  import opened QuantileWorstCase
  import opened QuantileLimit

  // -------------------------------------------------------------------------------- quotients

  lemma DivShift(x: nat, d: nat, m: int, y: int)
    requires d > 0 && x == d * m + y
    ensures x / d == m + y / d
  {
    assert y == d * (y / d) + y % d;
    Gathered(d, m, y / d);
    DivModUnique(x, d, m + y / d, y % d);
  }

  lemma Gathered(d: nat, a: int, b: int)
    ensures d * (a + b) == d * a + d * b
  {
  }

  lemma DivBetween(y: int, d: nat, lo: int)
    requires d > 0 && d * lo <= y < d * lo + d
    ensures y / d == lo
  {
    var u := y / d;
    assert y == d * u + y % d;
    if u < lo { Order(d, u + 1, lo); Gathered(d, u, 1); }
    if u > lo { Order(d, lo + 1, u); Gathered(d, lo, 1); }
  }

  lemma DivLess(y: int, d: nat, hi: int)
    requires d > 0 && y < d * hi
    ensures y / d < hi
  {
    assert y == d * (y / d) + y % d;
    if y / d >= hi { Order(d, hi, y / d); }
  }

  // ------------------------------------------------------------------- the level where it may break

  /** One level more than the promise is proved to be kept with. */
  function Beyond(k: nat, n: nat): (c: nat)
    requires n >= 2
  {
    2 * k / (n - 1) + 1
  }

  /**
   * The quantities in question: `d` intervals, `c` levels, `q` half the weight of the buffer on top, and
   * what remains when `2k` is divided by `d`.
   */
  ghost predicate Setting(k: nat, n: nat, d: nat, c: nat, q: nat, rho: nat) {
    && n >= 4 && d == n - 1 && c == Beyond(k, n) && c >= 2 && q == Pow2(c - 1) && q >= 2
    && rho == 2 * k % d && 2 * k == (c - 1) * d + rho && rho < d && d <= k
  }

  lemma SettingOf(k: nat, b: nat, n: nat) returns (d: nat, c: nat, q: nat, rho: nat)
    requires Sized(k, b, n) && n >= 4
    ensures Setting(k, n, d, c, q, rho)
  {
    d, rho := n - 1, 2 * k % (n - 1);
    c := Beyond(k, n);
    q := Pow2(c - 1);
    AffordableBound(k, b, n);
    FewIntervals(d, b - 3, k);
    QuotientAndRest(2 * k, d);
    AtMostQuotient(1, d, 2 * k);
    TwiceAtLeast(c);
  }

  lemma FewIntervals(d: nat, b: nat, k: nat)
    requires d * b <= 4 * k && b >= 6
    ensures d <= k
  {
    Order(d, 6, b);
  }

  lemma QuotientAndRest(x: nat, d: nat)
    requires d > 0
    ensures x == x / d * d + x % d
  {
    Swap(x / d, d);
  }

  lemma TwiceAtLeast(c: nat)
    requires c >= 2
    ensures Pow2(c - 1) >= 2
  {
    assert Pow2(c - 1) == 2 * Pow2(c - 2);
    PowPositive(c - 2);
  }

  lemma SafeIs(k: nat, n: nat, d: nat, c: nat, q: nat, rho: nat)
    requires Setting(k, n, d, c, q, rho)
    ensures Safe(k, n) == k * Pow2(c) == 2 * k * q && Pow2(c) == 2 * q && Excess(c) == c * q
  {
    assert Pow2(c) == 2 * q;
    Reassociate(k, 2, q);
    Swap(k, 2);
    AllExcessIs(c);
    HalfOf(Excess(c), c, q);
  }

  lemma HalfOf(e: nat, c: nat, q: nat)
    requires 2 * e == c * (2 * q)
    ensures e == c * q
  {
  }

  /** What is allowed with one element more than is safe. */
  lemma AllowedIs(k: nat, n: nat, d: nat, c: nat, q: nat, rho: nat)
    requires Setting(k, n, d, c, q, rho)
    ensures Allowed(Safe(k, n) + 1, n) == (c - 1) * q + (rho * q + 1) / d
    ensures (rho * q + 1) / d < q
  {
    SafeIs(k, n, d, c, q, rho);
    Expand(k, c, d, rho, q);
    DivShift(2 * k * q + 1, d, (c - 1) * q, rho * q + 1);
    Remains(rho, d, q);
  }

  lemma Expand(k: nat, c: nat, d: nat, rho: nat, q: nat)
    requires c >= 1 && 2 * k == (c - 1) * d + rho
    ensures 2 * k * q + 1 == d * ((c - 1) * q) + (rho * q + 1)
  {
    assert ((c - 1) * d + rho) * q == (c - 1) * d * q + rho * q;
    Reassociate(c - 1, d, q);
    Reassociate(d, c - 1, q);
    Swap(c - 1, d);
  }

  lemma Remains(rho: nat, d: nat, q: nat)
    requires rho < d && q >= 2
    ensures (rho * q + 1) / d < q
  {
    MulMonotone(rho, d - 1, q);
    assert (d - 1) * q == d * q - q;
    DivLess(rho * q + 1, d, q);
  }

  /** Quantile `i`, aimed at with `h` low values in the buffer on top and `y` in the leaf, is too far off. */
  predicate Snaps(k: nat, n: nat, i: nat, h: nat, y: nat)
    requires n >= 2
  {
    && Beyond(k, n) <= h <= k && y <= 1
    && Beats(Safe(k, n) + 1, n, i, Worth(Beyond(k, n) + 1, h) + y, Excess(Beyond(k, n)))
  }

  lemma SnapBreaks(k: nat, n: nat, i: nat, h: nat, y: nat) returns (run: Run)
    requires k > 0 && n >= 2 && Snaps(k, n, i, h, y)
    ensures |Inputs(run)| == Safe(k, n) + 1 && !Keeps(k, n, run)
  {
    var c, e := Beyond(k, n), if y == 1 then LOW else HIGH;
    var s := JustBeyond(k, c, h, e);
    SnapStream(k, c, h, y, e, s);
    run := RunOf(s);
    BeatenAt(k, n, s, Safe(k, n) + 1, i, Worth(c + 1, h) + y, Excess(c));
  }

  lemma BeatenAt(k: nat, n: nat, s: seq<Bytes>, tot: nat, i: nat, retained: nat, gain: nat)
    requires k > 0 && Beats(tot, n, i, retained, gain) && |s| == tot
    requires Count(s, LOWS) + gain == retained == Retained(TreeOf(k, s), LOWS)
    ensures |Inputs(RunOf(s))| == tot && !Keeps(k, n, RunOf(s))
  {
    BeatenBreaks(k, n, s, i, retained, gain);
  }

  lemma SnapStream(k: nat, c: nat, h: nat, y: nat, e: Bytes, s: seq<Bytes>)
    requires k > 0 && 1 <= c <= h <= k && e == (if y == 1 then LOW else HIGH) && y <= 1 && s == JustBeyond(k, c, h, e)
    ensures |s| == k * Pow2(c) + 1 && Count(s, LOWS) + Excess(c) == Worth(c + 1, h) + y == Retained(TreeOf(k, s), LOWS)
  {
    OneCount(e);
    JustBeyondIs(k, c, h, e, s);
    FullGain(c, h);
  }

  lemma OneCount(e: Bytes)
    requires e == LOW || e == HIGH
    ensures Count([e], LOWS) == if e == LOW then 1 else 0
  {
    assert [e][..0] == [];
  }

  /** In terms of those quantities. */
  lemma SnapsIf(k: nat, n: nat, d: nat, c: nat, q: nat, rho: nat, i: nat, h: nat, y: nat, t: int)
    requires Setting(k, n, d, c, q, rho) && c <= h <= k && y <= 1 && 1 <= i <= d - 1
    requires t == Target(i, 2 * k * q + 1, n)
    requires t <= 2 * h * q + y && 2 * h * q + y + (rho * q + 1) / d < t + q
    ensures Snaps(k, n, i, h, y)
  {
    SafeIs(k, n, d, c, q, rho);
    AllowedIs(k, n, d, c, q, rho);
    TopWorth(c, q, h);
    OneLess(c, q);
  }

  lemma TopWorth(c: nat, q: nat, h: nat)
    requires Pow2(c) == 2 * q
    ensures Worth(c + 1, h) == 2 * h * q
  {
    WorthIsProduct(c + 1, h);
    Reassociate(2, q, h);
    Reassociate(2, h, q);
  }

  lemma OneLess(c: nat, q: nat)
    requires c >= 1
    ensures (c - 1) * q + q == c * q
  {
  }

  // ------------------------------------------------------------------- tables where one more can break it

  /** An even number of intervals: the median is aimed at. */
  lemma EvenIntervals(k: nat, n: nat, d: nat, c: nat, q: nat, rho: nat) returns (i: nat, h: nat, y: nat)
    requires Setting(k, n, d, c, q, rho) && d % 2 == 0 && d >= 6 && k % 2 == 0 && k >= 6
    ensures Snaps(k, n, i, h, y)
  {
    i, h, y := d / 2, k / 2, 1;
    MedianTarget(k, d, i, q);
    assert 2 * h == k;
    Reassociate(2, k, q);
    MedianHeight(k, d, c, rho);
    Remains(rho, d, q);
    SnapsIf(k, n, d, c, q, rho, i, h, y, k * q + 1);
  }

  lemma MedianTarget(k: nat, d: nat, e: nat, q: nat)
    requires d == 2 * e && e >= 1
    ensures Target(e, 2 * k * q + 1, d + 1) == k * q + 1
  {
    var m := k * q;
    Reassociate(2, k, q);
    MedianSum(e, m);
    DivShift(e * (2 * m + 1) + d - 1, d, m, 3 * e - 1);
    DivBetween(3 * e - 1, d, 1);
  }

  lemma MedianSum(e: nat, m: nat)
    ensures e * (2 * m + 1) == 2 * e * m + e
  {
  }

  lemma MedianHeight(k: nat, d: nat, c: nat, rho: nat)
    requires c >= 1 && 2 * k == (c - 1) * d + rho && d >= 6 && k >= 6
    ensures c <= k / 2
  {
    Order(c - 1, 6, d);
  }

  /** Four intervals: the third quantile is aimed at. */
  lemma FourIntervals(k: nat, n: nat, d: nat, c: nat, q: nat, rho: nat) returns (i: nat, h: nat, y: nat)
    requires Setting(k, n, d, c, q, rho) && d == 4 && k % 4 == 0 && k >= 4
    ensures Snaps(k, n, i, h, y)
  {
    var m := k / 4;
    i, h, y := 3, 3 * m, 1;
    Reassociate(2, k, q);
    Reassociate(4, m, q);
    Reassociate(3, m, q);
    Reassociate(2, h, q);
    DivBetween(6, 4, 1);
    DivShift(3 * (2 * k * q + 1) + 3, 4, 6 * (m * q), 6);
    Remains(rho, d, q);
    SnapsIf(k, n, d, c, q, rho, i, h, y, 6 * (m * q) + 1);
  }

  /** Where a quantile falls almost a whole element of the buffer on top short of the next. */
  lemma OddIntervals(k: nat, n: nat, d: nat, c: nat, q: nat, rho: nat, i: nat, h: nat) returns (y: nat)
    requires Setting(k, n, d, c, q, rho) && rho + 3 <= d && i * k + 1 == d * h && 2 <= i <= d - 1
    ensures Snaps(k, n, i, h, y)
  {
    var z := (i + d - 1 - 2 * q) / d;
    y := if z == 1 then 1 else 0;
    ShortTarget(k, d, i, h, q);
    DivLess(i + d - 1 - 2 * q, d, 2);
    ShortHeight(k, d, c, rho, i, h);
    ShortRoom(rho, d, q, i, z);
    Remains(rho, d, q);
    SnapsIf(k, n, d, c, q, rho, i, h, y, 2 * h * q + z);
  }

  lemma ShortTarget(k: nat, d: nat, i: nat, h: nat, q: nat)
    requires i * k + 1 == d * h && 1 <= i <= d - 1
    ensures Target(i, 2 * k * q + 1, d + 1) == 2 * h * q + (i + d - 1 - 2 * q) / d
  {
    ShortSum(k, d, i, h, q);
    DivShift(i * (2 * k * q + 1) + d - 1, d, 2 * h * q, i + d - 1 - 2 * q);
  }

  lemma ShortSum(k: nat, d: nat, i: nat, h: nat, q: nat)
    requires i * k + 1 == d * h
    ensures i * (2 * k * q + 1) == d * (2 * h * q) - 2 * q + i
  {
    var q2 := 2 * q;
    Spread3(i, k, q2);
    assert (i * k + 1) * q2 == i * k * q2 + q2;
    Reassociate(d, h, q2);
    assert k * q2 == 2 * k * q && h * q2 == 2 * h * q;
  }

  lemma Spread3(i: nat, k: nat, q: nat)
    ensures i * (k * q + 1) == i * k * q + i
  {
    Reassociate(i, k, q);
  }

  lemma ShortHeight(k: nat, d: nat, c: nat, rho: nat, i: nat, h: nat)
    requires c >= 1 && 2 * k == (c - 1) * d + rho && i * k + 1 == d * h && 2 <= i <= d - 1 && k >= 1
    ensures c <= h <= k
  {
    Order(k, 2, i);
    Order(k, i, d - 1);
    Swap(i, k);
    Swap(d, c - 1);
    Swap(d, k);
    if h < c { Order(d, h, c - 1); }
    if h > k { Order(d, k + 1, h); }
  }

  lemma ShortRoom(rho: nat, d: nat, q: nat, i: nat, z: int)
    requires q >= 2 && rho + 3 <= d && i >= 1 && z == (i + d - 1 - 2 * q) / d
    ensures (rho * q + 1) / d < q + z
  {
    MulMonotone(rho, d - 3, q);
    assert (d - 3) * q == d * q - 3 * q;
    var u := q + z;
    var w := i + d - 1 - 2 * q;
    assert w == d * z + w % d;
    Gathered(d, q, z);
    DivLess(rho * q + 1, d, u);
  }

  /** Where `2k + 2` is a multiple of the intervals, if the buffer on top weighs little. */
  lemma TwoShort(k: nat, n: nat, d: nat, c: nat, q: nat, rho: nat)
    requires Setting(k, n, d, c, q, rho) && c <= k && d >= 3
    requires (rho == d - 2 && 4 * q < d + 2) || (rho == d - 1 && 2 * q < d + 2)
    ensures Snaps(k, n, 2, c, 0)
  {
    var r := d - rho;
    OneLess(c, d);
    LooseTarget(k, d, c, q, r, 2);
    DivBetween(2 * (r * q - 1), d, 0);
    Remains(rho, d, q);
    SnapsIf(k, n, d, c, q, rho, 2, c, 0, 2 * c * q);
  }

  /** The target of quantile `i`, when `2k + r` is a multiple of the intervals. */
  lemma LooseTarget(k: nat, d: nat, c: nat, q: nat, r: nat, i: nat)
    requires d >= 1 && 2 * k + r == c * d && r * q >= 1
    ensures Target(i, 2 * k * q + 1, d + 1) == i * c * q - i * (r * q - 1) / d
  {
    LooseSum(k, d, c, q, r, i);
    RoundedShort(i * (2 * k * q + 1), d, i * c * q, i * (r * q - 1));
  }

  lemma RoundedShort(x: nat, d: nat, m: int, w: nat)
    requires d > 0 && x == d * m - w
    ensures (x + d - 1) / d == m - w / d
  {
    DivShift(x + d - 1, d, m, d - 1 - w);
    Flipped(w, d);
  }

  lemma LooseSum(k: nat, d: nat, c: nat, q: nat, r: nat, i: nat)
    requires 2 * k + r == c * d
    ensures i * (2 * k * q + 1) == d * (i * c * q) - i * (r * q - 1)
  {
    assert (2 * k + r) * q == 2 * k * q + r * q;
    Reassociate(c, d, q);
    Reassociate(d, c, q);
    Swap(c, d);
    var m := c * q;
    assert 2 * k * q + 1 == d * m - (r * q - 1);
    Less3(i, d * m, r * q - 1);
    Reassociate(i, c, q);
    Reassociate(d, i, m);
    Reassociate(i, d, m);
    Swap(d, i);
  }

  lemma Less3(i: nat, a: int, b: int)
    ensures i * (a - b) == i * a - i * b
  {
  }

  lemma Flipped(u: int, d: nat)
    requires u >= 0 && d > 0
    ensures (d - 1 - u) / d == -(u / d)
  {
    assert u == d * (u / d) + u % d;
    Gathered(d, -(u / d), 0);
    DivBetween(d - 1 - u, d, -(u / d));
  }

  // -------------------------------------------------------------------------------- which tables those are

  /** A power of two has a multiple one short of a multiple of any odd number. */
  lemma {:induction false} FindShort(d: nat, j: nat) returns (i: nat, h: nat)
    requires d % 2 == 1 && d >= 3
    ensures 1 <= i <= d - 1 && i * Pow2(j) + 1 == d * h
  {
    if j == 0 {
      assert Pow2(0) == 1;
      i, h := d - 1, 1;
    } else {
      var p := Pow2(j - 1);
      assert Pow2(j) == 2 * p;
      var i0, h0 := FindShort(d, j - 1);
      i, h := ShortNext(d, p, i0, h0);
    }
  }

  /** Half of it, or half of it and the odd number, for twice the factor. */
  lemma ShortNext(d: nat, p: nat, i0: nat, h0: nat) returns (i: nat, h: nat)
    requires d % 2 == 1 && 1 <= i0 <= d - 1 && i0 * p + 1 == d * h0
    ensures 1 <= i <= d - 1 && i * (2 * p) + 1 == d * h
  {
    if i0 % 2 == 0 {
      i, h := i0 / 2, h0;
      HalfTwice(i0, i, p);
    } else {
      i, h := (i0 + d) / 2, h0 + p;
      HalfTwice(i0 + d, i, p);
      SumTimes(i0, d, p);
      Gathered(d, h0, p);
    }
  }

  lemma HalfTwice(x: nat, i: nat, p: nat)
    requires x == 2 * i
    ensures i * (2 * p) == x * p
  {
  }

  lemma SumTimes(i: nat, d: nat, p: nat)
    ensures (i + d) * p == i * p + d * p
  {
  }

  lemma SizeIsPower(k: nat, b: nat, n: nat)
    requires Sized(k, b, n)
    ensures k == Pow2(41 - b) && k % 4 == 0 && k % 2 == 0
  {
    BufferSize(b);
    SameFactor(k, Pow2(41 - b), Pow2(b - 1));
    FourDivides(41 - b);
  }

  lemma SameFactor(x: nat, y: nat, p: nat)
    requires p > 0 && x * p == y * p
    ensures x == y
  {
    CancelFactor(x, y, p);
    CancelFactor(y, x, p);
  }

  lemma FourDivides(j: nat)
    requires j >= 2
    ensures Pow2(j) % 4 == 0 && Pow2(j) % 2 == 0
  {
    assert Pow2(j) == 2 * Pow2(j - 1) && Pow2(j - 1) == 2 * Pow2(j - 2);
  }

  /**
   * The tables for which `Safe(k, n)` is as far as the promise goes. Of those with four quantiles or more it
   * is all with an odd number of quantiles, and of the others all but some whose number of intervals divides
   * `k + 1` or `2k + 1`.
   */
  predicate IsTight(k: nat, n: nat)
    requires n >= 2
  {
    var d, rho, p := n - 1, 2 * k % (n - 1), Pow2(Beyond(k, n));
    && n >= 4
    && (d % 2 == 0 || rho + 3 <= d || (rho == d - 2 && 2 * p < d + 2) || (rho == d - 1 && p < d + 2))
  }

  lemma NotOne(k: nat, d: nat, rho: nat, h: nat)
    requires d >= 3 && rho == 2 * k % d && rho + 3 <= d
    ensures k + 1 != d * h
  {
    if k + 1 == d * h {
      assert 2 * k == d * (2 * h - 1) + (d - 2) by { Gathered(d, h, h); Gathered(d, 2 * h - 1, 1); }
      DivModUnique(2 * k, d, 2 * h - 1, d - 2);
    }
  }

  /** For such a table there is a run of one element more that breaks the promise. */
  lemma TightBreaks(k: nat, b: nat, n: nat) returns (run: Run)
    requires Sized(k, b, n) && IsTight(k, n)
    ensures |Inputs(run)| == Safe(k, n) + 1 && !Keeps(k, n, run)
  {
    var d, c, q, rho := SettingOf(k, b, n);
    SizeIsPower(k, b, n);
    var i, h, y := FindSnap(k, n, d, c, q, rho, 41 - b);
    run := SnapBreaks(k, n, i, h, y);
  }

  lemma FindSnap(k: nat, n: nat, d: nat, c: nat, q: nat, rho: nat, j: nat) returns (i: nat, h: nat, y: nat)
    requires Setting(k, n, d, c, q, rho) && IsTight(k, n) && k == Pow2(j) && k % 4 == 0 && k % 2 == 0 && k >= 16
    ensures Snaps(k, n, i, h, y)
  {
    if d == 4 {
      i, h, y := FourIntervals(k, n, d, c, q, rho);
    } else if d % 2 == 0 {
      NotFive(d);
      i, h, y := EvenIntervals(k, n, d, c, q, rho);
    } else if rho + 3 <= d {
      i, h, y := FindOdd(k, n, d, c, q, rho, j);
    } else {
      i, h, y := 2, c, 0;
      SafeIs(k, n, d, c, q, rho);
      LowTop(k, d, c, rho);
      TwoShort(k, n, d, c, q, rho);
    }
  }

  lemma NotFive(d: nat)
    requires d % 2 == 0 && d >= 3 && d != 4
    ensures d >= 6
  {
  }

  lemma FindOdd(k: nat, n: nat, d: nat, c: nat, q: nat, rho: nat, j: nat) returns (i: nat, h: nat, y: nat)
    requires Setting(k, n, d, c, q, rho) && d % 2 == 1 && rho + 3 <= d && k == Pow2(j)
    ensures Snaps(k, n, i, h, y)
  {
    i, h := FindShort(d, j);
    NotOne(k, d, rho, h);
    y := OddIntervals(k, n, d, c, q, rho, i, h);
  }

  lemma LowTop(k: nat, d: nat, c: nat, rho: nat)
    requires c >= 1 && 2 * k == (c - 1) * d + rho && d >= 3 && k >= 3
    ensures c <= k
  {
    Order(c - 1, 3, d);
  }

  /**
   * The exact limit: over all runs of adds and merges of at most `x` elements, the promise is kept if and
   * only if `x` is at most `Safe(k, n)`.
   */
  lemma ExactLimit(k: nat, b: nat, n: nat, x: nat)
    requires Sized(k, b, n) && IsTight(k, n)
    ensures (forall run :: |Inputs(run)| <= x ==> Keeps(k, n, run)) <==> x <= Safe(k, n)
  {
    if x <= Safe(k, n) {
      forall run | |Inputs(run)| <= x ensures Keeps(k, n, run) { KeptUpToSafe(k, n, run); }
    } else {
      var run := TightBreaks(k, b, n);
    }
  }
}

/**
 * The other tables: what one element more than `Safe(k, n)` can do there, and what more elements can do.
 */
module QuantileLoose {
  import opened Arithmetic
  import opened Sealing
  import opened ByteStrings
  import opened QuantileSummary
  import opened QuantileGrowth
  import opened QuantileSplitters
  import opened QuantileTable
  import opened QuantileRuns
  import opened QuantileWorstCase
  import opened QuantileLimit
  import opened QuantileExact

  // ------------------------------------------------------------ the tree after one element more

  /** What a tree holds at most. */
  lemma {:induction false} LevelBound(k: nat, t: Tree)
    requires |t| >= 2 && forall j :: 0 <= j < |t| ==> |t[j]| <= k
    ensures Retained(t, Everything) <= k * Pow2(|t| - 1)
    decreases |t|
  {
    var top := |t| - 1;
    if top == 1 {
      LeafSplit(t);
      TwoLeaves(k, top);
    } else {
      LevelBound(k, t[..top]);
      CountEverything(t[top]);
      WorthMonotone(top, |t[top]|, k);
      WorthIsProduct(top, k);
      Swap(Weight(top), k);
      Halves(k, top);
    }
  }

  lemma TwoLeaves(k: nat, n: nat)
    requires n == 1
    ensures k * Pow2(n) == 2 * k
  {
    assert Pow2(n) == 2;
  }

  lemma {:induction false} AtLeastFirst(t: Tree)
    requires t != []
    ensures Retained(t, Everything) >= |t[0]|
  {
    var top := |t| - 1;
    CountEverything(t[top]);
    if top > 0 { AtLeastFirst(t[..top]); } else { assert t[..0] == []; }
  }

  /** A tree that retains one element. */
  lemma {:induction false} OneElement(t: Tree)
    requires t != [] && t[0] != [] && Retained(t, Everything) == 1
    ensures |t[0]| == 1 && forall j :: 1 <= j < |t| ==> t[j] == []
  {
    var top := |t| - 1;
    AtLeastFirst(t);
    if top > 0 {
      AtLeastFirst(t[..top]);
      CountEverything(t[top]);
      OneElement(t[..top]);
    }
  }

  lemma {:induction false} FirstOnly(t: Tree, c: Cut)
    requires t != [] && forall j :: 1 <= j < |t| ==> t[j] == []
    ensures Retained(t, c) == Count(t[0], c)
  {
    var top := |t| - 1;
    if top > 0 { FirstOnly(t[..top], c); } else { assert t[..0] == []; }
  }

  /** After one element more there is that element, and a full buffer on top. */
  lemma LoneTop(k: nat, t: Tree, c: nat, tot: nat)
    requires Structured(k, t, tot) && c >= 1 && tot == k * Pow2(c) + 1
    ensures |t| == c + 2 && |t[0]| == 1 && |t[c + 1]| == k && forall j :: 1 <= j <= c ==> t[j] == []
  {
    Halves(k, c + 1);
    PowPositive(c);
    MulGrows(k, Pow2(c));
    HeightBelow(k, t, tot, c);
    Tall(k, t, c, tot);
    var top := c + 1;
    CountEverything(t[top]);
    WorthIsProduct(top, k);
    Swap(Weight(top), k);
    OneElement(t[..top]);
  }

  lemma Tall(k: nat, t: Tree, c: nat, tot: nat)
    requires Structured(k, t, tot) && c >= 1 && tot == k * Pow2(c) + 1
    ensures |t| >= c + 2
  {
    if |t| == 1 {
      LevelBound(k, Extend(t, 2));
      ExtendKeeps(t, 2, Everything, 0);
      PowGrows(k, 1, c);
    } else if |t| < c + 2 {
      LevelBound(k, t);
      PowGrows(k, |t| - 1, c);
    }
  }

  lemma PowGrows(k: nat, a: nat, b: nat)
    requires a <= b
    ensures k * Pow2(a) <= k * Pow2(b)
  {
    Pow2Monotone(a, b);
    MulMonotone(Pow2(a), Pow2(b), k);
  }

  /** So what is retained of a cut is a number of elements on top, and perhaps the one in the leaf. */
  lemma LoneRetained(k: nat, t: Tree, c: nat, tot: nat, cut: Cut) returns (h: nat, y: nat)
    requires Structured(k, t, tot) && c >= 1 && tot == k * Pow2(c) + 1
    ensures Retained(t, cut) == Worth(c + 1, h) + y && h <= k && y <= 1
  {
    LoneTop(k, t, c, tot);
    FirstOnly(t[..c + 1], cut);
    h, y := Count(t[c + 1], cut), Count(t[0], cut);
  }

  // ------------------------------------------------------------------------------- it is kept there

  /** A quotient at least doubled covers the same quotient rounded up, unless both are small. */
  lemma TwiceCovers(u: int, d: nat, i: nat)
    requires u >= 0 && d > 0 && 2 * u >= d && i >= 2
    ensures i * u / d >= -(-u / d)
  {
    var m := -u / d;
    assert -u == d * m + -u % d;
    Order(u, 2, i);
    Swap(u, i);
    Covers(u, d, i * u, -m);
  }

  lemma Covers(u: int, d: nat, w: int, v: int)
    requires d > 0 && 2 * u >= d && w >= 2 * u && d * v - d < u <= d * v
    ensures w / d >= v
  {
    if w / d < v {
      assert w == d * (w / d) + w % d;
      Order(d, w / d, v - 1);
      Gathered(d, v, -1);
      if v >= 2 { Order(d, 1, v - 1); }
    }
  }

  /** What is missing to `q`. */
  lemma LooseAllowed(d: nat, q: nat, r: nat)
    requires d > r && r * q >= 1
    ensures ((d - r) * q + 1) / d == q + -(r * q - 1) / d
  {
    assert (d - r) * q + 1 == d * q + -(r * q - 1);
    DivShift((d - r) * q + 1, d, q, -(r * q - 1));
  }

  /** Retained often enough for the target means often enough to be close to it. */
  lemma LooseSlack(d: nat, c: nat, q: nat, r: nat, i: nat, h: nat, y: nat)
    requires d >= 3 && 1 <= r <= 2 && (r == 2 ==> c % 2 == 0) && q >= 2 && 2 <= i <= d - 1 && y <= 1 && 2 * (r * q - 1) >= d
    requires 2 * h * q + y >= i * c * q - i * (r * q - 1) / d
    ensures 2 * h * q + y - (i * c * q - i * (r * q - 1) / d) >= -(-(r * q - 1) / d)
  {
    var u, a := r * q - 1, 2 * h - i * c;
    TwiceCovers(u, d, i);
    BelowOne(u, d, i);
    assert 2 * h * q == (i * c + a) * q == i * c * q + a * q;
    if r == 2 { EvenTimes(i, c); }
    Signs(a, r, q);
  }

  lemma EvenTimes(i: nat, c: nat)
    requires c % 2 == 0
    ensures (i * c) % 2 == 0
  {
    var g := c / 2;
    assert i * c == 2 * (i * g);
  }

  lemma Signs(a: int, r: int, q: nat)
    ensures a <= -r ==> a * q <= -(r * q)
    ensures a >= 0 ==> a * q >= 0
  {
  }

  lemma BelowOne(u: nat, d: nat, i: nat)
    requires u >= 1 && d >= 1 && i <= d - 1
    ensures i * u / d <= u - 1
  {
    MulMonotone(i, d - 1, u);
    assert (d - 1) * u == d * u - u;
    DivLess(i * u, d, u);
  }

  /** In a table that is not tight no run of one element more breaks the promise. */
  lemma LooseKept(k: nat, b: nat, n: nat, run: Run)
    requires Sized(k, b, n) && n >= 4 && !IsTight(k, n) && |Inputs(run)| == Safe(k, n) + 1
    ensures Keeps(k, n, run)
  {
    var tot := |Inputs(run)|;
    var d, c, q, rho := SettingOf(k, b, n);
    SafeIs(k, n, d, c, q, rho);
    SizeIsPower(k, b, n);
    LowTop(k, d, c, rho);
    forall i, x | 1 <= i <= n - 2 && AtRank(TreeAfter(k, run), Target(i, tot, n), x)
      ensures RankOf(x, Inputs(run), Target(i, tot, n), Allowed(tot, n))
    {
      if i == 1 { FirstKept(k, n, run, x); } else { LooseClose(k, n, d, c, q, rho, run, i, x); }
    }
  }

  lemma LooseClose(k: nat, n: nat, d: nat, c: nat, q: nat, rho: nat, run: Run, i: nat, x: Bytes)
    requires Setting(k, n, d, c, q, rho) && !IsTight(k, n) && c <= k && |Inputs(run)| == Safe(k, n) + 1 && 2 <= i <= n - 2
    requires AtRank(TreeAfter(k, run), Target(i, |Inputs(run)|, n), x)
    ensures RankOf(x, Inputs(run), Target(i, |Inputs(run)|, n), Allowed(|Inputs(run)|, n))
  {
    var t, tot := TreeAfter(k, run), |Inputs(run)|;
    var min, max, log := RunRepresents(k, run);
    SafeIs(k, n, d, c, q, rho);
    RankKept(k, t, tot, Inputs(run), log, Target(i, tot, n), x);
    CostIs(k, t, Inputs(run), log, c, q);
    var h, y := LoneRetained(k, t, c, tot, UpTo(x));
    TopWorth(c, q, h);
    LooseEnough(k, n, d, c, q, rho, i, h, y);
    assert Retained(t, UpTo(x)) - Count(Inputs(run), UpTo(x)) <= Cost(log);
  }

  /** The cost of all collapses by then. */
  lemma CostIs(k: nat, t: Tree, inputs: seq<Bytes>, log: seq<nat>, c: nat, q: nat)
    requires k > 0 && c >= 1 && Structured(k, t, |inputs|) && Summarises(k, t, inputs, log) && |inputs| == k * Pow2(c) + 1
    requires Pow2(c) == 2 * q && c <= k
    ensures Cost(log) <= c * q
  {
    ErrorBound(k, t, inputs, log);
    LoneTop(k, t, c, |inputs|);
    NotMore(k, c, q, Cost(log));
  }

  lemma NotMore(k: nat, c: nat, q: nat, e: nat)
    requires k > 0 && c <= k && 2 * k * e <= c * (k * (2 * q) + 1)
    ensures e <= c * q
  {
    var m := c * q;
    Reassociate(c, k, 2 * q);
    assert c * (k * (2 * q) + 1) == c * (k * (2 * q)) + c;
    assert c * (k * (2 * q)) == 2 * k * m;
    if e > m { Order(2 * k, m + 1, e); Distribute(2 * k, m, 1); }
  }

  lemma LooseEnough(k: nat, n: nat, d: nat, c: nat, q: nat, rho: nat, i: nat, h: nat, y: nat)
    requires Setting(k, n, d, c, q, rho) && !IsTight(k, n) && 2 <= i <= d - 1 && y <= 1
    requires Target(i, Safe(k, n) + 1, n) <= 2 * h * q + y
    ensures Target(i, Safe(k, n) + 1, n) + c * q <= 2 * h * q + y + Allowed(Safe(k, n) + 1, n)
  {
    var r := d - rho;
    SafeIs(k, n, d, c, q, rho);
    AllowedIs(k, n, d, c, q, rho);
    OneLess(c, q);
    LooseRest(k, n, d, c, q, rho);
    LooseTarget(k, d, c, q, r, i);
    LooseAllowed(d, q, r);
    LooseSlack(d, c, q, r, i, h, y);
  }

  lemma LooseRest(k: nat, n: nat, d: nat, c: nat, q: nat, rho: nat)
    requires Setting(k, n, d, c, q, rho) && !IsTight(k, n) && d >= 3
    ensures var r := d - rho; 1 <= r <= 2 && 2 * k + r == c * d && (r == 2 ==> c % 2 == 0) && 2 * (r * q - 1) >= d
  {
    SafeIs(k, n, d, c, q, rho);
    OneLess(c, d);
    EvenFactor(c, d, k + 1);
  }

  lemma EvenFactor(c: nat, d: nat, m: nat)
    requires d % 2 == 1
    ensures c * d == 2 * m ==> c % 2 == 0
  {
    var e := d / 2;
    assert c * d == 2 * (c * e) + c;
  }

  /** So `Safe(k, n)` is the exact limit for the tight tables and for no others. */
  lemma TightExactly(k: nat, b: nat, n: nat)
    requires Sized(k, b, n) && n >= 4
    ensures (exists run :: |Inputs(run)| == Safe(k, n) + 1 && !Keeps(k, n, run)) <==> IsTight(k, n)
  {
    if IsTight(k, n) {
      var run := TightBreaks(k, b, n);
    } else {
      forall run | |Inputs(run)| == Safe(k, n) + 1 ensures Keeps(k, n, run) { LooseKept(k, b, n, run); }
    }
  }

  // --------------------------------------------------------------------------------- it is not kept for ever

  /** With five quantiles or more there are runs that break the promise for every table. */
  lemma LateBreaks(k: nat, b: nat, n: nat) returns (run: Run)
    requires Sized(k, b, n) && n >= 5
    ensures !Keeps(k, n, run)
  {
    var levels := FirstBreak(k, n);
    EveryTableBreaks(k, b, n);
    var hs, last := Choose(k, n, levels);
    var s := Worst(k, hs, last);
    ChosenOvershoots(k, n, levels, hs, last, s);
    TooMuch(k, n, levels);
    QuotientBelow(|s|, n - 1, AllExcess(levels));
    TargetFits(k, n, levels);
    NotEmpty(k, n, levels);
    run := RunOf(s);
    BeatenAt(k, n, s, |s|, n - 2, LastTarget(k, n, levels), AllExcess(levels));
  }

  /** Two climbing streams, the second to the level below, and one element more. */
  lemma TwoClimbs(k: nat, c: nat, h1: nat, h2: nat, s: seq<Bytes>)
    requires k > 0 && c >= 2 && h1 <= k && h2 <= k && s == Climbing(k, c, h1) + Climbing(k, c - 1, h2) + [LOW]
    ensures |s| == k * Pow2(c) + k * Pow2(c - 1) + 1
    ensures Retained(TreeOf(k, s), LOWS) == Worth(c + 1, h1) + Worth(c, h2) + 1 == Count(s, LOWS) + Gain(c, h1) + Gain(c - 1, h2)
  {
    var p1, p2 := Climbing(k, c, h1), Climbing(k, c - 1, h2);
    assert IsClimbing(k, c, h1, p1) && IsClimbing(k, c - 1, h2, p2);
    OneCount(LOW);
    TwoRetained(k, c, h1, h2, p1, p2, s);
    TwoCounts(k, c, h1, h2, p1, p2, s);
  }

  lemma TwoRetained(k: nat, c: nat, h1: nat, h2: nat, p1: seq<Bytes>, p2: seq<Bytes>, s: seq<Bytes>)
    requires k > 0 && c >= 2 && h1 <= k && h2 <= k && s == p1 + p2 + [LOW]
    requires IsClimbing(k, c, h1, p1) && IsClimbing(k, c - 1, h2, p2)
    ensures Retained(TreeOf(k, s), LOWS) == Worth(c + 1, h1) + Worth(c, h2) + Count([LOW], LOWS)
  {
    var t1 := FirstClimb(k, c, h1, p1);
    SecondClimb(k, c, h2, p1, t1, p2, p1 + p2, s);
  }

  lemma SecondClimb(k: nat, c: nat, h: nat, p: seq<Bytes>, t: Tree, p2: seq<Bytes>, pp: seq<Bytes>, s: seq<Bytes>)
    requires k > 0 && c >= 2 && h <= k && IsClimbing(k, c - 1, h, p2) && Reaches(k, p, t) && EmptyTo(t, c)
    requires pp == p + p2 && s == pp + [LOW]
    ensures Retained(TreeOf(k, s), LOWS) == Retained(t, LOWS) + Worth(c, h) + Count([LOW], LOWS)
  {
    var t2 := ClimbsRetained(k, p, t, c - 1, h, p2);
    NextLeaf(k, pp, t2, LOW, s);
  }

  lemma TwoCounts(k: nat, c: nat, h1: nat, h2: nat, p1: seq<Bytes>, p2: seq<Bytes>, s: seq<Bytes>)
    requires c >= 2 && h1 <= k && h2 <= k && s == p1 + p2 + [LOW]
    requires IsClimbing(k, c, h1, p1) && IsClimbing(k, c - 1, h2, p2)
    ensures |s| == k * Pow2(c) + k * Pow2(c - 1) + 1
    ensures Count(s, LOWS) + Gain(c, h1) + Gain(c - 1, h2) == Worth(c + 1, h1) + Worth(c, h2) + Count([LOW], LOWS)
  {
    ClimbingCounts(k, c, h1, p1);
    ClimbingCounts(k, c - 1, h2, p2);
    CountConcat(p1, p2, LOWS);
    CountConcat(p1 + p2, [LOW], LOWS);
  }

  /** With four quantiles the buffers have 32 elements. */
  lemma FourSize(b: nat, n: nat)
    requires n == 4 && b == 36
    ensures Sized(32, b, n)
  {
    Powers();
    assert Pow2(35) == 2 * Pow2(34) && Pow2(34) == 2 * Pow2(33);
  }

  /** For them the last interior quantile is 65 * 2^20 - 1 too far off, where 64 * 2^20 is allowed. */
  lemma FourBreak(k: nat, n: nat, c: nat) returns (run: Run)
    requires k == 32 && n == 4 && c == 22
    ensures !Keeps(k, n, run)
  {
    var s := Climbing(k, c, c) + Climbing(k, c - 1, c - 2) + [LOW];
    var z := FourParts(k, c, s);
    FourTarget(|s|, z, n);
    run := RunOf(s);
    BeatenAt(k, n, s, |s|, 2, 128 * z + 1, 65 * z - 1);
  }

  lemma FourParts(k: nat, c: nat, s: seq<Bytes>) returns (z: nat)
    requires k > 0 && 3 <= c <= k && s == Climbing(k, c, c) + Climbing(k, c - 1, c - 2) + [LOW]
    ensures z >= 2 && |s| == 6 * k * z + 1
    ensures Retained(TreeOf(k, s), LOWS) == (6 * c - 4) * z + 1 == Count(s, LOWS) + ((3 * c - 1) * z - 1)
  {
    z := FourNumbers(k, c);
    TwoClimbs(k, c, c, c - 2, s);
  }

  lemma FourNumbers(k: nat, c: nat) returns (z: nat)
    requires c >= 3
    ensures z >= 2 && k * Pow2(c) + k * Pow2(c - 1) == 6 * k * z
    ensures Worth(c + 1, c) + Worth(c, c - 2) == (6 * c - 4) * z
    ensures Gain(c, c) + Gain(c - 1, c - 2) == (3 * c - 1) * z - 1
  {
    z := Pow2(c - 2);
    FourPowers(c, z);
    SixTimes(k, z);
    FourWorths(c, z);
    FourGains(c, z);
  }

  lemma SixTimes(k: nat, z: nat)
    ensures k * (4 * z) + k * (2 * z) == 6 * k * z
  {
  }

  lemma FourPowers(c: nat, z: nat)
    requires c >= 3 && z == Pow2(c - 2)
    ensures Pow2(c - 1) == 2 * z && Pow2(c) == 4 * z && z >= 2
  {
    assert Pow2(c - 1) == 2 * Pow2(c - 2) && Pow2(c) == 2 * Pow2(c - 1);
    assert Pow2(c - 2) == 2 * Pow2(c - 3);
    PowPositive(c - 3);
  }

  lemma FourWorths(c: nat, z: nat)
    requires c >= 3 && z == Pow2(c - 2)
    ensures Worth(c + 1, c) + Worth(c, c - 2) == (6 * c - 4) * z
  {
    FourPowers(c, z);
    WorthIsProduct(c + 1, c);
    WorthIsProduct(c, c - 2);
    WorthSum(c, z);
  }

  lemma WorthSum(c: nat, z: nat)
    requires c >= 3
    ensures 4 * z * c + 2 * z * (c - 2) == (6 * c - 4) * z
  {
  }

  lemma GainSum(c: nat, z: nat)
    requires c >= 3
    ensures c * (2 * z) + (c - 1) * z == (3 * c - 1) * z
  {
  }

  lemma FourGains(c: nat, z: nat)
    requires c >= 3 && z == Pow2(c - 2)
    ensures Gain(c, c) + Gain(c - 1, c - 2) == (3 * c - 1) * z - 1
  {
    FourPowers(c, z);
    FullGain(c, c);
    ShortGain(c - 1);
    HalfLevels(c, 2 * z);
    HalfLevels(c - 1, z);
    GainSum(c, z);
  }

  lemma HalfLevels(c: nat, q: nat)
    requires Pow2(c) == 2 * q
    ensures Excess(c) == c * q
  {
    AllExcessIs(c);
    HalfOf(Excess(c), c, q);
  }

  lemma FourTarget(tot: nat, z: nat, n: nat)
    requires tot == 192 * z + 1 && n == 4 && z >= 2
    ensures Beats(tot, n, 2, 128 * z + 1, 65 * z - 1)
  {
    DivShift(2 * tot + 2, 3, 128 * z, 4);
    DivShift(tot, 3, 64 * z, 1);
  }

  /** Whatever is added and merged, the promise is kept with up to three quantiles, and only then. */
  lemma AlwaysKept(k: nat, b: nat, n: nat)
    requires Sized(k, b, n)
    ensures (forall run :: Keeps(k, n, run)) <==> n <= 3
  {
    if n <= 3 {
      forall run ensures Keeps(k, n, run) { FewKept(k, n, run); }
    } else if n == 4 {
      FourSize(36, n);
      SizedOnce(k, b, 32, 36, n);
      var run := FourBreak(k, n, 22);
    } else {
      var run := LateBreaks(k, b, n);
    }
  }
}

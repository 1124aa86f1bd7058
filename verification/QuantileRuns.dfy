/** Every run of adds and merges over quantile entries, and what the displayed quantiles are worth. */
module QuantileRuns {
  import opened Arithmetic
  import opened ByteStrings
  import opened TabEntry
  import opened Sealing
  import opened QuantileSummary
  import opened QuantileAbsorb
  import opened QuantileGrowth
  import opened QuantileSplitters
  import opened QuantileTable

  const MAX_TOT_ELEMS := 1024 * 1024 * 1024 * 1024

  const MAX_INT := 0x7fff_ffff

  // ----------------------------------------------------------------------- the size of a buffer

  /** `1 << n`. */
  function Pow2(n: nat): (r: nat) {
    Weight(n + 1)
  }

  /** Inequality (1) of the source: `(b - 2) * 2^(b - 2) + 0.5 <= epsilon * MAX_TOT_ELEMS`, with `epsilon = 1 / (n - 1)`. */
  predicate Affordable(b: nat, n: nat)
    requires b >= 2 && n >= 2
  {
    ((b - 2) * Pow2(b - 2)) as real + 0.5 <= MAX_TOT_ELEMS as real / (n - 1) as real
  }

  lemma {:induction false} Pow2Adds(a: nat, b: nat)
    ensures Pow2(a) * Pow2(b) == Pow2(a + b)
  {
    if a > 0 {
      Pow2Adds(a - 1, b);
      assert Pow2(a) == 2 * Pow2(a - 1) && Pow2(a + b) == 2 * Pow2(a + b - 1);
      Double(Pow2(a - 1), Pow2(b));
    } else {
      assert Pow2(0) == 1;
    }
  }

  lemma Double(x: nat, y: nat)
    ensures (2 * x) * y == 2 * (x * y)
  {
  }

  lemma {:induction false} Pow2Monotone(a: nat, b: nat)
    ensures a < b ==> Pow2(a) < Pow2(b)
  {
    if a < b {
      assert Pow2(b) == 2 * Pow2(b - 1);
      if a < b - 1 { Pow2Monotone(a, b - 1); }
    }
  }

  /** The first `b` that inequality (1) rules out, and the buffer size for it. */
  method ComputeK(numQuantiles: nat) returns (k: nat, ghost b: nat)
    requires 2 <= numQuantiles <= MAX_INT
    ensures Sized(k, b, numQuantiles)
  {
    var c := 2;
    EarlyAffordable(numQuantiles);
    LateUnaffordable(numQuantiles);
    while Affordable(c, numQuantiles)
      invariant 2 <= c <= 37
      invariant c > 2 ==> Affordable(c - 1, numQuantiles)
      decreases 37 - c
    {
      c := c + 1;
    }
    BufferSize(c);
    k, b := MAX_TOT_ELEMS / Pow2(c - 1), c;
  }

  lemma Powers()
    ensures Pow2(4) == 16 && Pow2(5) == 32 && Pow2(35) == 34359738368 && Pow2(40) == MAX_TOT_ELEMS
  {
    assert Pow2(1) == 2 && Pow2(2) == 4 && Pow2(3) == 8;
    Pow2Adds(2, 2);
    Pow2Adds(2, 3);
    Pow2Adds(5, 5);
    Pow2Adds(10, 10);
    Pow2Adds(20, 10);
    Pow2Adds(30, 5);
    Pow2Adds(30, 10);
  }

  lemma EarlyAffordable(n: nat)
    requires 2 <= n <= MAX_INT
    ensures forall b :: 2 <= b <= 8 ==> Affordable(b, n)
  {
    assert Pow2(0) == 1 && Pow2(1) == 2 && Pow2(2) == 4 && Pow2(3) == 8 && Pow2(4) == 16 && Pow2(5) == 32 && Pow2(6) == 64;
    var q := MAX_TOT_ELEMS as real / (n - 1) as real;
    assert q >= 512.0 by { DivideBound(MAX_TOT_ELEMS as real, (n - 1) as real, 512.0); }
  }

  lemma DivideBound(x: real, y: real, q: real)
    requires y > 0.0 && q * y <= x
    ensures x / y >= q
  {
  }

  lemma DivideShrinks(x: real, y: real)
    requires y >= 1.0 && x >= 0.0
    ensures x / y <= x
  {
  }

  lemma LateUnaffordable(n: nat)
    requires 2 <= n
    ensures !Affordable(37, n)
  {
    Powers();
    DivideShrinks(MAX_TOT_ELEMS as real, (n - 1) as real);
  }

  lemma BufferSize(b: nat)
    requires 9 <= b <= 37
    ensures Pow2(b - 1) > 0
    ensures MAX_TOT_ELEMS / Pow2(b - 1) == Pow2(41 - b) && Pow2(41 - b) >= 16
    ensures Pow2(41 - b) * Pow2(b - 1) == MAX_TOT_ELEMS
  {
    Powers();
    Pow2Adds(41 - b, b - 1);
    ExactQuotient(Pow2(41 - b), Pow2(b - 1));
    Pow2Monotone(4, 41 - b);
  }

  // ------------------------------------------------------------------- the size of the error

  /** The top level is full and so is no leaf empty, so the tree is no taller than its content warrants. */
  lemma TreeHeight(k: nat, tree: Tree, tot: nat)
    requires Structured(k, tree, tot) && Height(tree) > 0
    ensures k * Pow2(Height(tree)) < tot
  {
    var top := |tree| - 1;
    LeafSplit(tree);
    WorthIsProduct(top, k);
    Swap(k, Weight(top));
  }

  lemma HeightBelow(k: nat, tree: Tree, tot: nat, levels: nat)
    requires Structured(k, tree, tot) && tot <= k * Pow2(levels + 1)
    ensures Height(tree) <= levels
  {
    if Height(tree) > levels {
      TreeHeight(k, tree, tot);
      if Height(tree) > levels + 1 {
        Pow2Monotone(levels + 1, Height(tree));
        Scale(k, Pow2(levels + 1), Pow2(Height(tree)));
      }
    }
  }

  lemma Swap(a: nat, b: nat)
    ensures a * b == b * a
  {
  }

  /** What the parameters of a table with `n` quantiles are. */
  ghost predicate Sized(k: nat, b: nat, n: nat) {
    && 2 <= n && 9 <= b <= 37 && k >= 16 && k * Pow2(b - 1) == MAX_TOT_ELEMS
    && Affordable(b - 1, n) && !Affordable(b, n)
  }

  /**
   * The header promises ranks within `epsilon * tot`, where `epsilon = 1 / (n - 1)`. The code stays
   * within three times that, up to the number of elements it is built for.
   */
  lemma ThreeEpsilon(k: nat, b: nat, n: nat, tree: Tree, tot: nat, inputs: seq<Bytes>, log: seq<nat>)
    requires Sized(k, b, n) && Structured(k, tree, tot) && Summarises(k, tree, inputs, log)
    requires tot <= MAX_TOT_ELEMS
    ensures Cost(log) * (n - 1) <= 3 * tot
  {
    ErrorBound(k, tree, inputs, log);
    HeightBelow(k, tree, tot, b - 2);
    AffordableBound(k, b, n);
    ThreeTimes(2 * k, b, n - 1, Height(tree));
    LevelsCost(2 * k, n - 1, Height(tree), tot, Cost(log), 3);
  }

  /** As promised, that is within `tot / (n - 1)`, while the tree is low enough. */
  lemma OneEpsilon(k: nat, n: nat, tree: Tree, tot: nat, inputs: seq<Bytes>, log: seq<nat>)
    requires k > 0 && n >= 2 && Structured(k, tree, tot) && Summarises(k, tree, inputs, log)
    requires Height(tree) * (n - 1) <= 2 * k
    ensures Cost(log) * (n - 1) <= tot
  {
    ErrorBound(k, tree, inputs, log);
    LevelsCost(2 * k, n - 1, Height(tree), tot, Cost(log), 1);
  }

  /** If a level costs `tot / p` and `h` levels are allowed `f * p`, all cost at most `f * tot`. */
  lemma LevelsCost(p: nat, d: nat, h: nat, tot: nat, e: nat, f: nat)
    requires p > 0 && p * e <= h * tot && h * d <= f * p
    ensures e * d <= f * tot
  {
    MulMonotone(p * e, h * tot, d);
    MulMonotone(h * d, f * p, tot);
    Reassociate(p, e, d);
    Reassociate(h, tot, d);
    Reassociate(h, d, tot);
    Swap(f, p);
    Reassociate(p, f, tot);
    CancelLeft(p, e * d, f * tot);
  }

  lemma LevelsTimes(h: nat, p: nat, d: nat)
    requires d > 0 && h <= p / d
    ensures h * d <= p
  {
    MulMonotone(h, p / d, d);
    Swap(p / d, d);
  }

  /** Up to this total the tree stays low enough for `n` quantiles. */
  function Safe(k: nat, n: nat): (tot: nat)
    requires n >= 2
  {
    k * Pow2(2 * k / (n - 1) + 1)
  }

  /** So up to a total that the caller can compute. */
  lemma OneEpsilonUpTo(k: nat, n: nat, tree: Tree, tot: nat, inputs: seq<Bytes>, log: seq<nat>)
    requires k > 0 && n >= 2 && Structured(k, tree, tot) && Summarises(k, tree, inputs, log)
    requires tot <= Safe(k, n)
    ensures Cost(log) * (n - 1) <= tot
  {
    HeightBelow(k, tree, tot, 2 * k / (n - 1));
    LevelsTimes(Height(tree), 2 * k, n - 1);
    OneEpsilon(k, n, tree, tot, inputs, log);
  }

  /** While nothing but leaves is needed there is no error at all. */
  lemma SmallExact(k: nat, tree: Tree, tot: nat, inputs: seq<Bytes>, log: seq<nat>)
    requires Structured(k, tree, tot) && Summarises(k, tree, inputs, log) && tot <= 2 * k
    ensures Cost(log) == 0
  {
    assert Pow2(1) == 2;
    HeightBelow(k, tree, tot, 0);
    ErrorBound(k, tree, inputs, log);
    Scale(2 * k, 0, Cost(log));
  }

  lemma Scale(k: nat, a: nat, b: nat)
    requires k > 0
    ensures a < b ==> k * a < k * b
  {
  }

  /** Inequality (1) at `b - 1`, multiplied out: `(n - 1) * (b - 3) <= 4 * k`. */
  lemma AffordableBound(k: nat, b: nat, n: nat)
    requires 2 <= n && 9 <= b && k * Pow2(b - 1) == MAX_TOT_ELEMS && Affordable(b - 1, n)
    ensures (n - 1) * (b - 3) <= 4 * k
  {
    assert Pow2(b - 1) == 2 * Pow2(b - 2) && Pow2(b - 2) == 2 * Pow2(b - 3) && Pow2(b - 3) > 0;
    AffordableWhole(b - 1, n);
    DivideOut(k, n - 1, b - 3, Pow2(b - 3));
  }

  lemma AffordableWhole(b: nat, n: nat)
    requires b >= 2 && n >= 2 && Affordable(b, n)
    ensures (n - 1) * ((b - 2) * Pow2(b - 2)) <= MAX_TOT_ELEMS
  {
    Unfraction((b - 2) * Pow2(b - 2), n - 1, MAX_TOT_ELEMS);
  }

  lemma DivideOut(k: nat, d: nat, c: nat, p: nat)
    requires p > 0 && d * (c * p) <= k * (4 * p)
    ensures d * c <= 4 * k
  {
    FourTimes(k, p);
    Reassociate(d, c, p);
    CancelFactor(d * c, 4 * k, p);
  }

  lemma FourTimes(k: nat, p: nat)
    ensures k * (4 * p) == 4 * k * p
  {
  }

  lemma Unfraction(m: nat, d: nat, x: nat)
    requires d > 0 && m as real + 0.5 <= x as real / d as real
    ensures d * m <= x
  {
    var q := x as real / d as real;
    assert q * d as real == x as real;
    assert m as real * d as real <= q * d as real;
    assert (m * d) as real == m as real * d as real;
  }

  lemma ThreeTimes(p: nat, b: nat, d: nat, levels: nat)
    requires b >= 9 && levels <= b - 2 && d * (b - 3) <= 2 * p
    ensures levels * d <= 3 * p
  {
    MulMonotone(2 * levels, 3 * (b - 3), d);
    Reassociate(2, levels, d);
    Reassociate(3, b - 3, d);
  }

  lemma Reassociate(a: nat, b: nat, c: nat)
    ensures a * b * c == a * (b * c) == a * (c * b)
  {
  }

  lemma CancelLeft(p: nat, a: nat, b: nat)
    requires p > 0 && p * a <= p * b
    ensures a <= b
  {
    if a > b { Scale(p, b, a); }
  }

  // ------------------------------------------------------------------------------- runs

  /** A history of a table entry: start, add an element, or merge in what another entry flushed. */
  datatype Run = Start | Add(run: Run, elem: Bytes) | Join(into: Run, from: Run)

  function Inputs(run: Run): (s: seq<Bytes>) {
    match run
    case Start => []
    case Add(r, e) => Inputs(r) + [e]
    case Join(a, b) => Inputs(a) + Inputs(b)
  }

  /** The tree that a run leaves. */
  function TreeAfter(k: nat, run: Run): (t: Tree) {
    match run
    case Start => []
    case Add(r, e) => Grow(k, TreeAfter(k, r), e)
    case Join(a, b) => MergeUpto(k, TreeAfter(k, a), TreeAfter(k, b), |TreeAfter(k, b)|)
  }

  ghost predicate Leaves(k: nat, run: Run, t: Tree) {
    forall u {:trigger Key(StreamFacts, u)} :: Key(StreamFacts, u) ==> t == TreeAfter(k, run)
  }

  lemma LeavesAdded(k: nat, run: Run, e: Bytes, t: Tree, after: Tree)
    requires Leaves(k, run, t) && Grown(k, t, e, after)
    ensures Leaves(k, Add(run, e), after)
  {
    assert Key(BufferFacts, 0) && Key(StreamFacts, 0);
  }

  lemma LeavesJoined(k: nat, a: Run, b: Run, t: Tree, t1: Tree, after: Tree)
    requires Leaves(k, a, t) && Leaves(k, b, t1) && Merged(k, t, t1, |t1|, after)
    ensures Leaves(k, Join(a, b), after)
  {
    assert Key(StreamFacts, 0);
  }

  lemma LeavesIs(k: nat, run: Run, t: Tree)
    requires Leaves(k, run, t)
    ensures t == TreeAfter(k, run)
  {
    assert Key(StreamFacts, 0);
  }

  method Replay(run: Run, numQuantiles: int, k: nat) returns (entry: QuantileEntry)
    requires k > 0
    ensures fresh(entry) && entry.Valid() && entry.inputs == Inputs(run)
    ensures entry.k == k && entry.numQuantiles == numQuantiles
    ensures Leaves(k, run, entry.buffer)
    decreases run, 0
  {
    match run
    case Start =>
      entry := new QuantileEntry(numQuantiles, k);
    case Add(r, e) =>
      entry := Replay(r, numQuantiles, k);
      ghost var before := entry.buffer;
      entry.AddElem(e);
      LeavesAdded(k, r, e, before, entry.buffer);
    case Join(a, b) =>
      entry := Replay(a, numQuantiles, k);
      ghost var before := entry.buffer;
      var flushed, log1 := FlushRun(b, numQuantiles, k);
      var status, merged := entry.Merge(flushed, flushed.buffers, Inputs(b), log1);
      assert status == MergeOk;
      LeavesJoined(k, a, b, before, flushed.buffers, entry.buffer);
  }

  /** What a run flushes. */
  method FlushRun(run: Run, numQuantiles: int, k: nat) returns (out: Flushed, ghost log: seq<nat>)
    requires k > 0
    ensures out.tot >= 0 && Represents(k, out.buffers, out.tot, out.min, out.max, Inputs(run), log) && Leaves(k, run, out.buffers)
    ensures out.numQuantiles == numQuantiles && out.epsilon == 0.0 && out.k == k && out.tail == Whole
    decreases run, 1
  {
    var entry := Replay(run, numQuantiles, k);
    log := entry.log;
    out := entry.Flush();
  }

  /** What is known of the error of a table with buffers of `k` elements, `levels` above the leaves, after `tot` elements. */
  ghost predicate Bounded(k: nat, n: nat, levels: nat, tot: nat, error: nat) {
    && n >= 2
    && 2 * k * error <= levels * tot
    && (levels > 0 ==> k * Pow2(levels) < tot)
    && (tot <= 2 * k ==> error == 0)
    && (tot <= Safe(k, n) ==> error * (n - 1) <= tot)
    && (tot <= MAX_TOT_ELEMS ==> error * (n - 1) <= 3 * tot)
  }

  /**
   * What a `quantile(param)` table displays for a key, after any run whatsoever. The error is the cost of
   * the collapses in `log`: none while there is room for all elements, at most what the header promises up
   * to a total that depends on the parameters, and three times that up to the total they are made for.
   */
  method Report(run: Run, param: int) returns (q: seq<Bytes>, ghost k: nat, ghost b: nat, ghost log: seq<nat>)
    requires param <= MAX_INT
    ensures Sized(k, b, if param < 2 then 2 else param)
    ensures Inputs(run) == [] ==> q == [[]]
    ensures Inputs(run) != [] ==> Quantiles(q, if param < 2 then 2 else param, Inputs(run), Cost(log))
    ensures Inputs(run) != [] ==> Displays(TreeAfter(k, run), |Inputs(run)|, if param < 2 then 2 else param, q)
    ensures Bounded(k, if param < 2 then 2 else param, Height(TreeAfter(k, run)), |Inputs(run)|, Cost(log))
  {
    var n := if param < 2 then 2 else param;
    var size;
    size, b := ComputeK(n);
    k := size;
    var entry := Replay(run, n, size);
    log := entry.log;
    ErrorIs(k, b, n, entry.buffer, entry.tot, entry.inputs, log);
    LeavesIs(k, run, entry.buffer);
    q := entry.FlushForDisplay();
  }

  lemma ErrorIs(k: nat, b: nat, n: nat, tree: Tree, tot: nat, inputs: seq<Bytes>, log: seq<nat>)
    requires Sized(k, b, n) && Structured(k, tree, tot) && Summarises(k, tree, inputs, log)
    ensures tot == |inputs| && Bounded(k, n, Height(tree), tot, Cost(log))
  {
    ErrorBound(k, tree, inputs, log);
    if Height(tree) > 0 { TreeHeight(k, tree, tot); }
    if tot <= 2 * k { SmallExact(k, tree, tot, inputs, log); }
    if tot <= Safe(k, n) { OneEpsilonUpTo(k, n, tree, tot, inputs, log); }
    if tot <= MAX_TOT_ELEMS { ThreeEpsilon(k, b, n, tree, tot, inputs, log); }
  }
}

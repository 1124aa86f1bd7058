/** Histories of table entries that take weighted elements and merge what other entries have flushed. */
module WeightedRuns {
  import opened ByteStrings

  /** A history of a table entry: start, add a weighted element, or merge in what another entry flushed. */
  datatype Run = Start | Add(run: Run, elem: Bytes, weight: int) | Join(into: Run, from: Run)

  function Stream(run: Run): (s: seq<(Bytes, int)>) {
    match run
    case Start => []
    case Add(r, e, w) => Stream(r) + [(e, w)]
    case Join(a, b) => Stream(a) + Stream(b)
  }

  /** How many emits an entry counts: all of them, but a table of size 0 flushes nothing and so loses what is merged in. */
  function Counted(run: Run, k: nat): (n: nat) {
    match run
    case Start => 0
    case Add(r, _, _) => Counted(r, k) + 1
    case Join(a, b) => Counted(a, k) + if k > 0 then Counted(b, k) else 0
  }

  /** Emits merged in somewhere. */
  function JoinedIn(run: Run): (n: nat) {
    match run
    case Start => 0
    case Add(r, _, _) => JoinedIn(r)
    case Join(a, b) => JoinedIn(a) + |Stream(b)|
  }

  /** The count is exact if and only if the table has room for something or nothing was merged in. */
  lemma {:induction false} CountedExactly(run: Run, k: nat)
    ensures Counted(run, k) == |Stream(run)| <==> k > 0 || JoinedIn(run) == 0
    ensures k == 0 ==> Counted(run, k) + JoinedIn(run) == |Stream(run)|
  {
    match run
    case Start =>
    case Add(r, _, _) => CountedExactly(r, k);
    case Join(a, b) => CountedExactly(a, k); CountedExactly(b, k);
  }
}

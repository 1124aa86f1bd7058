/**
 * What is reported of a flushed `unique` table: the number of distinct hashes while there is room for them, then
 * an estimate from the largest of those kept.
 */
module UniqueResults {
  import opened ByteStrings
  import opened WireFormat
  import opened WeightedRuns
  import opened UniqueTable
  import opened UniqueEstimate

  /** `h` is the `n`-th smallest of the hashes. */
  ghost predicate IsNth(all: set<nat>, n: nat, h: nat) {
    h in all && |set x | x in all && x <= h| == n
  }

  /** The largest of the `max` smallest is the `max`-th smallest. */
  lemma LargestIsNth(max: nat, all: set<nat>, kept: set<nat>, h: nat)
    requires Smallest(max, all, kept) && |all| >= max && h in kept && forall x :: x in kept ==> x <= h
    ensures IsNth(all, max, h)
  {
    assert (set x | x in all && x <= h) == kept;
  }

  /** The estimate for a flushed string, or -1 if it is refused. */
  method UnpackAndEstimate(val: Flushed, max: nat) returns (unique: int, tot: int)
    requires max < TWO32
    requires val.Flushed? ==> 0 <= val.extra && val.extra + |val.hashes| < TWO64 && forall x :: x in val.hashes ==> x < TWO64
    ensures val.Nothing? ==> unique == 0 && tot == 0
    ensures unique < 0 <==> val.Flushed? && (|val.hashes| > max || val.broken)
    ensures val.Flushed? && unique >= 0 ==> tot == val.extra + |val.hashes|
    ensures val.Flushed? && unique >= 0 && |val.hashes| < max ==> unique == |val.hashes|
    ensures val.Flushed? && unique >= 0 && |val.hashes| == max > 0 ==> max <= unique <= tot && IsEstimate(max, val.hashes[0], tot, unique)
  {
    unique, tot := 0, 0;
    if val.Flushed? {
      if |val.hashes| > max || val.broken {
        return -1, 0;
      }
      tot := |val.hashes| + val.extra;
      if val.hashes != [] {
        assert val.hashes[0] in val.hashes;
        HashWhole(val.hashes[0]);
        unique := Estimate(|val.hashes|, max, tot, BigEndian(val.hashes[0], 8));
      }
    }
  }

  lemma HashWhole(h: nat)
    requires h < TWO64
    ensures Whole(BigEndian(h, 8)) == if h == 0 then 1 else h
  {
    WireFormat.Powers();
    NumberBigEndian(h, 8, 0);
  }

  /** `max` over the fraction that `h` is of all hashes, but no more than `tot`. */
  ghost predicate IsEstimate(max: nat, h: nat, tot: nat, r: nat) {
    var h1 := if h == 0 then 1 else h;
    IsQuotient(max, h1, r) || (r == tot && AtMostQuotient(max, h1, r))
  }

  /**
   * After any run: the number of distinct hashes, if there are fewer than the table has room for; else the quotient
   * by the `max`-th smallest hash of everything added anywhere.
   */
  method Report(run: Run, max: nat, hash: Bytes -> nat) returns (unique: int, ghost h: nat)
    requires 0 < max < TWO32 && |Stream(run)| < TWO64 && forall e :: hash(e) < TWO64
    ensures var all := Hashes(hash, Stream(run));
      if |all| < max then unique == |all|
      else IsNth(all, max, h) && max <= unique <= |Stream(run)| && IsEstimate(max, h, |Stream(run)|, unique)
  {
    var out := FlushRun(run, max, hash);
    var tot;
    CountedExactly(run, max);
    ghost var kept := Kept(max, out, Hashes(hash, Stream(run)));
    InWidth(max, hash, Stream(run), out, kept);
    unique, tot := UnpackAndEstimate(out, max);
    h := if HashesOf(out) == [] then 0 else HashesOf(out)[0];
    if |Hashes(hash, Stream(run))| >= max { LargestIsNth(max, Hashes(hash, Stream(run)), kept, h); }
  }

  /** The hashes kept are 64 bits wide, and there are no more of them than emits. */
  lemma InWidth(max: nat, hash: Bytes -> nat, s: seq<(Bytes, int)>, val: Flushed, kept: set<nat>)
    requires (forall e :: hash(e) < TWO64) && Smallest(max, Hashes(hash, s), kept) && |HashesOf(val)| == |kept|
    requires forall x :: x in HashesOf(val) <==> x in kept
    ensures |HashesOf(val)| <= |s| && forall x :: x in HashesOf(val) ==> x < TWO64
  {
    FewHashes(hash, s);
  }

  lemma {:induction false} FewHashes(hash: Bytes -> nat, s: seq<(Bytes, int)>)
    ensures |Hashes(hash, s)| <= |s|
  {
    if s == [] {
      assert Hashes(hash, s) == {};
    } else {
      var init, last := s[..|s| - 1], s[|s| - 1];
      FewHashes(hash, init);
      OneHash(hash, init, last.0, last.1);
      assert s == init + [(last.0, last.1)];
    }
  }

  lemma Kept(max: nat, val: Flushed, all: set<nat>) returns (kept: set<nat>)
    requires Describes(max, val, all) && Decreasing(HashesOf(val))
    ensures Smallest(max, all, kept) && |HashesOf(val)| == |kept| && forall x :: x in HashesOf(val) <==> x in kept
    ensures HashesOf(val) != [] ==> forall x :: x in kept ==> x <= HashesOf(val)[0]
  {
    kept :| Smallest(max, all, kept) && multiset(HashesOf(val)) == multiset(kept);
    HoldsAll(HashesOf(val), kept);
  }
}

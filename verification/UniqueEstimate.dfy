/** The estimate of a distinct count from the largest of the smallest hashes, in 64-bit fixed-point arithmetic. */
module UniqueEstimate {
  import opened Arithmetic
  import opened ByteStrings
  import opened WireFormat

  const TWO31 := 0x8000_0000
  const TWO32 := 0x1_0000_0000
  const TWO24 := 0x100_0000

  // ------------------------------------------------------------------------------------ shifts

  function Shl(n: nat, k: nat): (r: nat) {
    if k == 0 then n else 2 * Shl(n, k - 1)
  }

  function Shr(n: nat, k: nat): (r: nat) {
    if k == 0 then n else Shr(n, k - 1) / 2
  }

  lemma {:induction false} ShlGrows(n: nat, m: nat, k: nat)
    requires n <= m
    ensures n <= Shl(n, k) <= Shl(m, k) && (n < m ==> Shl(n, k) < Shl(m, k))
  {
    if k > 0 { ShlGrows(n, m, k - 1); }
  }

  lemma {:induction false} ShlAdds(n: nat, a: nat, b: nat)
    ensures Shl(Shl(n, a), b) == Shl(n, a + b)
  {
    if b > 0 { ShlAdds(n, a, b - 1); }
  }

  lemma {:induction false} ShrShrinks(n: nat, m: nat, k: nat)
    requires n <= m
    ensures Shr(n, k) <= Shr(m, k) && Shr(n, k) <= n
  {
    if k > 0 { ShrShrinks(n, m, k - 1); }
  }

  /** Shifting back and forth loses only low bits. */
  lemma {:induction false} ShlShr(n: nat, k: nat)
    ensures Shl(Shr(n, k), k) <= n < Shl(Shr(n, k) + 1, k)
  {
    if k > 0 {
      ShlShr(n, k - 1);
      var q := Shr(n, k - 1);
      ShlTwice(Shr(n, k), k);
      ShlTwice(Shr(n, k) + 1, k);
      ShlGrows(2 * Shr(n, k), q, k - 1);
      ShlGrows(q + 1, 2 * (Shr(n, k) + 1), k - 1);
    }
  }

  lemma {:induction false} ShlTwice(n: nat, k: nat)
    requires k > 0
    ensures Shl(n, k) == Shl(2 * n, k - 1)
  {
    if k > 1 { ShlTwice(n, k - 1); }
  }

  lemma {:induction false} ShrShl(n: nat, k: nat)
    ensures Shr(Shl(n, k), k) == n
    decreases k
  {
    if k > 0 {
      ShlTwice(n, k);
      ShrShl(2 * n, k - 1);
    }
  }

  /** A larger shift to the left and a smaller one back. */
  lemma ShlThenShr(n: nat, a: nat, b: nat)
    requires b <= a
    ensures Shr(Shl(n, a), b) == Shl(n, a - b)
  {
    ShlAdds(n, a - b, b);
    ShrShl(Shl(n, a - b), b);
  }

  lemma Powers()
    ensures Shl(2, 31) == TWO32
  {
    assert Shl(2, 4) == 32;
    ShlAdds(2, 4, 4);
    assert Shl(32, 4) == 512;
    ShlAdds(2, 8, 4);
    assert Shl(512, 4) == 8192;
    ShlAdds(2, 12, 4);
    assert Shl(8192, 4) == 131072;
    ShlAdds(2, 16, 4);
    assert Shl(131072, 4) == 2097152;
    ShlAdds(2, 20, 4);
    assert Shl(2097152, 4) == 33554432;
    ShlAdds(2, 24, 4);
    assert Shl(33554432, 4) == 536870912;
    ShlAdds(2, 28, 3);
    assert Shl(536870912, 3) == TWO32;
  }

  // --------------------------------------------------------------------------------- the estimate

  /** The position of the highest bit; the loop ends because there is one. */
  method HighestBit(n: nat) returns (msb: nat)
    requires 0 < n < TWO32
    ensures msb <= 31 && Shr(n, msb) == 1
  {
    msb := 31;
    NoMore(n);
    while Shr(n, msb) % 2 == 0
      invariant 0 <= msb <= 31 && Shr(n, msb) <= 1
      decreases msb
    {
      SomeBitLeft(n, msb);
      msb := msb - 1;
    }
  }

  lemma SomeBitLeft(n: nat, msb: nat)
    requires n > 0 && Shr(n, msb) == 0
    ensures msb > 0
  {
  }

  lemma NoMore(n: nat)
    requires n < TWO32
    ensures Shr(n, 31) <= 1
  {
    Powers();
    ShlShr(n, 31);
    if Shr(n, 31) >= 2 { ShlGrows(2, Shr(n, 31), 31); }
  }

  /** With its highest bit moved to bit 31 a number fills 32 bits and no more. */
  lemma Normalised(n: nat, msb: nat)
    requires msb <= 31 && Shr(n, msb) == 1
    ensures n <= Shl(n, 31 - msb) < TWO32
  {
    ShlShr(n, msb);
    ShlGrows(n, Shl(2, msb), 31 - msb);
    ShlAdds(2, msb, 31 - msb);
    Powers();
  }

  lemma QuotientBounds(n: nat, b: nat)
    requires n < TWO32 && 0 < b < TWO32
    ensures n <= n * TWO32 / b < TWO64
  {
    var q := n * TWO32 / b;
    assert q * b <= n * TWO32 < (q + 1) * b;
    if q < n { MulMonotone(q + 1, n, b); MulMonotone(b, TWO32, n); }
    if q >= TWO64 { MulMonotone(TWO64, q, b); }
  }

  function Word(hash: Bytes, z: nat): (w: nat)
    requires z + 4 <= |hash|
    ensures w < TWO32
  {
    var a: int, b: int, c: int, d: int := hash[z], hash[z + 1], hash[z + 2], hash[z + 3];
    a * 0x100_0000 + b * 0x1_0000 + c * 0x100 + d
  }

  /** Leading zero bytes of the hash, at most four of them, and the word after those, or 1 if it is 0. */
  ghost predicate IsLeading(hash: Bytes, z: nat, big: nat) {
    && |hash| == 8 && z <= 4 && big == (if Word(hash, z) == 0 then 1 else Word(hash, z))
    && (forall i :: 0 <= i < z ==> hash[i] == 0) && (z < 4 ==> hash[z] != 0)
  }

  method Leading(hash: Bytes) returns (z: nat, big: nat)
    requires |hash| == 8
    ensures IsLeading(hash, z, big) && 0 < big < TWO32
  {
    z := 0;
    while z + 4 < 8 && hash[z] == 0
      invariant z <= 4 && forall i :: 0 <= i < z ==> hash[i] == 0
    {
      z := z + 1;
    }
    big := Word(hash, z);
    if big == 0 {
      big := 1;
    }
  }

  /** The hash as one number of 64 bits, or 1 if it is 0. */
  function Whole(hash: Bytes): (h: nat)
    ensures h > 0
  {
    if Number(hash) == 0 then 1 else Number(hash)
  }

  /** The word is what the hash begins with: it and the next number enclose the hash. */
  lemma WordLeads(hash: Bytes, z: nat)
    requires |hash| == 8 && z <= 4 && forall i :: 0 <= i < z ==> hash[i] == 0
    ensures Word(hash, z) * Pow256(4 - z) <= Number(hash) < (Word(hash, z) + 1) * Pow256(4 - z)
  {
    var zeros, word, low := hash[..z], hash[z..z + 4], hash[z + 4..];
    ThreeParts(hash, z);
    NumberZeros(zeros);
    WordNumber(hash, z);
    NumberParts(zeros, word, low);
    NumberBound(low);
    Enclosed(Word(hash, z), Pow256(4 - z), Number(low));
  }

  lemma ThreeParts(s: Bytes, z: nat)
    requires z + 4 <= |s|
    ensures s[..z] + (s[z..z + 4] + s[z + 4..]) == s
  {
  }

  lemma NumberParts(zeros: Bytes, word: Bytes, low: Bytes)
    requires Number(zeros) == 0
    ensures Number(zeros + (word + low)) == Number(word) * Pow256(|low|) + Number(low)
  {
    NumberConcat(zeros, word + low);
    NumberConcat(word, low);
  }

  lemma Enclosed(w: nat, p: nat, low: nat)
    requires low < p
    ensures w * p <= w * p + low < (w + 1) * p
  {
  }

  lemma {:induction false} NumberZeros(s: Bytes)
    requires forall i :: 0 <= i < |s| ==> s[i] == 0
    ensures Number(s) == 0
  {
    if s != [] { NumberZeros(s[..|s| - 1]); }
  }

  lemma WordNumber(hash: Bytes, z: nat)
    requires z + 4 <= |hash|
    ensures Number(hash[z..z + 4]) == Word(hash, z)
  {
    var s := hash[z..z + 4];
    assert s[..3][..2] == s[..2] && s[..2][..1] == s[..1] && s[..1][..0] == [];
    assert Number(s[..1]) == s[0] as int;
    assert Number(s[..2]) == 256 * Number(s[..1]) + s[1];
    assert Number(s[..3]) == 256 * Number(s[..2]) + s[2];
  }

  /** The number kept over the fraction that the hash is of all hashes, by the bits of the hash that are used. */
  function Ideal(nelems: nat, z: nat): (n: nat) {
    Shl(nelems, 32 + 8 * z)
  }

  /** `r` is that quotient, rounded down at bit 0 or, if it is larger than 31 bits, after 31 bits. */
  ghost predicate Accurate(nelems: nat, z: nat, big: nat, r: nat) {
    r * big <= Ideal(nelems, z) < (r + 1 + r / TWO31) * big
  }

  /** The estimate is the total because the quotient is no smaller. */
  ghost predicate Capped(nelems: nat, z: nat, big: nat, tot: nat) {
    tot * big <= Ideal(nelems, z)
  }

  /**
   * `r` is the number kept over the fraction that the hash `h` is of all hashes: too high by no more than one part in
   * 2^24, for bytes of the hash are left out, and too low by no more than one in 2^31 and less than 1.
   */
  ghost predicate IsQuotient(nelems: nat, h: nat, r: nat) {
    AtMostQuotient(nelems, h, r) && nelems * TWO64 < (r + 1 + r / TWO31) * h
  }

  ghost predicate AtMostQuotient(nelems: nat, h: nat, r: nat) {
    r * (h - h / TWO24) <= nelems * TWO64
  }

  /** What of the hash is used, and the whole of it. */
  lemma LeadsWhole(hash: Bytes, z: nat, big: nat)
    requires IsLeading(hash, z, big)
    ensures var h := Whole(hash); big * Pow256(4 - z) <= h && h - h / TWO24 <= big * Pow256(4 - z)
  {
    var p, h := Pow256(4 - z), Whole(hash);
    WordLeads(hash, z);
    if z < 4 {
      WordLarge(hash, z);
      Leads(big, p, Number(hash));
    } else {
      assert p == 1;
    }
  }

  lemma WordLarge(hash: Bytes, z: nat)
    requires z + 4 <= |hash| && hash[z] != 0
    ensures Word(hash, z) >= TWO24
  {
  }

  lemma Leads(big: nat, p: nat, h: nat)
    requires big >= TWO24 && p > 0 && big * p <= h < (big + 1) * p
    ensures h > 0 && h - h / TWO24 <= big * p
  {
    MulMonotone(TWO24, big, p);
    Part(p, h);
    assert (big + 1) * p == big * p + p;
  }

  lemma Part(p: nat, h: nat)
    requires TWO24 * p <= h
    ensures p <= h / TWO24
  {
  }

  lemma IdealWhole(nelems: nat, z: nat)
    requires z <= 4
    ensures Ideal(nelems, z) * Pow256(4 - z) == nelems * TWO64
  {
    ShlIsProduct(nelems, 32 + 8 * z);
    ShlBytes(4 + z);
    WireFormat.Powers();
    Regroup(nelems, Pow256(4 + z), Pow256(4 - z));
    AllBytes(z);
    Grouped(nelems, Pow256(4 + z), Pow256(4 - z));
  }

  lemma AllBytes(z: nat)
    requires z <= 4
    ensures Pow256(4 + z) * Pow256(4 - z) == TWO64
  {
    WireFormat.Powers();
  }

  lemma Grouped(a: nat, b: nat, c: nat)
    ensures a * b * c == a * (b * c)
  {
  }

  lemma {:induction false} ShlBytes(n: nat)
    ensures Shl(1, 8 * n) == Pow256(n)
  {
    if n > 0 {
      ShlBytes(n - 1);
      ShlAdds(1, 8 * (n - 1), 8);
      ShlIsProduct(Pow256(n - 1), 8);
      assert Shl(1, 4) == 16;
      ShlAdds(1, 4, 4);
      assert Shl(16, 4) == 256;
    }
  }

  /** In terms of the whole hash. */
  lemma AccurateWhole(nelems: nat, hash: Bytes, z: nat, big: nat, r: nat)
    requires IsLeading(hash, z, big)
    ensures Accurate(nelems, z, big, r) ==> IsQuotient(nelems, Whole(hash), r)
    ensures Capped(nelems, z, big, r) ==> AtMostQuotient(nelems, Whole(hash), r)
  {
    var p, h := Pow256(4 - z), Whole(hash);
    LeadsWhole(hash, z, big);
    IdealWhole(nelems, z);
    if r * big <= Ideal(nelems, z) { Below(r, big, p, h - h / TWO24, Ideal(nelems, z)); }
    if Accurate(nelems, z, big, r) { Under(r + 1 + r / TWO31, big, p, h, Ideal(nelems, z)); }
  }

  lemma Below(r: nat, big: nat, p: nat, x: nat, t: nat)
    requires x <= big * p && r * big <= t
    ensures r * x <= t * p
  {
    MulMonotone(x, big * p, r);
    Grouped(r, big, p);
    MulMonotone(r * big, t, p);
  }

  lemma Under(r: nat, big: nat, p: nat, h: nat, t: nat)
    requires big * p <= h && t < r * big && p > 0
    ensures t * p < r * h
  {
    MulMonotone(t + 1, r * big, p);
    Grouped(r, big, p);
    MulMonotone(big * p, h, r);
  }

  /**
   * No step overflows 64 bits. The estimate is never below the number of hashes kept nor above the number
   * of elements added, and between those it is the quotient to 31 bits of what is read of the hash.
   */
  method Estimate(nelems: nat, maxElems: nat, totElems: nat, hash: Bytes) returns (r: nat)
    requires 0 < nelems < TWO32 && nelems <= totElems < TWO64 && |hash| == 8
    ensures nelems <= r <= totElems
    ensures nelems < maxElems ==> r == nelems
    ensures nelems >= maxElems ==> exists z, big :: IsLeading(hash, z, big) && (Accurate(nelems, z, big, r) || (r == totElems && Capped(nelems, z, big, r)))
    ensures nelems >= maxElems ==> IsQuotient(nelems, Whole(hash), r) || (r == totElems && AtMostQuotient(nelems, Whole(hash), r))
  {
    if nelems < maxElems {
      return nelems;
    }
    ghost var z, big;
    r, z, big := Scale(nelems, totElems, hash);
    AccurateWhole(nelems, hash, z, big, r);
  }

  method Scale(nelems: nat, totElems: nat, hash: Bytes) returns (r: nat, ghost z0: nat, ghost big0: nat)
    requires 0 < nelems < TWO32 && nelems <= totElems < TWO64 && |hash| == 8
    ensures nelems <= r <= totElems && IsLeading(hash, z0, big0)
    ensures Accurate(nelems, z0, big0, r) || (r == totElems && Capped(nelems, z0, big0, r))
  {
    var z, big := Leading(hash);
    z0, big0 := z, big;
    var msb := HighestBit(nelems);
    var n := Shl(nelems, 31 - msb);
    Normalised(nelems, msb);
    r := n * TWO32 / big;
    QuotientBounds(n, big);
    var stripped: int, room: int := z * 8, 31 - msb;
    var renorm := stripped - room;
    if renorm < 0 {
      ScaledDown(nelems, msb, z, n, r, -renorm);
      DownAccurate(nelems, msb, z, n, big, r, -renorm);
      r := Shr(r, -renorm);
    } else {
      UpAccurate(nelems, msb, z, n, big, r, renorm);
      if r > Shr(totElems, renorm) {
        ScaledPast(totElems, r, renorm);
        MulMonotone(totElems, Shl(r, renorm), big);
        return totElems, z, big;
      }
      ScaledUp(totElems, r, renorm);
      r := Shl(r, renorm);
    }
    if r > totElems {
      MulMonotone(totElems, r, big);
      return totElems, z, big;
    }
  }

  lemma ScaledDown(nelems: nat, msb: nat, z: nat, n: nat, r: nat, k: nat)
    requires msb <= 31 && n == Shl(nelems, 31 - msb) && n <= r && k == 31 - msb - z * 8
    ensures nelems <= Shr(r, k)
  {
    ShrShrinks(n, r, k);
    ShlThenShr(nelems, 31 - msb, k);
    ShlGrows(nelems, nelems, 31 - msb - k);
  }

  /** The test before the shift keeps it within the total. */
  lemma ScaledUp(tot: nat, r: nat, k: nat)
    requires r <= Shr(tot, k)
    ensures r <= Shl(r, k) <= tot
  {
    ShlGrows(r, Shr(tot, k), k);
    ShlShr(tot, k);
  }

  lemma ScaledPast(tot: nat, r: nat, k: nat)
    requires r > Shr(tot, k)
    ensures Shl(r, k) > tot
  {
    ShlGrows(Shr(tot, k) + 1, r, k);
    ShlShr(tot, k);
  }

  // --------------------------------------------------------------------------------- accuracy

  lemma {:induction false} ShlIsProduct(n: nat, k: nat)
    ensures Shl(n, k) == n * Shl(1, k) && Shl(1, k) > 0
  {
    if k > 0 { ShlIsProduct(n, k - 1); }
  }

  lemma Two32(n: nat)
    ensures n * TWO32 == Shl(n, 32)
  {
    Powers();
    ShlTwice(1, 32);
    ShlIsProduct(n, 32);
  }

  lemma Quotient(x: nat, b: nat)
    requires b > 0
    ensures x / b * b <= x < (x / b + 1) * b
  {
  }

  lemma Regroup(a: nat, b: nat, c: nat)
    ensures a * b * c == a * c * b
  {
  }

  /** Dividing and then shifting down is dividing by more. */
  lemma DownAccurate(nelems: nat, msb: nat, z: nat, n: nat, big: nat, q: nat, k: nat)
    requires msb <= 31 && n == Shl(nelems, 31 - msb) && big > 0 && q == n * TWO32 / big && k == 31 - msb - z * 8
    ensures Accurate(nelems, z, big, Shr(q, k))
  {
    var r, p, t := Shr(q, k), Shl(1, k), Ideal(nelems, z);
    Two32(n);
    ShlAdds(nelems, 31 - msb, 32);
    ShlAdds(nelems, 32 + 8 * z, k);
    ShlIsProduct(t, k);
    assert n * TWO32 == t * p;
    Quotient(t * p, big);
    ShlShr(q, k);
    ShlIsProduct(r, k);
    ShlIsProduct(r + 1, k);
    Sandwiched(r, q, t, p, big);
    MulMonotone(r + 1, r + 1 + r / TWO31, big);
  }

  lemma Sandwiched(r: nat, q: nat, t: nat, p: nat, big: nat)
    requires p > 0 && r * p <= q < (r + 1) * p && q * big <= t * p < (q + 1) * big
    ensures r * big <= t < (r + 1) * big
  {
    MulMonotone(r * p, q, big);
    MulMonotone(q + 1, (r + 1) * p, big);
    Regroup(r, p, big);
    Regroup(r + 1, p, big);
    CancelFactor(t, (r + 1) * big, p);
    if r * big > t { MulMonotone(t + 1, r * big, p); }
  }

  /** Dividing and then shifting up loses what the shift makes of one. */
  lemma UpAccurate(nelems: nat, msb: nat, z: nat, n: nat, big: nat, q: nat, k: nat)
    requires msb <= 31 && n == Shl(nelems, 31 - msb) && Shr(nelems, msb) == 1 && big > 0 && n <= q == n * TWO32 / big && k == z * 8 - (31 - msb)
    ensures Accurate(nelems, z, big, Shl(q, k))
  {
    var p, t := Shl(1, k), Ideal(nelems, z);
    Two32(n);
    ShlAdds(nelems, 31 - msb, 32);
    ShlAdds(nelems, 63 - msb, k);
    ShlIsProduct(n * TWO32, k);
    assert t == n * TWO32 * p;
    Quotient(n * TWO32, big);
    ShlIsProduct(q, k);
    TopBit(nelems, msb);
    Scaled(q, n * TWO32, p, big);
  }

  lemma TopBit(n: nat, msb: nat)
    requires msb <= 31 && Shr(n, msb) == 1
    ensures Shl(n, 31 - msb) >= TWO31
  {
    ShlShr(n, msb);
    ShlGrows(Shl(1, msb), n, 31 - msb);
    ShlAdds(1, msb, 31 - msb);
    Powers();
    ShlTwice(1, 32);
  }

  lemma Scaled(q: nat, x: nat, p: nat, big: nat)
    requires p > 0 && q >= TWO31 && q * big <= x < (q + 1) * big
    ensures q * p * big <= x * p < (q * p + 1 + q * p / TWO31) * big
  {
    MulMonotone(q * big, x, p);
    Regroup(q, big, p);
    assert x * p < (q + 1) * big * p;
    Regroup(q + 1, big, p);
    assert (q + 1) * p == q * p + p;
    MulMonotone(TWO31, q, p);
    Divides(p, q * p);
    MulMonotone(q * p + p, q * p + 1 + q * p / TWO31, big);
  }

  lemma Divides(p: nat, x: nat)
    requires TWO31 * p <= x
    ensures p <= x / TWO31
  {
  }
}

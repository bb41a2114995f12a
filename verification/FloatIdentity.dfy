/** What the rounding means for FLOAT keys: it respects order and equality, fixes binary32
    numbers, and overflows exactly where `_valid_scalar` says it does. */
module FloatIdentities {
  import opened Float32

  /** Of two representable points, the one that is not nearer lies on the far side of the middle. */
  lemma FarSide(n: nat, d: nat, a: nat, b: nat)
    requires a < b && d >= 1
    ensures Distance(b * d, n) <= Distance(a * d, n) ==> 2 * n >= a * d + b * d
    ensures Distance(a * d, n) <= Distance(b * d, n) ==> 2 * n <= a * d + b * d
  {
    MulLt(a, b, d);
  }

  /** A point strictly between two points that are equally near is strictly nearer. */
  lemma BetweenIsNearer(n: nat, d: nat, a: nat, v: nat, b: nat)
    requires d >= 1 && a < v < b && 2 * n == a * d + b * d
    ensures Distance(v * d, n) < Distance(a * d, n) == Distance(b * d, n)
  {
    MulLt(a, v, d);
    MulLt(v, b, d);
  }

  /** No binary32 number lies between m * 2^k and (m + 1) * 2^k. */
  lemma NextOnGrid(m: nat, k: nat)
    requires Normalised(m, k)
    ensures m * Pow2(k) < (m + 1) * Pow2(k)
    ensures forall v: nat | Representable(v) && v > m * Pow2(k) :: v >= (m + 1) * Pow2(k)
  {
    hide Representable;
    MulLt(m, m + 1, Pow2(k));
    forall v: nat | Representable(v) && v > m * Pow2(k) ensures v >= (m + 1) * Pow2(k) {
      NothingBetween(v, m, k);
    }
  }

  /** The next binary32 number after one with an even significand. */
  lemma Successor(u: nat) returns (next: nat)
    requires Representable(u) && Significand(u) % 2 == 0
    ensures u < next && Representable(next) && Significand(next) % 2 == 1
    ensures forall v: nat | Representable(v) && v > u :: v >= next
  {
    RepresentableIsNormalised(u);
    next := SuccessorOnGrid(u, Significand(u), Exponent(u));
  }

  lemma SuccessorOnGrid(u: nat, m: nat, k: nat) returns (next: nat)
    requires Normalised(m, k) && m % 2 == 0 && u == m * Pow2(k)
    ensures u < next && Representable(next) && Significand(next) % 2 == 1
    ensures forall v: nat | Representable(v) && v > u :: v >= next
  {
    hide Representable, Significand, Exponent;
    assert Normalised(m + 1, k);
    next := (m + 1) * Pow2(k);
    NextOnGrid(m, k);
    NormalisedIsCanonical(m + 1, k);
  }

  /** In a tie the two candidates are neighbours, so only one of them has an even significand. */
  lemma OneEvenCandidate(n: nat, d: nat, a: nat, b: nat)
    requires d >= 1 && a < b && 2 * n == a * d + b * d
    requires Representable(a) && Representable(b) && Significand(a) % 2 == 0 && Significand(b) % 2 == 0
    ensures exists v: nat :: Representable(v) && Distance(v * d, n) < Distance(a * d, n)
  {
    hide Representable, Significand;
    var v := Successor(a);
    BetweenIsNearer(n, d, a, v, b);
  }

  /** Rounding is monotone on the numbers themselves, however their ratios are written. */
  lemma RoundingIsMonotone(n: nat, d: nat, r: nat, n': nat, d': nat, r': nat)
    requires d >= 1 && d' >= 1 && IsRounding(n, d, r) && IsRounding(n', d', r')
    requires n * d' <= n' * d
    ensures r <= r'
  {
    hide Representable, Significand;
    if r > r' {
      FarSide(n, d, r', r);
      FarSide(n', d', r', r);
      SumTimes(r', r, d);
      SumTimes(r', r, d');
      SameMiddle(n, d, n', d', r' + r);
      EqualDistances(n, d, r', r);
      EqualDistances(n', d', r', r);
      OneEvenCandidate(n, d, r', r);
      assert false;
    }
  }

  lemma SumTimes(a: nat, b: nat, d: nat)
    ensures (a + b) * d == a * d + b * d
  {
  }

  lemma EqualDistances(n: nat, d: nat, a: nat, b: nat)
    requires 2 * n == a * d + b * d
    ensures Distance(a * d, n) == Distance(b * d, n)
  {
  }

  lemma SameMiddle(n: nat, d: nat, n': nat, d': nat, s: nat)
    requires d >= 1 && d' >= 1 && n * d' <= n' * d
    requires 2 * n >= s * d && 2 * n' <= s * d'
    ensures 2 * n == s * d && 2 * n' == s * d'
  {
    MulLe(s * d, 2 * n, d');
    MulLe(2 * n', s * d', d);
    MulSwap(s, d, d');
    if 2 * n > s * d { MulLt(s * d, 2 * n, d'); }
    if 2 * n' < s * d' { MulLt(2 * n', s * d', d); }
    MulSwap(2, n, d');
    MulSwap(2, n', d);
  }

  /** Equal numbers have equal FLOAT identities. */
  lemma RoundingIsUnique(n: nat, d: nat, r: nat, n': nat, d': nat, r': nat)
    requires d >= 1 && d' >= 1 && IsRounding(n, d, r) && IsRounding(n', d', r')
    requires n * d' == n' * d
    ensures r == r'
  {
    RoundingIsMonotone(n, d, r, n', d', r');
    RoundingIsMonotone(n', d', r', n, d, r);
  }

  /** A binary32 number is its own rounding. */
  lemma RoundingFixesRepresentable(u: nat, d: nat, r: nat)
    requires d >= 1 && Representable(u) && IsRounding(u * d, d, r)
    ensures r == u
  {
    assert Distance(u * d, u * d) == 0;
    if r < u { MulLt(r, u, d); }
    if u < r { MulLt(u, r, d); }
  }

  // ---- Overflow -----------------------------------------------------------------

  /** FLOAT_MAX is (2^24 - 1) * 2^104, that is 2^253 units each. */
  function MaxUnits(): nat {
    (TOP - 1) * Pow2(253)
  }

  lemma MaxIsOdd(k: nat)
    ensures Representable((TOP - 1) * Pow2(k)) && Significand((TOP - 1) * Pow2(k)) == TOP - 1
    ensures Representable(TOP * Pow2(k)) && (TOP - 1) * Pow2(k) < TOP * Pow2(k)
    ensures forall v: nat | Representable(v) && v > (TOP - 1) * Pow2(k) :: v >= TOP * Pow2(k)
  {
    hide Representable, Significand;
    NormalisedIsCanonical(TOP - 1, k);
    TopIsCanonical(k);
    NextOnGrid(TOP - 1, k);
  }

  /** Below the middle of two neighbours the lower or a smaller one is nearest; from the middle on,
      when the lower one is odd, the upper or a greater one is. */
  lemma RoundsUpFromMiddle(n: nat, d: nat, r: nat, lo: nat, hi: nat)
    requires d >= 1 && IsRounding(n, d, r) && lo < hi
    requires Representable(lo) && Significand(lo) % 2 == 1 && Representable(hi)
    requires forall v: nat | Representable(v) && v > lo :: v >= hi
    ensures 2 * n < lo * d + hi * d <==> r <= lo
  {
    hide Representable, Significand;
    MulLt(lo, hi, d);
    if r <= lo {
      FarSide(n, d, r, hi);
      if r < lo { MulLt(r, lo, d); } else { EqualDistancesOnlyAtMiddle(n, d, lo, hi); }
    } else {
      FarSide(n, d, lo, r);
      MulLe(hi, r, d);
    }
  }

  lemma EqualDistancesOnlyAtMiddle(n: nat, d: nat, a: nat, b: nat)
    requires a < b && d >= 1
    ensures 2 * n == a * d + b * d <==> Distance(a * d, n) == Distance(b * d, n)
  {
    MulLt(a, b, d);
  }

  /** `_valid_scalar`: the magnitude n/d passes the FLOAT check, 2^128 - 2^103 being the middle
      above FLOAT_MAX. */
  predicate AcceptsFloat(n: nat, d: nat) {
    n < (Pow2(128) - Pow2(103)) * d
  }

  /** FLOAT acceptance is exact (sections 4.3.1 and 7.4): a magnitude passes the check if and only
      if `_float_identity` rounds it to at most FLOAT_MAX. */
  lemma FloatAcceptanceIsExact(n: nat, d: nat, r: nat)
    requires d >= 1 && IsRounding(ShiftLeft(n, 149), d, r)
    ensures AcceptsFloat(n, d) <==> r <= MaxUnits()
  {
    hide Pow2, ShiftLeft, IsRounding;
    AcceptanceAt(n, d, r, 128, 149, 253);
  }

  lemma AcceptanceAt(n: nat, d: nat, r: nat, a: nat, unit: nat, k: nat)
    requires a >= 25 && a + unit == k + 24
    requires d >= 1 && IsRounding(ShiftLeft(n, unit), d, r)
    ensures n < (Pow2(a) - Pow2(a - 25)) * d <==> r <= (TOP - 1) * Pow2(k)
  {
    hide IsRounding, Representable, Significand;
    MaxIsOdd(k);
    RoundsUpFromMiddle(ShiftLeft(n, unit), d, r, (TOP - 1) * Pow2(k), TOP * Pow2(k));
    ThresholdIsTheMiddle(n, d, a, unit, k);
  }

  /** In units, 2^a - 2^(a-25) is the middle of (2^24 - 1) * 2^k and 2^24 * 2^k. */
  lemma ThresholdInUnits(a: nat, unit: nat, k: nat)
    requires a >= 25 && a + unit == k + 24
    ensures Pow2(a) * Pow2(unit) == TOP * Pow2(k)
    ensures 2 * (Pow2(a - 25) * Pow2(unit)) == Pow2(k)
  {
    Pow2Add(a, unit);
    Pow2Add(a - 25, unit);
    PrecisionPowers(k);
  }

  lemma ThresholdIsTheMiddle(n: nat, d: nat, a: nat, unit: nat, k: nat)
    requires a >= 25 && a + unit == k + 24 && d >= 1
    ensures n < (Pow2(a) - Pow2(a - 25)) * d
            <==> 2 * ShiftLeft(n, unit) < (TOP - 1) * Pow2(k) * d + TOP * Pow2(k) * d
  {
    ThresholdInUnits(a, unit, k);
    CompareWithMiddle(n, d, Pow2(a), Pow2(a - 25), Pow2(unit), Pow2(k));
  }

  lemma CompareWithMiddle(n: nat, d: nat, x: nat, y: nat, u: nat, p: nat)
    requires u >= 1 && x * u == TOP * p && 2 * (y * u) == p
    ensures n < (x - y) * d <==> 2 * (n * u) < (TOP - 1) * p * d + TOP * p * d
  {
    var t: int := x - y;
    assert t * u == x * u - y * u;
    assert 2 * (t * u) == (2 * TOP - 1) * p;
    MulSwap(t, d, u);
    assert 2 * (t * d * u) == 2 * (t * u) * d by { MulSwap(t, u, d); }
    assert (2 * TOP - 1) * p * d == (TOP - 1) * p * d + TOP * p * d by { SumTimes((TOP - 1) * p, TOP * p, d); }
    if n < t * d { MulLt(n, t * d, u); } else { MulLe(t * d, n, u); }
  }
}

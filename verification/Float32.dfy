/** FLOAT values of property_graph.py: rounding a decimal to binary32 in integer arithmetic. All
    magnitudes are counted in units of 2^-149, the least positive binary32 number. */
module Float32 {

  function Pow2(n: nat): (p: nat)
    ensures p >= 1
  {
    if n == 0 then 1 else 2 * Pow2(n - 1)
  }

  lemma {:induction false} Pow2Add(a: nat, b: nat)
    ensures Pow2(a + b) == Pow2(a) * Pow2(b)
  {
    if a > 0 {
      Pow2Add(a - 1, b);
      assert Pow2(a + b) == 2 * Pow2(a - 1 + b);
    }
  }

  lemma {:induction false} Pow2Monotone(a: nat, b: nat)
    requires a < b
    ensures Pow2(a) < Pow2(b)
  {
    if a + 1 < b { Pow2Monotone(a, b - 1); }
  }

  /** Python's `m << k`. */
  function ShiftLeft(m: nat, k: nat): (r: nat)
    ensures r >= m
  {
    MulLe(1, Pow2(k), m);
    m * Pow2(k)
  }

  /** Python's `int.bit_length`. */
  function BitLength(n: nat): (b: nat)
    ensures n < Pow2(b)
    ensures n > 0 ==> b > 0 && Pow2(b - 1) <= n
  {
    if n == 0 then 0 else 1 + BitLength(n / 2)
  }

  lemma BitLengthIs(n: nat, b: nat)
    requires b > 0 && Pow2(b - 1) <= n < Pow2(b)
    ensures BitLength(n) == b
  {
    var c := BitLength(n);
    if c < b { if c < b - 1 { Pow2Monotone(c, b - 1); } }
    if b < c { if b < c - 1 { Pow2Monotone(b, c - 1); } }
  }

  // ---- Products, one step at a time ---------------------------------------

  lemma MulLe(a: int, b: int, p: nat)
    requires a <= b
    ensures a * p <= b * p
  {
  }

  lemma MulLt(a: int, b: int, p: nat)
    requires a < b && p >= 1
    ensures a * p < b * p
  {
  }

  lemma MulSwap(a: int, b: int, c: int)
    ensures a * b * c == a * c * b == a * (c * b) == a * (b * c)
  {
  }

  lemma QuotientIs(a: nat, b: nat, q: nat)
    requires b >= 1 && q * b <= a < (q + 1) * b
    ensures a / b == q
  {
    var c := a / b;
    assert c * b <= a < (c + 1) * b;
    if c < q { MulLe(c + 1, q, b); }
    if q < c { MulLe(q + 1, c, b); }
  }

  // ---- The binary32 numbers (section 3.4 of IEEE 754-2019), magnitudes only, no upper bound ----

  const HALF: nat := 0x80_0000
  const TOP: nat := 0x100_0000

  /** 24 bits of precision. */
  lemma PrecisionPowers(k: nat)
    ensures Pow2(23 + k) == HALF * Pow2(k) && Pow2(24 + k) == TOP * Pow2(k)
  {
    assert Pow2(8) == 256;
    Pow2Add(8, 8);
    Pow2Add(16, 8);
    assert Pow2(24) == 2 * Pow2(23);
    Pow2Add(23, k);
    Pow2Add(24, k);
  }

  /** m * 2^k is a normalised 24-bit significand with its exponent, or a subnormal. */
  predicate Normalised(m: nat, k: nat) {
    m < TOP && (k == 0 || m >= HALF)
  }

  function Exponent(u: nat): nat {
    if BitLength(u) <= 24 then 0 else BitLength(u) - 24
  }

  function Quotient(a: nat, b: nat): nat
    requires b >= 1
  {
    a / b
  }

  function Significand(u: nat): nat {
    Quotient(u, Pow2(Exponent(u)))
  }

  predicate Representable(u: nat) {
    u == Significand(u) * Pow2(Exponent(u))
  }

  lemma SmallIsCanonical(m: nat)
    requires m < TOP
    ensures Exponent(m) == 0 && Significand(m) == m && Representable(m)
  {
    PrecisionPowers(0);
    if BitLength(m) > 25 { Pow2Monotone(24, BitLength(m) - 1); }
  }

  /** The exponent of a number that fills 24 bits above 2^k. */
  lemma ExponentIs(u: nat, k: nat)
    requires k > 0 && Pow2(23 + k) <= u < Pow2(24 + k)
    ensures Exponent(u) == k
  {
    hide Pow2;
    BitLengthIs(u, 24 + k);
  }

  lemma ProductQuotient(m: nat, p: nat)
    requires p >= 1
    ensures Quotient(m * p, p) == m
  {
    MulLt(m, m + 1, p);
    QuotientIs(m * p, p, m);
  }

  lemma ProductBounds(m: nat, p: nat)
    requires HALF <= m < TOP && p >= 1
    ensures HALF * p <= m * p < TOP * p
  {
    MulLe(HALF, m, p);
    MulLt(m, TOP, p);
  }

  lemma NormalisedIsCanonical(m: nat, k: nat)
    requires Normalised(m, k)
    ensures Exponent(m * Pow2(k)) == k && Significand(m * Pow2(k)) == m && Representable(m * Pow2(k))
  {
    if k == 0 {
      assert Pow2(0) == 1;
      SmallIsCanonical(m);
    } else {
      hide Pow2, Quotient, Exponent;
      PrecisionPowers(k);
      ProductBounds(m, Pow2(k));
      ExponentIs(m * Pow2(k), k);
      ProductQuotient(m, Pow2(k));
    }
  }

  lemma RepresentableIsNormalised(u: nat)
    requires Representable(u)
    ensures Normalised(Significand(u), Exponent(u))
  {
    var m, k := Significand(u), Exponent(u);
    var b := BitLength(u);
    PrecisionPowers(k);
    if b <= 24 {
      PrecisionPowers(0);
      if b < 24 { Pow2Monotone(b, 24); }
    } else {
      if m >= TOP { MulLe(TOP, m, Pow2(k)); }
      if m < HALF { MulLt(m, HALF, Pow2(k)); }
    }
  }

  /** From 2^(23+k) on, binary32 numbers are multiples of 2^k. */
  lemma MultipleOfSpacing(v: nat, k: nat) returns (j: nat)
    requires Representable(v) && v >= Pow2(23 + k)
    ensures v == j * Pow2(k)
  {
    RepresentableIsNormalised(v);
    var m, e := Significand(v), Exponent(v);
    PrecisionPowers(e);
    MulLt(m, TOP, Pow2(e));
    if e < k {
      if e + 1 < k { Pow2Monotone(24 + e, 23 + k); }
      assert false;
    }
    Pow2Add(e - k, k);
    j := m * Pow2(e - k);
    MulSwap(m, Pow2(e - k), Pow2(k));
  }

  /** No binary32 number lies strictly between two neighbours on the grid of spacing 2^k. */
  lemma NothingBetween(v: nat, q: nat, k: nat)
    requires Representable(v) && (k == 0 || q >= HALF)
    ensures v <= q * Pow2(k) || v >= (q + 1) * Pow2(k)
  {
    if k > 0 && v > q * Pow2(k) {
      PrecisionPowers(k);
      MulLe(HALF, q, Pow2(k));
      var j := MultipleOfSpacing(v, k);
      if j <= q { MulLe(j, q, Pow2(k)); }
      MulLe(q + 1, j, Pow2(k));
    }
  }

  // ---- Round to nearest, ties to even (section 4.3.1) ---------------------

  function Distance(a: int, b: int): nat {
    if a <= b then b - a else a - b
  }

  /** r is the binary32 number nearest to n/d, and the one with the even significand in a tie. */
  ghost predicate IsRounding(n: nat, d: nat, r: nat) {
    && Representable(r)
    && (forall v: nat | Representable(v) :: Distance(r * d, n) <= Distance(v * d, n))
    && (forall v: nat | Representable(v) && v != r && Distance(v * d, n) == Distance(r * d, n) ::
          Significand(r) % 2 == 0)
  }

  /** The grid point nearest to n/d, where q is n/d rounded down on the grid of spacing w/d. */
  predicate NearestOnGrid(n: nat, w: nat, q: nat, m: nat) {
    && q * w <= n < (q + 1) * w
    && m == if 2 * (n - q * w) > w || (2 * (n - q * w) == w && q % 2 == 1) then q + 1 else q
  }

  lemma TopIsCanonical(k: nat)
    ensures Representable(TOP * Pow2(k)) && Significand(TOP * Pow2(k)) == HALF
  {
    DoubledHalf(Pow2(k));
    NormalisedIsCanonical(HALF, k + 1);
  }

  lemma DoubledHalf(p: nat)
    ensures HALF * (2 * p) == TOP * p
  {
  }

  lemma GridPointIsRepresentable(m: nat, k: nat)
    requires m <= TOP && (k == 0 || m >= HALF)
    ensures Representable(ShiftLeft(m, k)) && Significand(ShiftLeft(m, k)) == if m == TOP then HALF else m
  {
    if m == TOP { TopIsCanonical(k); } else { NormalisedIsCanonical(m, k); }
  }

  /** Of two neighbouring points lo and hi around n, the nearer one is as near as any point that
      is not between them; another point is as near only when n is half way. */
  lemma NearerNeighbour(n: nat, d: nat, lo: nat, hi: nat, r: nat, v: nat)
    requires d >= 1 && lo * d <= n < hi * d && (v <= lo || v >= hi)
    requires r == lo || r == hi
    requires 2 * n > lo * d + hi * d ==> r == hi
    requires 2 * n < lo * d + hi * d ==> r == lo
    ensures Distance(r * d, n) <= Distance(v * d, n)
    ensures v != r && Distance(v * d, n) == Distance(r * d, n) ==> 2 * n == lo * d + hi * d
  {
    if v < lo { MulLt(v, lo, d); }
    if v > hi { MulLt(hi, v, d); }
  }

  lemma GridNeighbours(n: nat, d: nat, k: nat, q: nat, m: nat)
    requires NearestOnGrid(n, ShiftLeft(d, k), q, m)
    ensures ShiftLeft(q, k) * d <= n < ShiftLeft(q + 1, k) * d
    ensures m == q || m == q + 1
    ensures 2 * n > ShiftLeft(q, k) * d + ShiftLeft(q + 1, k) * d ==> m == q + 1
    ensures 2 * n < ShiftLeft(q, k) * d + ShiftLeft(q + 1, k) * d ==> m == q
    ensures 2 * n == ShiftLeft(q, k) * d + ShiftLeft(q + 1, k) * d ==> m % 2 == 0
  {
    hide Pow2;
    var w := ShiftLeft(d, k);
    MulSwap(q, Pow2(k), d);
    MulSwap(q + 1, Pow2(k), d);
    assert (q + 1) * w == q * w + w;
  }

  /** Rounding the quotient on its own grid is rounding to binary32. */
  lemma GridRounding(n: nat, d: nat, k: nat, q: nat, m: nat)
    requires d >= 1 && q < TOP && (k == 0 || q >= HALF) && NearestOnGrid(n, ShiftLeft(d, k), q, m)
    ensures IsRounding(n, d, ShiftLeft(m, k))
  {
    hide ShiftLeft, IsRounding, NearestOnGrid, Representable, Significand;
    GridNeighbours(n, d, k, q, m);
    GridPointIsRepresentable(m, k);
    GridRoundingAround(n, d, k, q, ShiftLeft(q, k), ShiftLeft(q + 1, k), ShiftLeft(m, k));
  }

  lemma GridRoundingAround(n: nat, d: nat, k: nat, q: nat, lo: nat, hi: nat, r: nat)
    requires d >= 1 && (k == 0 || q >= HALF) && lo == ShiftLeft(q, k) && hi == ShiftLeft(q + 1, k)
    requires lo * d <= n < hi * d && Representable(r)
    requires r == lo || r == hi
    requires 2 * n > lo * d + hi * d ==> r == hi
    requires 2 * n < lo * d + hi * d ==> r == lo
    requires 2 * n == lo * d + hi * d ==> Significand(r) % 2 == 0
    ensures IsRounding(n, d, r)
  {
    hide Representable, Significand;
    forall v: nat | Representable(v)
      ensures Distance(r * d, n) <= Distance(v * d, n)
      ensures v != r && Distance(v * d, n) == Distance(r * d, n) ==> Significand(r) % 2 == 0
    {
      NothingBetween(v, q, k);
      NearerNeighbour(n, d, lo, hi, r, v);
    }
  }

  // ---- The rounding that `_float_identity` performs -----------------------

  function Pos(e: int): nat { if e > 0 then e else 0 }

  function Neg(e: int): nat { if e < 0 then -e else 0 }

  /** d * 2^e <= n, for an exponent of either sign. */
  predicate AtLeast(n: nat, d: nat, e: int) {
    ShiftLeft(d, Pos(e)) <= ShiftLeft(n, Neg(e))
  }

  lemma AtLeastAsComputed(n: nat, d: nat, e: int)
    ensures AtLeast(n, d, e) <==> !(if e >= 0 then n < ShiftLeft(d, e) else ShiftLeft(n, -e) < d)
  {
    assert Pow2(0) == 1;
  }

  lemma ScaleLe(x: nat, y: nat, p: nat)
    requires p >= 1
    ensures x <= y <==> x * p <= y * p
  {
    if x <= y { MulLe(x, y, p); } else { MulLt(y, x, p); }
  }

  /** The same comparison with any two powers of two whose exponents differ by e. */
  lemma AtLeastWith(n: nat, d: nat, e: int, a: nat, b: nat)
    requires a - b == e
    ensures AtLeast(n, d, e) <==> ShiftLeft(d, a) <= ShiftLeft(n, b)
  {
    hide Pow2;
    var t: nat := a - Pos(e);
    Pow2Add(Pos(e), t);
    Pow2Add(Neg(e), t);
    MulSwap(d, Pow2(Pos(e)), Pow2(t));
    MulSwap(n, Pow2(Neg(e)), Pow2(t));
    ScaleLe(d * Pow2(Pos(e)), n * Pow2(Neg(e)), Pow2(t));
  }

  lemma ShiftMonotone(d: nat, a: nat, b: nat)
    requires a <= b
    ensures ShiftLeft(d, a) <= ShiftLeft(d, b)
  {
    if a < b {
      Pow2Monotone(a, b);
      MulLe(Pow2(a), Pow2(b), d);
    }
  }

  lemma AtLeastMonotone(n: nat, d: nat, e: int, f: int)
    requires f <= e && AtLeast(n, d, e)
    ensures AtLeast(n, d, f)
  {
    hide Pow2, ShiftLeft, AtLeast;
    var b := Neg(e) + Neg(f);
    AtLeastWith(n, d, e, b + e, b);
    AtLeastWith(n, d, f, b + f, b);
    ShiftMonotone(d, b + f, b + e);
  }

  /** The bit lengths give the binary exponent up to one. */
  lemma BitLengthsBracket(n: nat, d: nat)
    requires n > 0 && d > 0
    ensures var e := BitLength(n) - BitLength(d); AtLeast(n, d, e - 1) && !AtLeast(n, d, e + 1)
  {
    hide Pow2, ShiftLeft, AtLeast, BitLength;
    var a, b := BitLength(n) - 1, BitLength(d) - 1;
    PowersBracket(d, b + 1, n, a);
    AtLeastWith(n, d, a - b - 1, a, b + 1);
    PowersBracket(n, a + 1, d, b);
    AtLeastWith(n, d, a - b + 1, a + 1, b);
  }

  lemma PowersBracket(x: nat, a: nat, y: nat, b: nat)
    requires x < Pow2(a) && Pow2(b) <= y
    ensures ShiftLeft(x, b) < ShiftLeft(y, a)
  {
    hide Pow2;
    MulLt(x, Pow2(a), Pow2(b));
    MulLe(Pow2(b), y, Pow2(a));
  }

  lemma QuotientBounds(n: nat, d: nat, shift: int)
    requires d > 0
    ensures var den := ShiftLeft(d, Pos(shift));
            var num := ShiftLeft(n, Neg(shift));
            && den > 0
            && (AtLeast(n, d, shift + 23) ==> num / den >= HALF)
            && (!AtLeast(n, d, shift + 24) ==> num / den < TOP)
  {
    var p, r := Pos(shift), Neg(shift);
    var den, num := ShiftLeft(d, p), ShiftLeft(n, r);
    MulLe(1, d, Pow2(p));
    AtLeastWith(n, d, shift + 23, p + 23, r);
    AtLeastWith(n, d, shift + 24, p + 24, r);
    PrecisionPowers(p);
    MulSwap(d, HALF, Pow2(p));
    MulSwap(d, TOP, Pow2(p));
    QuotientAtLeast(num, den, HALF);
    QuotientAtLeast(num, den, TOP);
  }

  lemma QuotientAtLeast(a: nat, b: nat, q: nat)
    requires b >= 1
    ensures a / b >= q <==> q * b <= a
  {
    var c := a / b;
    assert c * b <= a < (c + 1) * b;
    if c >= q { MulLe(q, c, b); } else { MulLe(c + 1, q, b); }
  }

  /** Where n lies on the grid of w, from its quotient and remainder. */
  lemma GridFromParts(n: nat, w: nat, q: nat, rest: nat, m: nat)
    requires n == q * w + rest && rest < w
    requires m == if 2 * rest > w || (2 * rest == w && q % 2 == 1) then q + 1 else q
    ensures NearestOnGrid(n, w, q, m)
  {
    MulDistributes(q, 1, w);
  }

  lemma PartsFromGrid(n: nat, w: nat, q: nat, m: nat) returns (rest: nat)
    requires NearestOnGrid(n, w, q, m)
    ensures n == q * w + rest && rest < w
    ensures m == if 2 * rest > w || (2 * rest == w && q % 2 == 1) then q + 1 else q
  {
    MulDistributes(q, 1, w);
    rest := n - q * w;
  }

  lemma ScaleParts(q: nat, w: nat, rest: nat, t: nat)
    ensures (q * w + rest) * t == q * (w * t) + rest * t
  {
    MulDistributes(q * w, rest, t);
    MulSwap(q, w, t);
  }

  lemma ScaleHalves(rest: nat, w: nat, t: nat)
    requires rest < w && t >= 1
    ensures rest * t < w * t
    ensures 2 * (rest * t) > w * t <==> 2 * rest > w
    ensures 2 * (rest * t) == w * t <==> 2 * rest == w
  {
    MulSwap(2, rest, t);
    ScaleLe(2 * rest, w, t);
    ScaleLe(w, 2 * rest, t);
    MulLt(rest, w, t);
  }

  lemma ScaleGrid(n: nat, w: nat, q: nat, m: nat, t: nat)
    requires NearestOnGrid(n, w, q, m) && t >= 1
    ensures NearestOnGrid(n * t, w * t, q, m)
  {
    hide NearestOnGrid;
    var rest := PartsFromGrid(n, w, q, m);
    ScaleParts(q, w, rest, t);
    ScaleHalves(rest, w, t);
    GridFromParts(n * t, w * t, q, rest * t, m);
  }

  lemma MulDistributes(a: nat, b: nat, c: nat)
    ensures (a + b) * c == a * c + b * c
  {
  }

  method DivideHalfEven(a: nat, b: nat) returns (rounded: nat)
    requires b >= 1
    ensures HalfEven(a, b, rounded)
  {
    var remainder: nat;
    rounded, remainder := a / b, a % b;
    if 2 * remainder > b || (2 * remainder == b && rounded % 2 == 1) {
      rounded := rounded + 1;
    }
  }

  /** `_float_identity` on the decimal sign and the ratio n/d of its magnitude: the sign, and the
      magnitude rounded to binary32, in units of 2^-149. */
  method FloatIdentity(signed: bool, n: nat, d: nat) returns (negative: bool, units: nat)
    requires d > 0
    ensures negative == signed && IsRounding(ShiftLeft(n, 149), d, units)
  {
    hide ShiftLeft, IsRounding, AtLeast, HalfEven;
    negative := signed;
    if n == 0 {
      units := 0;
      ZeroRoundsToZero(d);
      return;
    }
    var exponent := BitLength(n) - BitLength(d);
    BitLengthsBracket(n, d);
    var belowPower :=
      if exponent >= 0 then n < ShiftLeft(d, exponent) else ShiftLeft(n, -exponent) < d;
    AtLeastAsComputed(n, d, exponent);
    if belowPower { exponent := exponent - 1; }
    var shift := if exponent - 23 > -149 then exponent - 23 else -149;
    var denominator := ShiftLeft(d, Pos(shift));
    var numerator := ShiftLeft(n, Neg(shift));
    var rounded := DivideHalfEven(numerator, denominator);
    units := ShiftLeft(rounded, shift + 149);
    UnitsAreRounded(n, d, exponent, shift, numerator, denominator, rounded);
  }

  predicate HalfEven(a: nat, b: nat, m: nat)
    requires b >= 1
  {
    m == if 2 * (a % b) > b || (2 * (a % b) == b && (a / b) % 2 == 1) then a / b + 1 else a / b
  }

  lemma UnitsAreRounded(n: nat, d: nat, exponent: int, shift: int, numerator: nat, denominator: nat, m: nat)
    requires d > 0 && AtLeast(n, d, exponent) && !AtLeast(n, d, exponent + 1)
    requires shift == if exponent - 23 > -149 then exponent - 23 else -149
    requires numerator == ShiftLeft(n, Neg(shift)) && denominator == ShiftLeft(d, Pos(shift)) && denominator >= 1
    requires HalfEven(numerator, denominator, m)
    ensures IsRounding(ShiftLeft(n, 149), d, ShiftLeft(m, shift + 149))
  {
    hide ShiftLeft, NearestOnGrid, IsRounding, AtLeast, HalfEven;
    ShiftBounds(n, d, exponent, shift);
    QuotientGrid(numerator, denominator, m);
    UnitsGrid(n, d, shift, 149, numerator / denominator, m);
    GridRounding(ShiftLeft(n, 149), d, shift + 149, numerator / denominator, m);
  }

  /** With the exponent of n/d, the quotient fits 24 bits; it fills them unless it is subnormal. */
  lemma ShiftBounds(n: nat, d: nat, exponent: int, shift: int)
    requires d > 0 && AtLeast(n, d, exponent) && !AtLeast(n, d, exponent + 1)
    requires shift == if exponent - 23 > -149 then exponent - 23 else -149
    ensures var den := ShiftLeft(d, Pos(shift));
            && den > 0
            && ShiftLeft(n, Neg(shift)) / den < TOP
            && (shift + 149 == 0 || ShiftLeft(n, Neg(shift)) / den >= HALF)
  {
    hide ShiftLeft, AtLeast;
    QuotientBounds(n, d, shift);
    if AtLeast(n, d, shift + 24) { AtLeastMonotone(n, d, shift + 24, exponent + 1); }
  }

  lemma QuotientGrid(a: nat, b: nat, m: nat)
    requires b >= 1 && HalfEven(a, b, m)
    ensures NearestOnGrid(a, b, a / b, m)
  {
    var q := a / b;
    assert a == q * b + a % b;
    assert (q + 1) * b == q * b + b;
  }

  lemma UnitsProducts(n: nat, d: nat, shift: int, unit: nat)
    requires shift + unit >= 0
    ensures unit >= Neg(shift)
    ensures ShiftLeft(n, Neg(shift)) * Pow2(unit - Neg(shift)) == ShiftLeft(n, unit)
    ensures ShiftLeft(d, Pos(shift)) * Pow2(unit - Neg(shift)) == ShiftLeft(d, shift + unit)
  {
    hide Pow2;
    var t := unit - Neg(shift);
    Pow2Add(Neg(shift), t);
    Pow2Add(Pos(shift), t);
    MulSwap(n, Pow2(Neg(shift)), Pow2(t));
    MulSwap(d, Pow2(Pos(shift)), Pow2(t));
  }

  lemma UnitsGrid(n: nat, d: nat, shift: int, unit: nat, q: nat, m: nat)
    requires shift + unit >= 0
    requires NearestOnGrid(ShiftLeft(n, Neg(shift)), ShiftLeft(d, Pos(shift)), q, m)
    ensures NearestOnGrid(ShiftLeft(n, unit), ShiftLeft(d, shift + unit), q, m)
  {
    hide Pow2, ShiftLeft, NearestOnGrid;
    UnitsProducts(n, d, shift, unit);
    ScaleGrid(ShiftLeft(n, Neg(shift)), ShiftLeft(d, Pos(shift)), q, m, Pow2(unit - Neg(shift)));
  }

  lemma ZeroRoundsToZero(d: nat)
    requires d > 0
    ensures IsRounding(ShiftLeft(0, 149), d, 0)
  {
    hide Pow2;
    SmallIsCanonical(0);
  }
}

/** The binary64 encoding of an exactly representable integer (section 3.4 of IEEE 754-2019). */
module DoubleBits {
  import opened ExactNumbers
  import opened Carriers

  const BIAS := 1075
  const SIGN := 0x8000_0000_0000_0000

  /** Drop trailing bits until 53 are left. */
  function Shrink(a: nat): (r: nat)
    ensures r < SIGNIFICANDS && (a > 0 ==> r > 0)
  {
    if a < SIGNIFICANDS then a else Shrink(a / 2)
  }

  /** How often a number doubles before its top bit is the 53rd. */
  function Grow(a: nat): nat
    requires a > 0
    decreases SIGNIFICANDS - a
  {
    if a >= DOUBLE_FRACTION then 0 else 1 + Grow(2 * a)
  }

  function Encode(n: int): int {
    var a := Magnitude(n);
    if a == 0 then 0
    else
      var kept := Shrink(a);
      var lift := Grow(kept);
      var sign := if n < 0 then SIGN else 0;
      sign + (BIAS + Scale(a) - lift) * DOUBLE_FRACTION + (kept * Pow2(lift) - DOUBLE_FRACTION)
  }

  /** What a normal binary64 pattern denotes, for integers. */
  predicate Denotes(bits: int, n: int) {
    if n == 0 then bits == 0
    else
      var exponent := bits / DOUBLE_FRACTION % 0x800;
      var significand := bits % DOUBLE_FRACTION + DOUBLE_FRACTION;
      (bits >= SIGN <==> n < 0) && 0 <= bits < 2 * SIGN && 0 < exponent < 0x7FF
      && (exponent >= BIAS ==> Magnitude(n) == significand * Pow2(exponent - BIAS))
      && (exponent < BIAS ==> Magnitude(n) * Pow2(BIAS - exponent) == significand)
  }

  lemma {:induction false} ShrinkIsExact(a: nat)
    requires Fits(a)
    ensures a == Shrink(a) * Pow2(Scale(a))
    ensures a >= SIGNIFICANDS ==> Shrink(a) >= DOUBLE_FRACTION
    decreases a
  {
    if a >= SIGNIFICANDS {
      ShrinkIsExact(a / 2);
      assert Pow2(Scale(a)) == 2 * Pow2(Scale(a / 2));
    }
  }

  lemma {:induction false} GrowNormalizes(a: nat)
    requires 0 < a < SIGNIFICANDS
    ensures DOUBLE_FRACTION <= a * Pow2(Grow(a)) < SIGNIFICANDS
    decreases SIGNIFICANDS - a
  {
    if a < DOUBLE_FRACTION {
      GrowNormalizes(2 * a);
      assert a * Pow2(Grow(a)) == 2 * a * Pow2(Grow(2 * a));
    }
  }

  lemma GrowBounded(a: nat)
    requires 0 < a < SIGNIFICANDS
    ensures Grow(a) <= 52
  {
    GrowNormalizes(a);
    SmallPowers();
    if Grow(a) >= 53 {
      Pow2Grows(53, Grow(a));
      Below(a, Pow2(Grow(a)));
    }
  }

  lemma Below(a: nat, p: nat)
    requires a > 0
    ensures a * p >= p
  {
    assert a * p == p + (a - 1) * p;
    Product(p, a - 1);
  }

  lemma Fields(sign: int, exponent: int, fraction: int)
    requires sign == 0 || sign == SIGN
    requires 0 <= exponent < 0x800 && 0 <= fraction < DOUBLE_FRACTION
    ensures var bits := sign + exponent * DOUBLE_FRACTION + fraction;
            bits / DOUBLE_FRACTION % 0x800 == exponent && bits % DOUBLE_FRACTION == fraction
            && 0 <= bits < 2 * SIGN && (bits >= SIGN <==> sign == SIGN)
  {
  }

  /** An accepted magnitude as the shrunk significand, the lift that normalizes it and the scale. */
  lemma Normalized(n: int)
    requires Representable(n) && n != 0
    ensures var a := Magnitude(n);
            var lift := Grow(Shrink(a));
            a == Shrink(a) * Pow2(Scale(a)) && Scale(a) <= EXPONENTS && lift <= 52
            && DOUBLE_FRACTION <= Shrink(a) * Pow2(lift) < SIGNIFICANDS
            && (Scale(a) == 0 || lift == 0)
  {
    hide Pow2, Scale, RoundMagnitude, Fits;
    var a := Magnitude(n);
    RoundTripIsRepresentable(n);
    RoundsToItself(a);
    ShrinkIsExact(a);
    ScaleBounded(a, EXPONENTS);
    GrowNormalizes(Shrink(a));
    GrowBounded(Shrink(a));
    SmallScale(a);
  }

  lemma SmallScale(a: nat)
    ensures a < SIGNIFICANDS ==> Scale(a) == 0
  {
  }

  lemma One()
    ensures Pow2(0) == 1
  {
  }

  /** The pattern an accepted integer is stored as denotes that integer, and is never a NaN. */
  lemma EncodeDenotes(n: int)
    requires Representable(n)
    ensures Denotes(Encode(n), n) && !IsNaN(Precision, Encode(n)) && 0 <= Encode(n) < 2 * SIGN
  {
    hide Pow2, Scale, Representable, Grow, Shrink;
    var a := Magnitude(n);
    if a > 0 {
      Normalized(n);
      One();
      var lift := Grow(Shrink(a));
      Fields(if n < 0 then SIGN else 0, BIAS + Scale(a) - lift, Shrink(a) * Pow2(lift) - DOUBLE_FRACTION);
    }
  }
}

/** IEEE 754 doubles by their bit fields, with exact values scaled by 2^1074 to integers. */
module Double {
  import opened Arith

  const FRAC: int := 0x10_0000_0000_0000   // 2^52

  type Exponent = e: int | 0 <= e < 2048
  type Fraction = f: int | 0 <= f < FRAC

  datatype Double = Double(negative: bool, exponent: Exponent, fraction: Fraction)

  predicate IsNaN(d: Double) {
    d.exponent == 2047 && d.fraction != 0
  }

  predicate IsInfinite(d: Double) {
    d.exponent == 2047 && d.fraction == 0
  }

  predicate IsFinite(d: Double) {
    d.exponent != 2047
  }

  /** The scale of exact values: 2^1074. */
  function Unit(): (u: nat)
    ensures u > 0
  {
    Pow2(1074)
  }

  function Significand(d: Double): nat {
    if d.exponent == 0 then d.fraction else FRAC + d.fraction
  }

  /** The absolute value of a finite double, times 2^1074. */
  function Magnitude(d: Double): nat {
    Significand(d) * Pow2(if d.exponent == 0 then 0 else d.exponent - 1)
  }

  /** The exact value of a finite double, times 2^1074. */
  function Scaled(d: Double): int {
    if d.negative then -(Magnitude(d) as int) else Magnitude(d)
  }

  predicate IsIntegral(d: Double) {
    IsFinite(d) && Magnitude(d) % Unit() == 0
  }

  /** The == of doubles: NaN equals nothing, and the zeros are equal. */
  predicate FloatEq(a: Double, b: Double) {
    if IsNaN(a) || IsNaN(b) then false
    else if IsFinite(a) && IsFinite(b) then Scaled(a) == Scaled(b)
    else a == b
  }

  // ----- the classes and the order of doubles, by their 64 bits -----

  /** The sign bit, 11 bits of exponent and 52 of fraction. */
  function Bits(d: Double): nat {
    (if d.negative then 0x8000_0000_0000_0000 else 0) + d.exponent * 0x10_0000_0000_0000 + d.fraction
  }

  /** The infinities have these two bit patterns; above them, the sign aside, are the NaNs, and below the finite ones. */
  lemma ClassesByBits(d: Double)
    ensures IsInfinite(d) <==> Bits(d) == 0x7ff0_0000_0000_0000 || Bits(d) == 0xfff0_0000_0000_0000
    ensures IsNaN(d) <==> Bits(d) % 0x8000_0000_0000_0000 > 0x7ff0_0000_0000_0000
    ensures IsFinite(d) <==> Bits(d) % 0x8000_0000_0000_0000 < 0x7ff0_0000_0000_0000
  {
  }

  /** Doubles without a sign that are finite have the order of their bits, the least positive one is one unit of the scale,
      and one is 2^1074 units. */
  lemma OrderedByBits(a: Double, b: Double)
    requires !a.negative && !b.negative && Bits(a) < Bits(b)
    ensures Magnitude(a) < Magnitude(b)
    ensures Magnitude(Double(false, 0, 1)) == 1
    ensures Magnitude(Double(false, 1023, 0)) == Unit()
  {
    hide Pow2, Magnitude, Bits;
    OneAndLeast();
    BitsOrder(a, b);
    if a.exponent == b.exponent {
      SameExponent(a, b);
    } else {
      NextExponent(a, b.exponent);
      AboveExponent(b);
    }
  }

  lemma BitsOrder(a: Double, b: Double)
    requires !a.negative && !b.negative && Bits(a) < Bits(b)
    ensures a.exponent < b.exponent || (a.exponent == b.exponent && a.fraction < b.fraction)
  {
  }

  lemma SameExponent(a: Double, b: Double)
    requires a.exponent == b.exponent && a.fraction < b.fraction
    ensures Magnitude(a) < Magnitude(b)
  {
    hide Pow2;
    Widened(Significand(a), Significand(b), Pow2(if a.exponent == 0 then 0 else a.exponent - 1));
  }

  lemma AboveExponent(b: Double)
    requires b.exponent > 0
    ensures Magnitude(b) >= FRAC * Pow2(b.exponent - 1)
  {
    hide Pow2;
    if b.fraction > 0 { Widened(FRAC, Significand(b), Pow2(b.exponent - 1)); }
  }

  lemma Widened(x: nat, y: nat, p: nat)
    requires x < y && p > 0
    ensures x * p < y * p
  {
  }

  /** Below a power of two. */
  lemma NextExponent(a: Double, e: Exponent)
    requires a.exponent < e
    ensures Magnitude(a) < FRAC * Pow2(e - 1)
  {
    var low := if a.exponent == 0 then 0 else a.exponent - 1;
    Pow2Add(low, e - 1 - low);
    if a.exponent == 0 {
      Widened(Significand(a), FRAC, Pow2(0));
      AtLeast(FRAC, Pow2(e - 1));
    } else {
      Widened(Significand(a), 2 * FRAC, Pow2(low));
      Doubled(low, e);
    }
  }

  lemma AtLeast(x: nat, p: nat)
    requires p > 0
    ensures x * p >= x
  {
  }

  lemma Doubled(low: nat, e: Exponent)
    requires low + 1 <= e - 1
    ensures 2 * FRAC * Pow2(low) <= FRAC * Pow2(e - 1)
  {
    Pow2Add(low + 1, e - 2 - low);
    assert Pow2(low + 1) == 2 * Pow2(low);
    AtLeast(Pow2(low + 1), Pow2(e - 2 - low));
  }

  lemma OneAndLeast()
    ensures Magnitude(Double(false, 0, 1)) == 1
    ensures Magnitude(Double(false, 1023, 0)) == Unit()
  {
    FracIsPow2();
    Pow2Add(52, 1022);
  }

  lemma FracIsPow2()
    ensures FRAC == Pow2(52)
  {
    Pow2Add(26, 26);
    assert Pow2(26) == 0x400_0000 by {
      Pow2Add(13, 13);
      assert Pow2(13) == 0x2000 by { Pow2Add(6, 7); assert Pow2(6) == 64; assert Pow2(7) == 128; }
    }
  }

  // ----- rounding to integers, on the bit fields -----

  /** How many low fraction bits lie below the units digit, when some but not all do. */
  predicate Mixed(d: Double) {
    1023 <= d.exponent < 1075
  }

  function LowBits(d: Double): nat
    requires Mixed(d)
  {
    1075 - d.exponent
  }

  /** Round toward zero by clearing the fraction bits below the units digit. */
  function Trunc(d: Double): Double {
    if d.exponent >= 1075 then d
    else if d.exponent < 1023 then Double(d.negative, 0, 0)
    else
      Cleared(d);
      d.(fraction := d.fraction / Pow2(LowBits(d)) * Pow2(LowBits(d)))
  }

  lemma Cleared(d: Double)
    requires Mixed(d)
    ensures 0 <= d.fraction / Pow2(LowBits(d)) * Pow2(LowBits(d)) <= d.fraction
  {
    RoundDown(d.fraction, Pow2(LowBits(d)));
  }

  lemma RoundDown(x: int, p: int)
    requires x >= 0 && p > 0
    ensures 0 <= x / p * p <= x
  {
    DivModForm(x, p);
    assert x / p >= 0;
  }

  /** Round toward minus infinity: a negative non-integral value goes one unit further than Trunc. */
  function Floor(d: Double): Double {
    if !d.negative || IsIntegral(d) || !IsFinite(d) then Trunc(d)
    else if d.exponent < 1023 then Double(true, 1023, 0)
    else if d.exponent >= 1075 then d
    else
      var up := Trunc(d).fraction + Pow2(LowBits(d));
      if up < FRAC then d.(fraction := up) else Double(true, d.exponent + 1, 0)
  }

  // ----- exact values -----

  lemma UnitSplits(d: Double)
    requires Mixed(d)
    ensures Unit() == Pow2(LowBits(d)) * Pow2(d.exponent - 1)
  {
    Pow2Add(LowBits(d), d.exponent - 1);
  }

  lemma FracSplits(d: Double)
    requires Mixed(d)
    ensures FRAC == Pow2(52 - LowBits(d)) * Pow2(LowBits(d))
  {
    FracIsPow2();
    Pow2Add(52 - LowBits(d), LowBits(d));
  }

  lemma MulAssoc(a: int, b: int, c: int)
    ensures a * (b * c) == a * b * c
  {
  }

  lemma Distribute(a: int, b: int, c: int)
    ensures (a + b) * c == a * c + b * c
  {
  }

  /** For values with both integer and fraction bits: the integer part and what is left, in exact terms. */
  lemma MixedParts(d: Double)
    requires Mixed(d)
    ensures var u, q := Pow2(d.exponent - 1), (FRAC + d.fraction) / Pow2(LowBits(d));
      && Magnitude(d) / Unit() == q
      && Magnitude(d) % Unit() == (FRAC + d.fraction) % Pow2(LowBits(d)) * u
      && (Magnitude(d) % Unit() == 0 <==> d.fraction % Pow2(LowBits(d)) == 0)
      && Magnitude(Trunc(d)) == q * Unit()
  {
    hide Pow2;
    var p, u := Pow2(LowBits(d)), Pow2(d.exponent - 1);
    var s := FRAC + d.fraction;
    var q, r := s / p, s % p;
    UnitSplits(d);
    FracSplits(d);
    DivModForm(s, p);
    Distribute(q * p, r, u);
    MulAssoc(q, p, u);
    assert s * u == q * (p * u) + r * u;
    ProductBelow(r, p, u);
    DivModUnique(s * u, q, p * u, r * u);
    ModAddMultiple(d.fraction, Pow2(52 - LowBits(d)), p);
    DivModForm(d.fraction, p);
    assert r == d.fraction % p;
    assert r * u == 0 <==> r == 0;
    Cleared(d);
    assert FRAC + d.fraction / p * p == q * p;
  }

  lemma ProductBelow(r: int, p: int, u: int)
    requires 0 <= r < p && u > 0
    ensures 0 <= r * u < p * u
  {
  }

  lemma BelowModulus(x: int, m: int)
    requires 0 <= x < m
    ensures x % m == 0 <==> x == 0
  {
    DivModUnique(x, 0, m, x);
  }

  lemma SignificandBelow(d: Double)
    ensures Significand(d) < Pow2(53)
  {
    FracIsPow2();
    Pow2Doubles(53);
  }

  lemma SmallBelowUnit(d: Double)
    requires d.exponent < 1023
    ensures Magnitude(d) < Unit()
  {
    hide Pow2, Significand;
    var e := if d.exponent == 0 then 0 else d.exponent - 1;
    SignificandBelow(d);
    Pow2Add(53, 1021);
    Pow2Mono(e, 1021);
    ProductMono(Significand(d), Pow2(53), Pow2(e), Pow2(1021));
  }

  lemma SmallMagnitude(d: Double)
    requires d.exponent < 1023
    ensures Magnitude(d) < Unit()
    ensures IsIntegral(d) <==> Magnitude(d) == 0
  {
    hide Magnitude, Unit;
    SmallBelowUnit(d);
    BelowModulus(Magnitude(d), Unit());
  }

  lemma ProductMono(a: int, b: int, c: int, d: int)
    requires 0 <= a < b && 0 < c <= d
    ensures a * c < b * d
  {
    assert a * c <= a * d;
    assert a * d < b * d;
  }

  lemma LargeMagnitude(d: Double)
    requires d.exponent >= 1075
    ensures Magnitude(d) == (FRAC + d.fraction) * Pow2(d.exponent - 1075) * Unit()
    ensures Magnitude(d) % Unit() == 0
  {
    Pow2Add(d.exponent - 1075, 1074);
    MulAssoc(FRAC + d.fraction, Pow2(d.exponent - 1075), Unit());
    MultipleMod((FRAC + d.fraction) * Pow2(d.exponent - 1075), Unit());
  }

  /** Trunc drops exactly the part below the units digit. */
  lemma TruncExact(d: Double)
    requires IsFinite(d)
    ensures IsFinite(Trunc(d)) && Trunc(d).negative == d.negative
    ensures Magnitude(Trunc(d)) == Magnitude(d) / Unit() * Unit()
  {
    if d.exponent >= 1075 {
      LargeMagnitude(d);
      DivModForm(Magnitude(d), Unit());
    } else if d.exponent < 1023 {
      SmallMagnitude(d);
      DivModUnique(Magnitude(d), 0, Unit(), Magnitude(d));
    } else {
      MixedParts(d);
    }
  }

  /** A double equals its truncation exactly when it is an integer. */
  lemma TruncTestExact(d: Double)
    requires IsFinite(d)
    ensures FloatEq(d, Trunc(d)) <==> IsIntegral(d)
  {
    TruncExact(d);
    DivModForm(Magnitude(d), Unit());
  }

  lemma OneExact()
    ensures Magnitude(Double(true, 1023, 0)) == Unit()
  {
    FracIsPow2();
    Pow2Add(52, 1022);
  }

  lemma FloorOfNegative(d: Double)
    requires IsFinite(d) && d.negative && !IsIntegral(d)
    ensures IsIntegral(Floor(d)) && Floor(d).negative
    ensures Magnitude(Floor(d)) == (Magnitude(d) / Unit() + 1) * Unit()
  {
    if d.exponent < 1023 {
      SmallMagnitude(d);
      OneExact();
      DivModUnique(Magnitude(d), 0, Unit(), Magnitude(d));
      MultipleMod(1, Unit());
    } else if d.exponent >= 1075 {
      LargeMagnitude(d);
    } else {
      FloorMixed(d);
    }
  }

  /** Floor is the greatest integral value not above d. */
  lemma FloorExact(d: Double)
    requires IsFinite(d)
    ensures IsIntegral(Floor(d))
    ensures Scaled(Floor(d)) <= Scaled(d) < Scaled(Floor(d)) + Unit()
  {
    DivModForm(Magnitude(d), Unit());
    var k := Magnitude(d) / Unit();
    Distribute(k, 1, Unit());
    if d.negative && !IsIntegral(d) {
      FloorOfNegative(d);
    } else {
      hide Trunc, Magnitude, Unit;
      TruncExact(d);
      MultipleMod(k, Unit());
    }
  }

  lemma FloorMixed(d: Double)
    requires Mixed(d) && d.negative && !IsIntegral(d)
    ensures IsIntegral(Floor(d)) && Floor(d).negative
    ensures Magnitude(Floor(d)) == (Magnitude(d) / Unit() + 1) * Unit()
  {
    var p, u := Pow2(LowBits(d)), Pow2(d.exponent - 1);
    var q := (FRAC + d.fraction) / p;
    MixedParts(d);
    UnitSplits(d);
    FracSplits(d);
    var t := Trunc(d).fraction;
    assert (FRAC + t) * u == q * (p * u);
    assert FRAC + t == q * p by { CancelFactor(FRAC + t, q, p, u); }
    assert (FRAC + t + p) * u == (q + 1) * (p * u) by {
      Distribute(FRAC + t, p, u);
      Distribute(q, 1, p * u);
    }
    if t + p < FRAC {
    } else {
      NextBinade(t, p, q, d);
    }
    MultipleMod(q + 1, Unit());
  }

  lemma CancelFactor(a: int, q: int, p: int, u: int)
    requires u > 0 && a * u == q * (p * u)
    ensures a == q * p
  {
    MulAssoc(q, p, u);
    var d := a - q * p;
    assert d * u == 0;
    MulAtLeast(d, u);
  }

  /** When the increment carries out of the fraction, the result is the next power of two. */
  lemma NextBinade(t: int, p: int, q: int, d: Double)
    requires Mixed(d) && p == Pow2(LowBits(d)) && FRAC + t == q * p && 0 <= t < FRAC && t + p >= FRAC
    ensures FRAC + t + p == 2 * FRAC
    ensures Magnitude(Double(true, d.exponent + 1, 0)) == (FRAC + t + p) * Pow2(d.exponent - 1)
  {
    FracSplits(d);
    OneApart(Pow2(52 - LowBits(d)), q, p, t);
    Pow2Doubles(d.exponent);
    hide Pow2;
    MulAssoc(FRAC, 2, Pow2(d.exponent - 1));
  }

  lemma Pow2Doubles(n: nat)
    requires n > 0
    ensures Pow2(n) == 2 * Pow2(n - 1)
  {
  }

  /** Two multiples of p at most p apart and not equal are next to each other. */
  lemma OneApart(k: int, q: int, p: int, t: int)
    requires p > 0 && FRAC == k * p && FRAC + t == q * p && t < FRAC && t + p >= FRAC
    ensures t + p == FRAC
  {
    var x := 2 * k - q;
    assert x * p == 2 * (k * p) - q * p by {
      Distribute(2 * k, -q, p);
      MulAssoc(2, k, p);
      assert (-q) * p == -(q * p);
    }
    MulAtLeast(x, p);
    MulAtLeast(x - 1, p);
    Distribute(x, -1, p);
  }
}

/** Conversions and comparisons between big integers and doubles, and truncation to a bit width. */
module BigIntOps {
  import opened Prelude
  import opened Arith
  import opened Double

  /** The integer a double stands for; None when it is not one. */
  function BigintFromIntegralNumber(n: Double): Option<int> {
    if !IsFinite(n) || !FloatEq(n, Trunc(n)) then None
    else if Magnitude(n) == 0 then Some(0)
    else if n.exponent == 0 then None
    else
      var exponent := n.exponent - 1023;
      var sig := FRAC + n.fraction;
      if exponent >= 52 then Some(Signed(n, sig * Pow2(exponent - 52)))
      else if exponent < 0 then None   // the shift width would not fit; ruled out by LateBranchesUnreachable
      else if n.fraction % Pow2(52 - exponent) != 0 then None
      else Some(Signed(n, sig / Pow2(52 - exponent)))
  }

  function Signed(n: Double, v: int): int {
    if n.negative then -v else v
  }

  /** After the truncation test, a non-zero number has a biased exponent of at least 1023 and no fraction bits
      below the units digit: the later None branches are never taken. */
  lemma LateBranchesUnreachable(n: Double)
    requires IsFinite(n) && FloatEq(n, Trunc(n)) && Magnitude(n) != 0
    ensures n.exponent >= 1023
    ensures n.exponent - 1023 < 52 ==> n.fraction % Pow2(52 - (n.exponent - 1023)) == 0
  {
    TruncTestExact(n);
    if n.exponent < 1023 {
      SmallMagnitude(n);
    } else if n.exponent < 1075 {
      MixedParts(n);
    }
  }

  /** The decode succeeds exactly on the integral doubles, with exactly their value. */
  lemma IntegralDecodeExact(n: Double)
    ensures BigintFromIntegralNumber(n).Some? <==> IsIntegral(n)
    ensures IsIntegral(n) ==> BigintFromIntegralNumber(n).value * Unit() == Scaled(n)
  {
    hide Unit, Pow2, Trunc;
    if IsFinite(n) {
      TruncTestExact(n);
      if IsIntegral(n) && Magnitude(n) != 0 {
        LateBranchesUnreachable(n);
        if n.exponent >= 1075 {
          LargeMagnitude(n);
        } else {
          MixedParts(n);
          DivModForm(Magnitude(n), Unit());
        }
      }
    }
  }

  datatype Ordering = Less | Equal | Greater

  function Compare(a: int, b: int): Ordering {
    if a < b then Less else if a == b then Equal else Greater
  }

  /** compare_bigint_number; None for NaN. */
  function CompareBigintNumber(a: int, b: Double): Option<Ordering> {
    if IsNaN(b) then None
    else if IsInfinite(b) then Some(if b.negative then Greater else Less)
    else
      match BigintFromIntegralNumber(b)
      case Some(bi) => Some(Compare(a, bi))
      case None =>
        match BigintFromIntegralNumber(Floor(b))
        case None => None
        case Some(floor) => Some(if a <= floor then Less else Greater)
  }

  /** For every double but NaN, which compares with nothing, the comparison is the order of the exact values (section
      7.2.13 of ECMA-262). */
  lemma ComparisonExact(a: int, b: Double)
    ensures IsNaN(b) ==> CompareBigintNumber(a, b) == None
    ensures IsFinite(b) ==>
      CompareBigintNumber(a, b) == Some(if a * Unit() < Scaled(b) then Less else if a * Unit() > Scaled(b) then Greater else Equal)
    ensures IsInfinite(b) ==> CompareBigintNumber(a, b) == Some(if b.negative then Greater else Less)
  {
    if IsFinite(b) {
      IntegralDecodeExact(b);
      if IsIntegral(b) {
        ScaleOrder(a, BigintFromIntegralNumber(b).value, Unit());
      } else {
        FloorExact(b);
        IntegralDecodeExact(Floor(b));
        var f := BigintFromIntegralNumber(Floor(b)).value;
        ScaleOrder(a, f, Unit());
        ScaleOrder(a, f + 1, Unit());
        Distribute(f, 1, Unit());
        assert Scaled(b) != f * Unit() by { NotMultiple(b, f); }
      }
    }
  }

  lemma ScaleOrder(a: int, b: int, u: int)
    requires u > 0
    ensures Compare(a * u, b * u) == Compare(a, b)
  {
    var d := a - b;
    assert d * u == a * u - b * u;
    MulAtLeast(d, u);
  }

  lemma NotMultiple(b: Double, k: int)
    requires IsFinite(b) && !IsIntegral(b)
    ensures Scaled(b) != k * Unit()
  {
    MultipleMod(k, Unit());
    MultipleMod(-k, Unit());
    assert (-k) * Unit() == -(k * Unit());
  }

  // ----- asUintN and asIntN -----

  /** The remainder of the big-integer library: it takes the sign of the dividend. */
  function TruncRem(x: int, m: int): int
    requires m > 0
  {
    if x >= 0 then x % m else -((-x) % m)
  }

  lemma TruncRemForm(x: int, m: int)
    requires m > 0
    ensures (if TruncRem(x, m) < 0 then TruncRem(x, m) + m else TruncRem(x, m)) == x % m
  {
    if x < 0 {
      var r := (-x) % m;
      DivModForm(-x, m);
      var q := (-x) / m;
      if r == 0 {
        assert x == (-q) * m;
        DivModUnique(x, -q, m, 0);
      } else {
        assert x == (-q - 1) * m + (m - r) by { Distribute(-q, -1, m); }
        DivModUnique(x, -q - 1, m, m - r);
      }
    }
  }

  /** The representative of x modulo 2^bits in [0, 2^bits). */
  function AsUintN(bits: nat, x: int): (r: int)
    ensures 0 <= r < Pow2(bits)
  {
    x % Pow2(bits)
  }

  /** The representative of x modulo 2^bits in [-2^(bits-1), 2^(bits-1)). */
  function AsIntN(bits: nat, x: int): int {
    if bits == 0 then 0
    else if AsUintN(bits, x) >= Pow2(bits - 1) then AsUintN(bits, x) - Pow2(bits) else AsUintN(bits, x)
  }

  /** The builtin: truncating remainder, then a correction of its sign, then the signed wrap. */
  method TruncateToBits(signed: bool, bits: nat, asBigint: int) returns (out: int)
    ensures out == if signed then AsIntN(bits, asBigint) else AsUintN(bits, asBigint)
  {
    if bits == 0 { return 0; }
    var modulus := Pow2(bits);
    var uint := TruncRem(asBigint, modulus);
    TruncRemForm(asBigint, modulus);
    if uint < 0 { uint := uint + modulus; }
    if !signed { return uint; }
    var signBit := Pow2(bits - 1);
    out := if uint >= signBit then uint - modulus else uint;
  }

  /** asUintN is the only number of its range congruent to x (section 21.2.2.2 of ECMA-262). */
  lemma AsUintNUnique(bits: nat, x: int, y: int)
    ensures y == AsUintN(bits, x) <==> 0 <= y < Pow2(bits) && y % Pow2(bits) == x % Pow2(bits)
  {
    if 0 <= y < Pow2(bits) { DivModUnique(y, 0, Pow2(bits), y); }
    DivModUnique(AsUintN(bits, x), 0, Pow2(bits), AsUintN(bits, x));
  }

  /** asIntN is the only number of its range congruent to x (section 21.2.2.1 of ECMA-262). */
  lemma AsIntNUnique(bits: nat, x: int, y: int)
    requires bits > 0
    ensures y == AsIntN(bits, x) <==> 0 - Pow2(bits - 1) as int <= y < Pow2(bits - 1) && y % Pow2(bits) == x % Pow2(bits)
  {
    var m, u := Pow2(bits), AsUintN(bits, x);
    DivModUnique(u, 0, m, u);
    ModAddMultiple(u, -1, m);
    if 0 - Pow2(bits - 1) as int <= y < Pow2(bits - 1) {
      if y >= 0 { DivModUnique(y, 0, m, y); } else { DivModUnique(y, -1, m, y + m); }
    }
  }

  /** Wrapping to signed can start from the unsigned representative. */
  lemma AsIntNOfAsUintN(bits: nat, x: int)
    ensures AsIntN(bits, AsUintN(bits, x)) == AsIntN(bits, x)
  {
    DivModUnique(AsUintN(bits, x), 0, Pow2(bits), AsUintN(bits, x));
  }

  /** Nested widths collapse to the smaller one. */
  lemma NestedWidths(m: nat, n: nat, x: int)
    ensures AsUintN(m, AsUintN(n, x)) == AsUintN(if m <= n then m else n, x)
  {
    if m <= n {
      DivModForm(x, Pow2(n));
      Pow2Add(n - m, m);
      var q, k := x / Pow2(n), Pow2(n - m);
      assert q * (k * Pow2(m)) == q * k * Pow2(m) by { MulAssoc(q, k, Pow2(m)); }
      ModAddMultiple(AsUintN(n, x), q * k, Pow2(m));
    } else {
      Pow2Mono(n, m);
      DivModUnique(AsUintN(n, x), 0, Pow2(m), AsUintN(n, x));
    }
  }

  /** asUintN may be applied to the operands of a sum or product first. */
  lemma AsUintNRespectsSumAndProduct(bits: nat, x: int, y: int)
    ensures AsUintN(bits, AsUintN(bits, x) + AsUintN(bits, y)) == AsUintN(bits, x + y)
    ensures AsUintN(bits, AsUintN(bits, x) * AsUintN(bits, y)) == AsUintN(bits, x * y)
  {
    var m, u, v := Pow2(bits), AsUintN(bits, x), AsUintN(bits, y);
    var a, b := x / m, y / m;
    DivModForm(x, m);
    DivModForm(y, m);
    assert x + y == u + v + (a + b) * m by { Distribute(a, b, m); }
    ModAddMultiple(u + v, a + b, m);
    ProductForm(a, b, m, u, v);
    ModAddMultiple(u * v, a * (b * m + v) + b * u, m);
  }

  lemma ProductForm(a: int, b: int, m: int, u: int, v: int)
    ensures (a * m + u) * (b * m + v) == u * v + (a * (b * m + v) + b * u) * m
  {
    var y := b * m + v;
    assert (a * m + u) * y == a * m * y + u * y by { Distribute(a * m, u, y); }
    assert a * m * y == a * y * m by { MulAssoc(a, m, y); MulAssoc(a, y, m); }
    assert u * y == u * (b * m) + u * v;
    assert u * (b * m) == b * u * m by { MulAssoc(u, b, m); }
    Distribute(a * y, b * u, m);
  }
}

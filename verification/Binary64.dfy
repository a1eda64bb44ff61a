/** The software binary64 that the shader preamble carries: widening and narrowing between the interchange
    formats of section 3.4 of IEEE 754-2008. Bit patterns are natural numbers, shifts and masks are division,
    multiplication and remainder by powers of two, and float operations round to nearest, ties to even. */
module Binary64 {

  type Bits32 = b: nat | b < 0x1_0000_0000
  type Bits64 = b: nat | b < 0x1_0000_0000_0000_0000

  function Pow2(n: nat): (p: nat)
    ensures p > 0
  {
    if n == 0 then 1 else 2 * Pow2(n - 1)
  }

  /** The position of the highest set bit: 31 - clz for a 32-bit word. */
  function Log2(n: nat): (h: nat)
    requires n > 0
    ensures Pow2(h) <= n < 2 * Pow2(h)
  {
    if n == 1 then 0 else 1 + Log2(n / 2)
  }

  /** The number of the multiple of q nearest to x, ties to the even multiple. */
  function Nearest(x: nat, q: nat): nat
    requires q > 0
  {
    var n, r := x / q, x % q;
    if 2 * r < q || (2 * r == q && n % 2 == 0) then n else n + 1
  }

  /** The spacing of floats at f: one up to 24 bits, doubling with every further bit. */
  function Spacing(f: nat): (q: nat)
    ensures q > 0 && f < 0x100_0000 * q && (q > 1 ==> f >= 0x80_0000 * q)
  {
    if f < 0x100_0000 then 1 else 2 * Spacing(f / 2)
  }

  /** Conversion of an integer to float. */
  function ToFloat(f: nat): nat {
    Nearest(f, Spacing(f)) * Spacing(f)
  }

  lemma {:induction false} Pow2Add(a: nat, b: nat)
    ensures Pow2(a + b) == Pow2(a) * Pow2(b)
  {
    if a > 0 { Pow2Add(a - 1, b); }
  }

  lemma PowersUsed()
    ensures Pow2(23) == 0x80_0000 && Pow2(24) == 0x100_0000 && Pow2(28) == 0x1000_0000
    ensures Pow2(29) == 0x2000_0000 && Pow2(52) == 0x10_0000_0000_0000 && Pow2(1) == 2
  {
    assert Pow2(5) == 32;
    Pow2Add(5, 5);
    Pow2Add(10, 10);
    assert Pow2(3) == 8;
    Pow2Add(20, 3);
    Pow2Add(23, 5);
    Pow2Add(23, 29);
  }

  lemma {:induction false} Pow2Monotone(a: nat, b: nat)
    requires a <= b
    ensures Pow2(a) <= Pow2(b)
  {
    if a < b { Pow2Monotone(a, b - 1); }
  }

  lemma Log2Small(f: nat)
    requires 0 < f < 0x80_0000
    ensures Log2(f) <= 22
  {
    PowersUsed();
    if Log2(f) > 22 { Pow2Monotone(23, Log2(f)); }
  }

  // ----- fields -----

  function Sign64(b: Bits64): nat { b / 0x8000_0000_0000_0000 }
  function Exponent64(b: Bits64): nat { b / 0x10_0000_0000_0000 % 0x800 }
  function Fraction64(b: Bits64): nat { b % 0x10_0000_0000_0000 }
  function Sign32(b: Bits32): nat { b / 0x8000_0000 }
  function Exponent32(b: Bits32): nat { b / 0x80_0000 % 0x100 }
  function Fraction32(b: Bits32): nat { b % 0x80_0000 }

  predicate IsNaN64(b: Bits64) { Exponent64(b) == 0x7ff && Fraction64(b) != 0 }
  predicate IsNaN32(b: Bits32) { Exponent32(b) == 0xff && Fraction32(b) != 0 }

  lemma FieldRange(b: Bits64)
    ensures Sign64(b) <= 1 && Exponent64(b) < 0x800 && Fraction64(b) < 0x10_0000_0000_0000
  {
  }

  /** Magnitudes as exact integers, in units of the smallest subnormal (2^-1074 for binary64, 2^-149 for
      binary32); p is the weight of the hidden bit. An infinity gets the value its exponent would have,
      which is above every finite one. */
  function Magnitude(p: nat, e: nat, f: nat): nat {
    if e == 0 then f else (p + f) * Pow2(e - 1)
  }

  function Value64(b: Bits64): int {
    var m: int := Magnitude(0x10_0000_0000_0000, Exponent64(b), Fraction64(b));
    if Sign64(b) == 1 then 0 - m else m
  }

  function Value32(b: Bits32): int {
    var m: int := Magnitude(0x80_0000, Exponent32(b), Fraction32(b));
    if Sign32(b) == 1 then 0 - m else m
  }

  // ----- the two conversions -----

  /** 1.0 + float(fraction) * 2^-52, in units of 2^-23, after both roundings. */
  function Significand(f: nat): nat {
    Nearest(0x10_0000_0000_0000 + ToFloat(f), 0x2000_0000)
  }

  /** ldexp of that significand, as the bit pattern of a non-negative float: exact when the result is
      normal (or overflows to the pattern of infinity), rounded to a multiple of 2^-149 below. */
  function Scaled(s: nat, unbiased: int): nat
    requires -149 <= unbiased <= 127
  {
    if unbiased >= -126 then (unbiased + 126) * 0x80_0000 + s
    else Nearest(s, Pow2(-126 - unbiased))
  }

  function NarrowMagnitude(e: nat, f: nat): nat {
    if e == 0 then 0
    else if e == 0x7ff then if f == 0 then 0x7f80_0000 else 0x7fc0_0000
    else if e - 1023 > 127 then 0x7f80_0000
    else if e - 1023 < -149 then 0
    else Scaled(Significand(f), e - 1023)
  }

  /** The exponent and fraction of a widened subnormal: its leading bit becomes the implicit one. */
  function SubnormalParts(f: nat): (p: (nat, nat))
    requires 0 < f < 0x80_0000
    ensures p.0 < 0x800 && p.1 < 0x10_0000_0000_0000
  {
    var h := Log2(f);
    Log2Small(f);
    (h + 874, Payload(f, h))
  }

  /** The bits below the leading one, moved to the top of the fraction. */
  function Payload(f: nat, h: nat): (p: nat)
    requires h <= 22 && Pow2(h) <= f < 2 * Pow2(h)
    ensures p < 0x10_0000_0000_0000
  {
    PayloadBound(f, h);
    (f - Pow2(h)) * Pow2(52 - h)
  }

  /** The exponent and fraction spvFloatToDouble computes. */
  function WidenParts(e: nat, f: nat): (p: (nat, nat))
    requires e < 0x100 && f < 0x80_0000
    ensures p.0 < 0x800 && p.1 < 0x10_0000_0000_0000
  {
    if e == 0xff then
      (0x7ff, if f == 0 then 0
              else if f / 0x40_0000 == 1 then f * 0x2000_0000
              else f * 0x2000_0000 + 0x8_0000_0000_0000)
    else if e == 0 then if f == 0 then (0, 0) else SubnormalParts(f)
    else (e + 896, f * 0x2000_0000)
  }

  // ----- rounding -----

  lemma MultiplyMonotone(a: nat, b: nat, q: nat)
    requires a <= b
    ensures a * q <= b * q
  {
  }

  lemma DivideIs(x: nat, q: nat, n: nat, r: nat)
    requires q > 0 && x == n * q + r && r < q
    ensures x / q == n && x % q == r
  {
    if x / q < n {
      MultiplyMonotone(x / q + 1, n, q);
    } else if x / q > n {
      MultiplyMonotone(n + 1, x / q, q);
    }
  }

  lemma Distribute(a: nat, b: nat, q: nat)
    ensures (a + b) * q == a * q + b * q
  {
  }

  lemma Associate(a: nat, b: nat, c: nat)
    ensures (a * b) * c == a * (b * c) == (b * a) * c == b * (a * c)
  {
  }

  /** The result is within half a step of the argument. */
  lemma NearestError(x: nat, q: nat)
    requires q > 0
    ensures 2 * (Nearest(x, q) * q) <= 2 * x + q && 2 * x <= 2 * (Nearest(x, q) * q) + q
  {
    var n, r := x / q, x % q;
    assert x == n * q + r;
    assert (n + 1) * q == n * q + q;
  }

  lemma NearestExact(n: nat, q: nat)
    requires q > 0
    ensures Nearest(n * q, q) == n
  {
    DivideIs(n * q, q, n, 0);
  }

  lemma QuotientMonotone(x: nat, y: nat, q: nat)
    requires q > 0 && x <= y
    ensures x / q <= y / q
    ensures x / q == y / q ==> x % q <= y % q
  {
    if x / q > y / q {
      MultiplyMonotone(y / q + 1, x / q, q);
    }
  }

  lemma NearestMonotone(x: nat, y: nat, q: nat)
    requires q > 0 && x <= y
    ensures Nearest(x, q) <= Nearest(y, q)
  {
    QuotientMonotone(x, y, q);
    if x / q == y / q {
      assert x % q <= y % q;
    }
  }

  /** Rounding stays between multiples. */
  lemma NearestBetween(lo: nat, x: nat, hi: nat, q: nat)
    requires q > 0 && lo * q <= x <= hi * q
    ensures lo <= Nearest(x, q) <= hi
  {
    NearestMonotone(lo * q, x, q);
    NearestMonotone(x, hi * q, q);
    NearestExact(lo, q);
    NearestExact(hi, q);
  }

  lemma {:induction false} SpacingMonotone(x: nat, y: nat)
    requires x <= y
    ensures Spacing(x) == Spacing(y) || 2 * Spacing(x) <= Spacing(y)
  {
    if y >= 0x100_0000 {
      if x >= 0x100_0000 { SpacingMonotone(x / 2, y / 2); }
    }
  }

  lemma {:induction false} SpacingBound(f: nat, n: nat)
    requires f < 0x100_0000 * Pow2(n)
    ensures Spacing(f) <= Pow2(n)
  {
    if f >= 0x100_0000 { SpacingBound(f / 2, n - 1); }
  }

  lemma ToFloatMonotone(x: nat, y: nat)
    requires x <= y
    ensures ToFloat(x) <= ToFloat(y)
  {
    var q, q' := Spacing(x), Spacing(y);
    SpacingMonotone(x, y);
    if q == q' {
      NearestMonotone(x, y, q);
      MultiplyMonotone(Nearest(x, q), Nearest(y, q), q);
    } else {
      NearestBetween(0, x, 0x100_0000, q);
      MultiplyMonotone(Nearest(x, q), 0x100_0000, q);
      NearestMonotone(0x80_0000 * q', y, q');
      NearestExact(0x80_0000, q');
      MultiplyMonotone(0x80_0000, Nearest(y, q'), q');
    }
  }

  /** A 52-bit fraction converts to float within 2^27 and does not pass 2^52. */
  lemma ToFloatError(f: nat)
    requires f < 0x10_0000_0000_0000
    ensures f - 0x800_0000 <= ToFloat(f) <= f + 0x800_0000 && ToFloat(f) <= 0x10_0000_0000_0000
  {
    var q := Spacing(f);
    PowersUsed();
    SpacingBound(f, 28);
    NearestError(f, q);
    NearestBetween(0, f, 0x100_0000, q);
    MultiplyMonotone(Nearest(f, q), 0x100_0000, q);
  }

  lemma SignificandRange(f: nat)
    requires f < 0x10_0000_0000_0000
    ensures 0x80_0000 <= Significand(f) <= 0x100_0000
  {
    ToFloatError(f);
    NearestBetween(0x80_0000, 0x10_0000_0000_0000 + ToFloat(f), 0x100_0000, 0x2000_0000);
  }

  lemma SignificandMonotone(f: nat, f': nat)
    requires f <= f'
    ensures Significand(f) <= Significand(f')
  {
    ToFloatMonotone(f, f');
    NearestMonotone(0x10_0000_0000_0000 + ToFloat(f), 0x10_0000_0000_0000 + ToFloat(f'), 0x2000_0000);
  }

  // ----- monotonicity of narrowing -----

  /** Each exponent's results lie between a lower pattern and the next exponent's lower pattern. */
  function Floor(e: nat): nat {
    if e <= 873 then 0
    else if e <= 896 then Pow2(e - 874)
    else if e <= 1151 then (e - 896) * 0x80_0000
    else 0x7f80_0000
  }

  lemma SubnormalRange(s: nat, k: nat)
    requires 0x80_0000 <= s <= 0x100_0000 && 1 <= k <= 23
    ensures Pow2(23 - k) <= Nearest(s, Pow2(k)) <= Pow2(24 - k)
  {
    PowersUsed();
    hide Nearest, Pow2;
    Pow2Add(23 - k, k);
    Pow2Add(24 - k, k);
    NearestBetween(Pow2(23 - k), s, Pow2(24 - k), Pow2(k));
  }

  lemma ScaledRange(s: nat, e: nat)
    requires 0x80_0000 <= s <= 0x100_0000 && 874 <= e <= 1150
    ensures Floor(e) <= Scaled(s, e - 1023) <= Floor(e + 1)
  {
    PowersUsed();
    hide Nearest, Pow2;
    if e < 897 {
      SubnormalRange(s, 897 - e);
    }
  }

  lemma {:induction false} FloorMonotone(e: nat, e': nat)
    requires e <= e'
    ensures Floor(e) <= Floor(e')
  {
    PowersUsed();
    hide Pow2;
    if 874 <= e <= 896 {
      Pow2Monotone(e - 874, if e' <= 896 then e' - 874 else 22);
      Pow2Monotone(22, 23);
    }
  }

  predicate Finite(e: nat, f: nat) {
    e < 0x7ff && f < 0x10_0000_0000_0000
  }

  lemma NarrowRange(e: nat, f: nat)
    requires Finite(e, f)
    ensures Floor(e) <= NarrowMagnitude(e, f) <= Floor(e + 1)
  {
    if 874 <= e <= 1150 {
      SignificandRange(f);
      ScaledRange(Significand(f), e);
    }
    assert Pow2(0) == 1;
  }

  lemma ScaledMonotone(s: nat, s': nat, unbiased: int)
    requires s <= s' && -149 <= unbiased <= 127
    ensures Scaled(s, unbiased) <= Scaled(s', unbiased)
  {
    if unbiased < -126 { NearestMonotone(s, s', Pow2(-126 - unbiased)); }
  }

  /** Narrowing keeps the order of magnitudes, from zero through both subnormal ranges to infinity. */
  lemma NarrowMagnitudeMonotone(e: nat, f: nat, e': nat, f': nat)
    requires Finite(e, f) && (Finite(e', f') || (e' == 0x7ff && f' == 0))
    requires e < e' || (e == e' && f <= f')
    ensures NarrowMagnitude(e, f) <= NarrowMagnitude(e', f')
  {
    if e == e' {
      SignificandMonotone(f, f');
      if 874 <= e <= 1150 { ScaledMonotone(Significand(f), Significand(f'), e - 1023); }
    } else {
      NarrowRange(e, f);
      if Finite(e', f') { NarrowRange(e', f'); }
      FloorMonotone(e + 1, e');
    }
  }

  lemma NarrowMagnitudeBound(e: nat, f: nat)
    requires e < 0x800 && f < 0x10_0000_0000_0000
    ensures NarrowMagnitude(e, f) <= 0x7fc0_0000
  {
    if e < 0x7ff {
      NarrowRange(e, f);
      FloorMonotone(e + 1, 0x7ff);
    }
  }

  /** spvDoubleToFloat */
  function Narrow(b: Bits64): Bits32 {
    NarrowMagnitudeBound(Exponent64(b), Fraction64(b));
    Sign64(b) * 0x8000_0000 + NarrowMagnitude(Exponent64(b), Fraction64(b))
  }

  lemma PayloadBound(f: nat, h: nat)
    requires h <= 22 && Pow2(h) <= f < 2 * Pow2(h)
    ensures (f - Pow2(h)) * Pow2(52 - h) < 0x10_0000_0000_0000
  {
    PowersUsed();
    hide Pow2;
    Pow2Add(h, 52 - h);
    MultiplyMonotone(f - Pow2(h) + 1, Pow2(h), Pow2(52 - h));
    Distribute(f - Pow2(h), 1, Pow2(52 - h));
  }

  /** spvFloatToDouble */
  function Widen(b: Bits32): Bits64 {
    var p := WidenParts(Exponent32(b), Fraction32(b));
    Sign32(b) * 0x8000_0000_0000_0000 + p.0 * 0x10_0000_0000_0000 + p.1
  }

  // ----- values -----

  lemma MagnitudeBelow(p: nat, e: nat, f: nat)
    requires f < p
    ensures Magnitude(p, e, f) < p * Pow2(e)
  {
    if e > 0 {
      assert Pow2(e) == 2 * Pow2(e - 1);
      hide Pow2;
      MultiplyMonotone(p + f + 1, 2 * p, Pow2(e - 1));
      Distribute(p + f, 1, Pow2(e - 1));
      Associate(p, 2, Pow2(e - 1));
    }
  }

  /** Exponent-then-fraction order is the order of values. */
  lemma MagnitudeOrder(p: nat, e: nat, f: nat, e': nat, f': nat)
    requires f < p && f' < p
    ensures Magnitude(p, e, f) <= Magnitude(p, e', f') <==> e < e' || (e == e' && f <= f')
  {
    if e < e' {
      MagnitudeStrict(p, e, f, e', f');
    } else if e' < e {
      MagnitudeStrict(p, e', f', e, f);
    } else if e > 0 {
      if f <= f' {
        MultiplyMonotone(p + f, p + f', Pow2(e - 1));
      } else {
        MultiplyMonotone(p + f' + 1, p + f, Pow2(e - 1));
      }
    }
  }

  lemma MagnitudeStrict(p: nat, e: nat, f: nat, e': nat, f': nat)
    requires f < p && f' < p && e < e'
    ensures Magnitude(p, e, f) < Magnitude(p, e', f')
  {
    MagnitudeBelow(p, e, f);
    Pow2Monotone(e, e' - 1);
    MultiplyMonotone(Pow2(e), Pow2(e' - 1), p);
    MultiplyMonotone(p, p + f', Pow2(e' - 1));
  }

  lemma Fields32(sign: nat, m: nat)
    requires sign <= 1 && m < 0x8000_0000
    ensures var b: Bits32 := sign * 0x8000_0000 + m;
      Sign32(b) == sign && Exponent32(b) == m / 0x80_0000 && Fraction32(b) == m % 0x80_0000
  {
  }

  lemma Fields64(sign: nat, e: nat, f: nat)
    requires sign <= 1 && e < 0x800 && f < 0x10_0000_0000_0000
    ensures var b: Bits64 := sign * 0x8000_0000_0000_0000 + e * 0x10_0000_0000_0000 + f;
      Sign64(b) == sign && Exponent64(b) == e && Fraction64(b) == f
  {
  }

  /** The value of a non-negative float pattern grows with the pattern. */
  lemma PatternOrder(m: nat, m': nat)
    requires m <= m'
    ensures Magnitude(0x80_0000, m / 0x80_0000, m % 0x80_0000) <= Magnitude(0x80_0000, m' / 0x80_0000, m' % 0x80_0000)
  {
    MagnitudeOrder(0x80_0000, m / 0x80_0000, m % 0x80_0000, m' / 0x80_0000, m' % 0x80_0000);
  }

  lemma NarrowValue(b: Bits64)
    ensures var m := NarrowMagnitude(Exponent64(b), Fraction64(b));
      var v: int := Magnitude(0x80_0000, m / 0x80_0000, m % 0x80_0000);
      Value32(Narrow(b)) == if Sign64(b) == 1 then 0 - v else v
  {
    NarrowMagnitudeBound(Exponent64(b), Fraction64(b));
    hide NarrowMagnitude, Magnitude;
    Fields32(Sign64(b), NarrowMagnitude(Exponent64(b), Fraction64(b)));
  }

  lemma NarrowMagnitudeOrder(a: Bits64, b: Bits64)
    requires !IsNaN64(a) && !IsNaN64(b)
    requires Magnitude(0x10_0000_0000_0000, Exponent64(a), Fraction64(a))
          <= Magnitude(0x10_0000_0000_0000, Exponent64(b), Fraction64(b))
    ensures NarrowMagnitude(Exponent64(a), Fraction64(a)) <= NarrowMagnitude(Exponent64(b), Fraction64(b))
  {
    MagnitudeOrder(0x10_0000_0000_0000, Exponent64(a), Fraction64(a), Exponent64(b), Fraction64(b));
    if Exponent64(a) < 0x7ff {
      NarrowMagnitudeMonotone(Exponent64(a), Fraction64(a), Exponent64(b), Fraction64(b));
    }
  }

  /** Narrowing is monotone over all binary64 values, signed, zero, subnormal, huge or infinite. */
  lemma NarrowMonotone(a: Bits64, b: Bits64)
    requires !IsNaN64(a) && !IsNaN64(b) && Value64(a) <= Value64(b)
    ensures Value32(Narrow(a)) <= Value32(Narrow(b))
  {
    var m, n := NarrowMagnitude(Exponent64(a), Fraction64(a)), NarrowMagnitude(Exponent64(b), Fraction64(b));
    NarrowValue(a);
    NarrowValue(b);
    hide NarrowMagnitude, Magnitude;
    if Sign64(a) == 1 && Sign64(b) == 1 {
      NarrowMagnitudeOrder(b, a);
      PatternOrder(n, m);
    } else if Sign64(a) == 0 && Sign64(b) == 0 {
      NarrowMagnitudeOrder(a, b);
      PatternOrder(m, n);
    } else if Sign64(a) == 0 {
      BothZero(a, b);
    }
  }

  /** A non-negative value below a non-positive one: both are zeros. */
  lemma BothZero(a: Bits64, b: Bits64)
    requires Sign64(a) == 0 && Sign64(b) == 1 && Value64(a) <= Value64(b)
    ensures Value32(Narrow(a)) == 0 == Value32(Narrow(b))
  {
    ZeroMagnitude(Exponent64(a), Fraction64(a));
    ZeroMagnitude(Exponent64(b), Fraction64(b));
    NarrowValue(a);
    NarrowValue(b);
  }

  lemma ZeroMagnitude(e: nat, f: nat)
    ensures Magnitude(0x10_0000_0000_0000, e, f) == 0 <==> e == 0 && f == 0
  {
    if e > 0 { MultiplyMonotone(1, 0x10_0000_0000_0000 + f, Pow2(e - 1)); }
  }

  // ----- rounding error of narrowing -----

  /** Distance between naturals. */
  function Distance(a: nat, b: nat): nat {
    if a <= b then b - a else a - b
  }

  lemma DistanceScaled(a: nat, b: nat, q: nat)
    ensures Distance(a * q, b * q) == Distance(a, b) * q
  {
    if a <= b { Distribute(a, b - a, q); } else { Distribute(b, a - b, q); }
  }

  /** The two roundings together lose at most three quarters of a last place. */
  lemma SignificandError(f: nat)
    requires f < 0x10_0000_0000_0000
    ensures 4 * Distance(0x10_0000_0000_0000 + f, Significand(f) * 0x2000_0000) <= 3 * 0x2000_0000
  {
    ToFloatError(f);
    NearestError(0x10_0000_0000_0000 + ToFloat(f), 0x2000_0000);
  }

  /** The value of a result pattern in the normal range, the carry into the next exponent included. */
  lemma NormalValue(e: nat, s: nat)
    requires 897 <= e && 0x80_0000 <= s <= 0x100_0000
    ensures var m := (e - 897) * 0x80_0000 + s;
      Magnitude(0x80_0000, m / 0x80_0000, m % 0x80_0000) == s * Pow2(e - 897)
  {
    if s < 0x100_0000 {
      DivideIs((e - 897) * 0x80_0000 + s, 0x80_0000, e - 896, s - 0x80_0000);
    } else {
      DivideIs((e - 897) * 0x80_0000 + s, 0x80_0000, e - 895, 0);
      Associate(0x80_0000, 2, Pow2(e - 897));
    }
  }

  lemma SubnormalValue(r: nat)
    requires r <= 0x80_0000
    ensures Magnitude(0x80_0000, r / 0x80_0000, r % 0x80_0000) == r
  {
  }

  /** The exact value in binary64 units, and the result in the same units. */
  function Exact(b: Bits64): nat {
    Magnitude(0x10_0000_0000_0000, Exponent64(b), Fraction64(b))
  }

  function Result(b: Bits64): nat {
    var m := NarrowMagnitude(Exponent64(b), Fraction64(b));
    Magnitude(0x80_0000, m / 0x80_0000, m % 0x80_0000) * Pow2(925)
  }

  lemma NormalResult(b: Bits64)
    requires 897 <= Exponent64(b) <= 1150
    ensures Result(b) == Significand(Fraction64(b)) * 0x2000_0000 * Pow2(Exponent64(b) - 1)
  {
    FieldRange(b);
    hide Exponent64, Fraction64, Significand, Pow2;
    var e, s := Exponent64(b), Significand(Fraction64(b));
    SignificandRange(Fraction64(b));
    NormalValue(e, s);
    PowersUsed();
    hide Magnitude;
    Pow2Add(e - 897, 925);
    Pow2Add(29, e - 1);
    Associate(s, Pow2(e - 897), Pow2(925));
    Associate(s, 0x2000_0000, Pow2(e - 1));
  }

  /** A bound in units of one power of two is a bound on the scaled distance. */
  lemma ScaledBound(k: nat, x: nat, y: nat, d: nat, q: nat)
    requires k * Distance(x, y) <= d
    ensures k * Distance(x * q, y * q) <= d * q
  {
    DistanceScaled(x, y, q);
    MultiplyMonotone(k * Distance(x, y), d, q);
    Associate(k, Distance(x, y), q);
  }

  lemma NormalError(b: Bits64)
    requires 897 <= Exponent64(b) <= 1150
    ensures 4 * Distance(Exact(b), Result(b)) <= 3 * Pow2(Exponent64(b) + 28)
  {
    var e, f := Exponent64(b), Fraction64(b);
    NormalResult(b);
    SignificandError(f);
    PowersUsed();
    hide Pow2, Significand, Exponent64, Fraction64, Result, Distance;
    ScaledBound(4, 0x10_0000_0000_0000 + f, Significand(f) * 0x2000_0000, 3 * 0x2000_0000, Pow2(e - 1));
    Pow2Add(29, e - 1);
    Associate(3, 0x2000_0000, Pow2(e - 1));
  }

  lemma SubnormalResult(b: Bits64)
    requires 874 <= Exponent64(b) <= 896
    ensures var e, k := Exponent64(b), 897 - Exponent64(b);
      Result(b) == Nearest(Significand(Fraction64(b)), Pow2(k)) * Pow2(29 + k) * Pow2(e - 1)
      && Pow2(925) == Pow2(29 + k) * Pow2(e - 1)
  {
    FieldRange(b);
    hide Exponent64, Fraction64, Significand, Pow2, Nearest;
    var e, k, s := Exponent64(b), 897 - Exponent64(b), Significand(Fraction64(b));
    SignificandRange(Fraction64(b));
    SubnormalRange(s, k);
    PowersUsed();
    Pow2Monotone(24 - k, 23);
    SubnormalValue(Nearest(s, Pow2(k)));
    hide Magnitude;
    Pow2Add(29 + k, e - 1);
    Associate(Nearest(s, Pow2(k)), Pow2(29 + k), Pow2(e - 1));
  }

  /** Below the normal range a third rounding is added, and the whole stays under seven eighths. */
  lemma SubnormalSignificandError(f: nat, k: nat)
    requires f < 0x10_0000_0000_0000 && 1 <= k <= 23
    ensures 8 * Distance(0x10_0000_0000_0000 + f, Nearest(Significand(f), Pow2(k)) * Pow2(29 + k)) <= 7 * Pow2(29 + k)
  {
    SignificandError(f);
    NearestError(Significand(f), Pow2(k));
    PowersUsed();
    Pow2Add(29, k);
    assert Pow2(k) >= 2;
    hide Pow2, Significand, Nearest;
    Associate(Nearest(Significand(f), Pow2(k)), 0x2000_0000, Pow2(k));
  }

  lemma SubnormalError(b: Bits64)
    requires 874 <= Exponent64(b) <= 896
    ensures 8 * Distance(Exact(b), Result(b)) <= 7 * Pow2(925)
  {
    FieldRange(b);
    hide Pow2, Significand, Exponent64, Fraction64, Result, Distance, Nearest;
    var e, f, k := Exponent64(b), Fraction64(b), 897 - Exponent64(b);
    SubnormalResult(b);
    SubnormalSignificandError(f, k);
    var n := Nearest(Significand(f), Pow2(k));
    ScaledBound(8, 0x10_0000_0000_0000 + f, n * Pow2(29 + k), 7 * Pow2(29 + k), Pow2(e - 1));
    Associate(7, Pow2(29 + k), Pow2(e - 1));
  }

  lemma MagnitudeZero()
    ensures Magnitude(0x80_0000, 0, 0) == 0
  {
  }

  /** Everything narrowed to zero is smaller than the smallest positive float. */
  lemma UnderflowError(b: Bits64)
    requires Exponent64(b) <= 873
    ensures Result(b) == 0 && Exact(b) < Pow2(925)
  {
    FieldRange(b);
    hide Pow2, Exponent64, Fraction64, Magnitude;
    MagnitudeBelow(0x10_0000_0000_0000, Exponent64(b), Fraction64(b));
    PowersUsed();
    MagnitudeZero();
    Pow2Add(52, Exponent64(b));
    Pow2Monotone(52 + Exponent64(b), 925);
  }

  /** One binary32 last place at the argument's size, in units of 2^-1074. */
  function LastPlace(e: nat): nat {
    Pow2(if e < 897 then 925 else e + 28)
  }

  /** Within one last place everywhere below the overflow threshold, and within three quarters of one in
      the normal range. */
  lemma NarrowError(b: Bits64)
    requires Exponent64(b) <= 1150
    ensures Distance(Exact(b), Result(b)) < LastPlace(Exponent64(b))
    ensures Exponent64(b) >= 897 ==> 4 * Distance(Exact(b), Result(b)) <= 3 * LastPlace(Exponent64(b))
  {
    if Exponent64(b) >= 897 {
      NormalError(b);
    } else if Exponent64(b) >= 874 {
      SubnormalError(b);
    } else {
      UnderflowError(b);
    }
  }

  // ----- double rounding -----

  /** The value of the pattern of infinity, 2^128: the least that overflows. */
  function Infinity(): nat {
    Pow2(1202)
  }

  /** What one rounding to the nearest would give: the nearest multiple of the last place, ties to even, and
      infinity where that is no longer a finite float. */
  function RoundedOnce(b: Bits64): nat {
    var r := Nearest(Exact(b), LastPlace(Exponent64(b))) * LastPlace(Exponent64(b));
    if r < Infinity() then r else Infinity()
  }

  /** The fractions the two roundings get wrong: not half-way between two floats, but within half a spacing of
      the half-way point, so that the first rounding lands on it and the second goes to the even side, which
      is the far one. A fraction exactly half a spacing away lands there too, unless the spacing is as coarse
      as the half-way point itself. */
  predicate Misrounded(f: nat) {
    var n, r := f / 0x2000_0000, f % 0x2000_0000;
    r != 0x1000_0000 && NearHalfWay(f) && (r < 0x1000_0000 <==> n % 2 == 1)
  }

  predicate NearHalfWay(f: nat) {
    var d := Distance(f % 0x2000_0000, 0x1000_0000);
    2 * d < Spacing(f) || (2 * d == Spacing(f) && Spacing(f) < 0x1000_0000)
  }

  /** Below the normal range the last place is 2^k times as coarse, and three roundings follow each other; d is
      the distance from the half-way point. The first two land on it when the argument is less than half a
      significand unit away, unless the first one takes it exactly to half a unit: the second then goes to the
      even side, and the half-way point is even for k above 1 and odd for k = 1. */
  predicate LandsBelow(f: nat, k: nat, d: nat) {
    var gap := Distance(d, 0x1000_0000);
    if 2 * gap < Spacing(f) || (2 * gap == Spacing(f) && Spacing(f) < 0x1000_0000) then k > 1 else d < 0x1000_0000
  }

  predicate MisroundedBelow(f: nat, k: nat) {
    var x := 0x10_0000_0000_0000 + f;
    var n, r, half := x / Pow2(29 + k), x % Pow2(29 + k), Pow2(28 + k);
    r != half && LandsBelow(f, k, Distance(r, half)) && (r < half <==> n % 2 == 1)
  }

  /** The arguments narrowing gets wrong, by exponent and fraction: in the lowest binade that does not vanish
      anyway, which the code flushes to zero, all but its lower end. */
  predicate MisroundedAt(e: nat, f: nat) {
    if 897 <= e <= 1150 then Misrounded(f)
    else if 874 <= e <= 896 then MisroundedBelow(f, 897 - e)
    else e == 873 && f != 0
  }

  lemma NearestIs(x: nat, q: nat, m: nat)
    requires q > 0
    ensures Nearest(x, q) == m <==> 2 * Distance(x, m * q) < q || (2 * Distance(x, m * q) == q && m % 2 == 0)
  {
    var n, r := x / q, x % q;
    assert x == n * q + r;
    Distribute(n, 1, q);
    Around(x, q, n, r, m, n * q, m * q);
  }

  lemma Around(x: nat, q: nat, n: nat, r: nat, m: nat, below: nat, at: nat)
    requires q > 0 && n == x / q && r == x % q && r < q && below == n * q && at == m * q && x == below + r
    requires (n + 1) * q == below + q
    ensures Nearest(x, q) == m <==> 2 * Distance(x, at) < q || (2 * Distance(x, at) == q && m % 2 == 0)
  {
    if m < n {
      MultiplyMonotone(m + 1, n, q);
      Distribute(m, 1, q);
      assert at + q <= below;
    } else if m > n + 1 {
      MultiplyMonotone(n + 2, m, q);
      Distribute(n, 2, q);
      assert at >= below + 2 * q;
    } else {
      assert at == if m == n then below else below + q;
    }
  }

  lemma NearestScaled(x: nat, q: nat, c: nat)
    requires q > 0 && c > 0
    ensures q * c > 0 && Nearest(x * c, q * c) == Nearest(x, q)
  {
    var n, r := x / q, x % q;
    assert x == n * q + r;
    Distribute(n * q, r, c);
    Associate(n, q, c);
    LessScaled(r, q, c);
    LessScaled(2 * r, q, c);
    LessScaled(q, 2 * r, c);
    Associate(2, r, c);
    DivideIs(x * c, q * c, n, r * c);
  }

  lemma LessScaled(a: nat, b: nat, c: nat)
    requires c > 0
    ensures a < b <==> a * c < b * c
  {
    if a < b {
      MultiplyMonotone(a + 1, b, c);
      Distribute(a, 1, c);
    } else {
      MultiplyMonotone(b, a, c);
    }
  }

  /** The half-way point as a multiple of a spacing: an even one unless the spacing is 2^28. */
  lemma HalfWayMultiple(n: nat, j: nat) returns (m: nat)
    requires j <= 28
    ensures m * Pow2(j) == n * 0x2000_0000 + 0x1000_0000
    ensures m % 2 == 0 <==> Pow2(j) < 0x1000_0000
  {
    PowersUsed();
    if j == 28 {
      m := 2 * n + 1;
    } else {
      Pow2Add(27 - j, j + 1);
      Pow2Add(1, j);
      Pow2Monotone(j + 1, 28);
      hide Pow2;
      var half := Pow2(27 - j);
      m := 2 * ((2 * n + 1) * half);
      EvenMultiple(2 * n + 1, half, Pow2(j));
    }
  }

  lemma EvenMultiple(a: nat, half: nat, q: nat)
    ensures 2 * (a * half) * q == a * (half * (2 * q)) && 2 * (a * half) % 2 == 0
  {
    Associate(2, a * half, q);
    Associate(a, half, q);
    Associate(half, 2, q);
    Associate(a, 2, half * q);
  }

  lemma ToFloatIs(f: nat, m: nat, q: nat, t: nat)
    requires q > 0 && Spacing(f) == q && t == m * q
    ensures ToFloat(f) == t <==> 2 * Distance(f, t) < q || (2 * Distance(f, t) == q && m % 2 == 0)
  {
    hide Spacing, Nearest, Distance;
    NearestIs(f, q, m);
    SameMultiple(Nearest(f, q), m, q);
  }

  /** The first rounding lands on the half-way point exactly when the fraction is that near to it. */
  lemma LandsHalfWay(f: nat)
    requires f < 0x10_0000_0000_0000
    ensures ToFloat(f) == f / 0x2000_0000 * 0x2000_0000 + 0x1000_0000 <==> NearHalfWay(f)
  {
    var n := f / 0x2000_0000;
    var t := n * 0x2000_0000 + 0x1000_0000;
    assert Distance(f, t) == Distance(f % 0x2000_0000, 0x1000_0000);
    hide Spacing, Nearest, Pow2, ToFloat, Distance;
    var j := SpacingIsPower(f);
    PowersUsed();
    SpacingBound(f, 28);
    if j > 28 { Pow2Monotone(29, j); }
    var m := HalfWayMultiple(n, j);
    ToFloatIs(f, m, Pow2(j), t);
  }

  lemma SameMultiple(a: nat, b: nat, q: nat)
    requires q > 0
    ensures a * q == b * q <==> a == b
  {
    LessScaled(a, b, q);
    LessScaled(b, a, q);
  }

  lemma NearestOffset(n: nat, s: nat)
    requires s < 0x2000_0000
    ensures Nearest(0x10_0000_0000_0000 + (n * 0x2000_0000 + s), 0x2000_0000)
         == 0x80_0000 + n + (if s > 0x1000_0000 || (s == 0x1000_0000 && n % 2 == 1) then 1 else 0)
  {
    DivideIs(0x10_0000_0000_0000 + (n * 0x2000_0000 + s), 0x2000_0000, 0x80_0000 + n, s);
  }

  /** The first rounding stays on its side of the half-way point. */
  lemma ToFloatSide(f: nat)
    requires f < 0x10_0000_0000_0000
    ensures var n, r := f / 0x2000_0000, f % 0x2000_0000; var low := n * 0x2000_0000;
      if r < 0x1000_0000 then low <= ToFloat(f) <= low + 0x1000_0000
      else if r == 0x1000_0000 then ToFloat(f) == f
      else low + 0x1000_0000 <= ToFloat(f) <= low + 0x2000_0000
  {
    hide ToFloat, Pow2;
    var n, r := f / 0x2000_0000, f % 0x2000_0000;
    PowersUsed();
    ToFloatExact(n, 29);
    ToFloatExact(2 * n + 1, 28);
    ToFloatExact(n + 1, 29);
    if r < 0x1000_0000 {
      ToFloatMonotone(n * 0x2000_0000, f);
      ToFloatMonotone(f, n * 0x2000_0000 + 0x1000_0000);
    } else if r > 0x1000_0000 {
      ToFloatMonotone(n * 0x2000_0000 + 0x1000_0000, f);
      ToFloatMonotone(f, (n + 1) * 0x2000_0000);
    }
  }

  /** The significand is the correctly rounded one exactly when the fraction is not one of those. */
  lemma SignificandOnce(f: nat)
    requires f < 0x10_0000_0000_0000
    ensures Significand(f) == Nearest(0x10_0000_0000_0000 + f, 0x2000_0000) <==> !Misrounded(f)
  {
    var n, r, t := f / 0x2000_0000, f % 0x2000_0000, ToFloat(f);
    ToFloatSide(f);
    LandsHalfWay(f);
    hide Nearest, ToFloat, Spacing, Distance;
    NearestOffset(n, r);
    if t == n * 0x2000_0000 + 0x2000_0000 {
      NearestOffset(n + 1, 0);
    } else {
      NearestOffset(n, t - n * 0x2000_0000);
    }
  }

  // ----- below the normal range -----

  /** The significand, read off the bits of the fraction. */
  lemma SignificandBits(f: nat)
    requires f < 0x10_0000_0000_0000
    ensures var n, r := f / 0x2000_0000, f % 0x2000_0000;
      Significand(f) == 0x80_0000 + n + (if (if NearHalfWay(f) then n % 2 == 1 else r > 0x1000_0000) then 1 else 0)
  {
    var n, t := f / 0x2000_0000, ToFloat(f);
    ToFloatSide(f);
    LandsHalfWay(f);
    hide Nearest, ToFloat, Spacing;
    if t == n * 0x2000_0000 + 0x2000_0000 {
      NearestOffset(n + 1, 0);
    } else {
      NearestOffset(n, t - n * 0x2000_0000);
    }
  }

  /** Which fractions the first two roundings take to the significand 2^23 + u. */
  lemma SignificandAt(f: nat, u: nat, k: nat)
    requires f < 0x10_0000_0000_0000 && (u % 2 == 0 <==> k > 1)
    ensures Significand(f) == 0x80_0000 + u <==> LandsBelow(f, k, Distance(f, u * 0x2000_0000))
  {
    var n, r := f / 0x2000_0000, f % 0x2000_0000;
    SignificandBits(f);
    PowersUsed();
    SpacingBound(f, 28);
    hide Spacing, Significand, Pow2;
    LandsByStep(f, n, r, u, k, Spacing(f));
  }

  /** The same by the step the fraction lies in: at its lower end, at its upper end, or farther away. */
  lemma LandsByStep(f: nat, n: nat, r: nat, u: nat, k: nat, q: nat)
    requires f == n * 0x2000_0000 + r && r < 0x2000_0000 && q == Spacing(f) <= 0x1000_0000
    requires u % 2 == 0 <==> k > 1
    ensures LandsBelow(f, k, Distance(f, u * 0x2000_0000))
         <==> u == n + (if (if NearHalfWay(f) then n % 2 == 1 else r > 0x1000_0000) then 1 else 0)
  {
    hide Spacing;
    assert f % 0x2000_0000 == r;
    var d := Distance(f, u * 0x2000_0000);
    if u == n {
      assert d == r;
    } else if u == n + 1 {
      assert d == 0x2000_0000 - r;
    } else {
      assert d >= 0x2000_0000;
    }
  }

  lemma ExactSignificand(w: nat)
    requires w <= 0x80_0000
    ensures Significand(w * 0x2000_0000) == 0x80_0000 + w
  {
    PowersUsed();
    ToFloatExact(w, 29);
    hide ToFloat, Nearest;
    NearestExact(0x80_0000 + w, 0x2000_0000);
  }

  /** Where the significand lies when the argument is in the nth step of 2^k, and on which side of its middle. */
  lemma SignificandStep(f: nat, low: nat, mid: nat, high: nat)
    requires low <= mid <= high <= 0x80_0000 && low * 0x2000_0000 <= f <= high * 0x2000_0000
    ensures 0x80_0000 + low <= Significand(f) <= 0x80_0000 + high
    ensures f <= mid * 0x2000_0000 ==> Significand(f) <= 0x80_0000 + mid
    ensures f >= mid * 0x2000_0000 ==> Significand(f) >= 0x80_0000 + mid
  {
    ExactSignificand(low);
    ExactSignificand(mid);
    ExactSignificand(high);
    SignificandMonotone(low * 0x2000_0000, f);
    SignificandMonotone(f, high * 0x2000_0000);
    if f <= mid * 0x2000_0000 { SignificandMonotone(f, mid * 0x2000_0000); }
    if f >= mid * 0x2000_0000 { SignificandMonotone(mid * 0x2000_0000, f); }
  }

  /** Rounding by comparison with the half-way point. */
  lemma NearestByHalf(x: nat, q: nat, half: nat, n: nat, low: nat)
    requires q == 2 * half > 0 && low == n * q && low <= x <= low + q
    ensures Nearest(x, q) == n + (if x > low + half || (x == low + half && n % 2 == 1) then 1 else 0)
  {
    Distribute(n, 1, q);
    if x < low + q { DivideIs(x, q, n, x - low); } else { DivideIs(x, q, n + 1, 0); }
  }

  lemma Halves(k: nat)
    requires k >= 1
    ensures Pow2(k) == 2 * Pow2(k - 1) && Pow2(29 + k) == 2 * Pow2(28 + k) == Pow2(k) * 0x2000_0000
    ensures Pow2(28 + k) == Pow2(k - 1) * 0x2000_0000 && (Pow2(k - 1) % 2 == 0 <==> k > 1)
  {
    PowersUsed();
    Pow2Add(k, 29);
    Pow2Add(k - 1, 29);
    if k > 1 { assert Pow2(k - 1) == 2 * Pow2(k - 2); }
  }

  /** The steps lie between 2^23 and 2^24 significand units. */
  lemma StepBounds(x: nat, k: nat, n: nat, r: nat)
    requires 0x10_0000_0000_0000 <= x < 0x20_0000_0000_0000 && 1 <= k <= 23
    requires x == n * Pow2(29 + k) + r && r < Pow2(29 + k)
    ensures 0x80_0000 <= n * Pow2(k) && (n + 1) * Pow2(k) == n * Pow2(k) + Pow2(k) <= 0x100_0000
  {
    PowersUsed();
    Pow2Add(23 - k, 29 + k);
    Pow2Add(24 - k, 29 + k);
    Pow2Add(23 - k, k);
    Pow2Add(24 - k, k);
    Pow2Add(1, 52);
    hide Pow2;
    QuotientBetween(x, Pow2(29 + k), n, r, Pow2(23 - k), Pow2(24 - k));
    MultiplyMonotone(Pow2(23 - k), n, Pow2(k));
    MultiplyMonotone(n + 1, Pow2(24 - k), Pow2(k));
    Distribute(n, 1, Pow2(k));
  }

  lemma QuotientBetween(x: nat, q: nat, n: nat, r: nat, low: nat, high: nat)
    requires x == n * q + r && r < q && low * q <= x < high * q
    ensures low <= n < high
  {
    Distribute(n, 1, q);
    if n < low { MultiplyMonotone(n + 1, low, q); }
    if n >= high { MultiplyMonotone(high, n, q); }
  }

  /** In terms of the step and where in it the argument lies. */
  lemma BelowParts(f: nat, k: nat, n: nat, r: nat, low: nat)
    requires f < 0x10_0000_0000_0000 && 1 <= k <= 23 && r < Pow2(29 + k) && low == n * Pow2(k)
    requires 0x10_0000_0000_0000 + f == n * Pow2(29 + k) + r == low * 0x2000_0000 + r
    requires 0x80_0000 <= low && low + Pow2(k) <= 0x100_0000
    ensures Nearest(Significand(f), Pow2(k)) == Nearest(0x10_0000_0000_0000 + f, Pow2(29 + k))
         <==> !(r != Pow2(28 + k) && LandsBelow(f, k, Distance(r, Pow2(28 + k))) && (r < Pow2(28 + k) <==> n % 2 == 1))
  {
    Halves(k);
    var half, h, s := Pow2(28 + k), Pow2(k - 1), Significand(f);
    MidParity(n, k, low, h);
    hide Pow2, Nearest, Significand, LandsBelow;
    var mid := low + h - 0x80_0000;
    SignificandStep(f, low - 0x80_0000, mid, low + 2 * h - 0x80_0000);
    SignificandAt(f, mid, k);
    assert Distance(f, mid * 0x2000_0000) == Distance(r, half);
    hide Distance;
    NearestByHalf(0x10_0000_0000_0000 + f, Pow2(29 + k), half, n, n * Pow2(29 + k));
    NearestByHalf(s, Pow2(k), h, n, low);
  }

  lemma MidParity(n: nat, k: nat, low: nat, h: nat)
    requires k >= 1 && h == Pow2(k - 1) && low == n * Pow2(k) && low >= 0x80_0000
    ensures (low + h - 0x80_0000) % 2 == 0 <==> k > 1
  {
    Halves(k);
    hide Pow2;
    Associate(n, 2, h);
    assert low == 2 * (n * h);
  }

  /** The three roundings are one exactly when the fraction is not one of those. */
  lemma BelowOnce(f: nat, k: nat)
    requires f < 0x10_0000_0000_0000 && 1 <= k <= 23
    ensures Nearest(Significand(f), Pow2(k)) == Nearest(0x10_0000_0000_0000 + f, Pow2(29 + k))
         <==> !MisroundedBelow(f, k)
  {
    var n, r := Division(0x10_0000_0000_0000 + f, Pow2(29 + k));
    var low := StepLow(0x10_0000_0000_0000 + f, k, n, r);
    BelowParts(f, k, n, r, low);
    hide Pow2, Nearest, Significand, LandsBelow, Distance;
  }

  lemma Division(x: nat, q: nat) returns (n: nat, r: nat)
    requires q > 0
    ensures n == x / q && r == x % q && x == n * q + r && r < q
  {
    n, r := x / q, x % q;
  }

  lemma StepLow(x: nat, k: nat, n: nat, r: nat) returns (low: nat)
    requires 0x10_0000_0000_0000 <= x < 0x20_0000_0000_0000 && 1 <= k <= 23
    requires x == n * Pow2(29 + k) + r && r < Pow2(29 + k)
    ensures low == n * Pow2(k) && x == low * 0x2000_0000 + r && 0x80_0000 <= low && low + Pow2(k) <= 0x100_0000
  {
    low := n * Pow2(k);
    Halves(k);
    StepBounds(x, k, n, r);
    hide Pow2;
    Associate(n, Pow2(k), 0x2000_0000);
  }

  // ----- the whole range -----

  /** The same in units c times as fine: the result is the one rounding's exactly when the significand is, and
      exactly then within half a place. */
  lemma Lifted(x: nat, q: nat, s: nat, c: nat, right: bool)
    requires q > 0 && c > 0 && (s == Nearest(x, q) <==> right) && (2 * (x % q) == q ==> right)
    ensures q * c > 0
    ensures s * q * c == Nearest(x * c, q * c) * (q * c) <==> right
    ensures 2 * Distance(x * c, s * q * c) <= q * c <==> right
  {
    HalfOrTie(x, q, s);
    hide Nearest, Distance;
    OnceScaled(x, q, s, c);
    HalfScaled(x, s * q, q, c);
  }

  lemma OnceScaled(x: nat, q: nat, s: nat, c: nat)
    requires q > 0 && c > 0
    ensures q * c > 0
    ensures s * q * c == Nearest(x * c, q * c) * (q * c) <==> s == Nearest(x, q)
  {
    NearestScaled(x, q, c);
    hide Nearest;
    Associate(s, q, c);
    SameMultiple(s, Nearest(x, q), q * c);
  }

  lemma HalfScaled(x: nat, y: nat, q: nat, c: nat)
    requires c > 0
    ensures 2 * Distance(x * c, y * c) <= q * c <==> 2 * Distance(x, y) <= q
  {
    DistanceScaled(x, y, c);
    hide Distance;
    Associate(2, Distance(x, y), c);
    LessScaled(q, 2 * Distance(x, y), c);
  }

  /** Within half a step, a number is the nearest or there is a tie. */
  lemma HalfOrTie(x: nat, q: nat, s: nat)
    requires q > 0
    ensures s == Nearest(x, q) ==> 2 * Distance(x, s * q) <= q
    ensures 2 * Distance(x, s * q) <= q ==> s == Nearest(x, q) || 2 * (x % q) == q
  {
    NearestIs(x, q, s);
    hide Nearest;
    if 2 * Distance(x, s * q) == q { HalfRemainder(x, q, s); }
    hide Distance;
  }

  lemma HalfRemainder(x: nat, q: nat, s: nat)
    requires q > 0 && 2 * Distance(x, s * q) == q
    ensures 2 * (x % q) == q
  {
    if x >= s * q {
      DivideIs(x, q, s, x - s * q);
    } else {
      Distribute(s - 1, 1, q);
      DivideIs(x, q, s - 1, x - (s - 1) * q);
    }
  }

  lemma ExactScaled(b: Bits64)
    requires 874 <= Exponent64(b)
    ensures Exact(b) == (0x10_0000_0000_0000 + Fraction64(b)) * Pow2(Exponent64(b) - 1)
    ensures Exponent64(b) >= 897 ==> LastPlace(Exponent64(b)) == 0x2000_0000 * Pow2(Exponent64(b) - 1)
  {
    hide Pow2, Exponent64, Fraction64;
    PowersUsed();
    Pow2Add(29, Exponent64(b) - 1);
  }

  /** No single rounding overflows at these exponents. */
  lemma NoOverflow(b: Bits64)
    requires Exponent64(b) <= 1150
    ensures RoundedOnce(b) == Nearest(Exact(b), LastPlace(Exponent64(b))) * LastPlace(Exponent64(b))
  {
    var e, place := Exponent64(b), LastPlace(Exponent64(b));
    FieldRange(b);
    ExactIs(b);
    MagnitudeBelow(0x10_0000_0000_0000, e, Fraction64(b));
    hide Magnitude, Exponent64, Fraction64, Exact, Nearest, Pow2;
    PlaceBound(e);
    NearestBetween(0, Exact(b), 0x100_0000, place);
    MultiplyMonotone(Nearest(Exact(b), place), 0x100_0000, place);
    hide LastPlace;
  }

  lemma PlaceBound(e: nat)
    requires e <= 1150
    ensures 0x10_0000_0000_0000 * Pow2(e) <= 0x100_0000 * LastPlace(e) <= Infinity()
  {
    PowersUsed();
    hide Pow2;
    var top := if e < 897 then 925 else e + 28;
    Pow2Add(24, top);
    Pow2Add(52, e);
    Pow2Monotone(52 + e, 24 + top);
    Pow2Monotone(24 + top, 1202);
  }

  lemma ExactIs(b: Bits64)
    ensures Exact(b) == Magnitude(0x10_0000_0000_0000, Exponent64(b), Fraction64(b))
  {
  }

  lemma NormalTie(f: nat)
    ensures 2 * ((0x10_0000_0000_0000 + f) % 0x2000_0000) == 0x2000_0000 ==> !Misrounded(f)
  {
    hide Spacing;
  }

  lemma NormalOnce(b: Bits64)
    requires 897 <= Exponent64(b) <= 1150
    ensures Result(b) == RoundedOnce(b) <==> !Misrounded(Fraction64(b))
    ensures 2 * Distance(Exact(b), Result(b)) <= LastPlace(Exponent64(b)) <==> !Misrounded(Fraction64(b))
  {
    FieldRange(b);
    NormalResult(b);
    ExactScaled(b);
    NoOverflow(b);
    var f := Fraction64(b);
    NormalTie(f);
    hide Pow2, Significand, Nearest, Misrounded, Exponent64, Fraction64, Result, Exact, LastPlace, Distance,
      RoundedOnce;
    SignificandOnce(f);
    Lifted(0x10_0000_0000_0000 + f, 0x2000_0000, Significand(f), Pow2(Exponent64(b) - 1), !Misrounded(f));
  }

  lemma SubnormalOnce(b: Bits64)
    requires 874 <= Exponent64(b) <= 896
    ensures Result(b) == RoundedOnce(b) <==> !MisroundedBelow(Fraction64(b), 897 - Exponent64(b))
    ensures 2 * Distance(Exact(b), Result(b)) <= LastPlace(Exponent64(b))
         <==> !MisroundedBelow(Fraction64(b), 897 - Exponent64(b))
  {
    FieldRange(b);
    SubnormalResult(b);
    ExactScaled(b);
    NoOverflow(b);
    var f, k := Fraction64(b), 897 - Exponent64(b);
    Halves(k);
    BelowOnce(f, k);
    assert LastPlace(Exponent64(b)) == Pow2(925);
    hide Pow2, Significand, Nearest, Exponent64, Fraction64, Result, Exact, LastPlace, Distance, RoundedOnce,
      LandsBelow;
    var s := Nearest(Significand(f), Pow2(k));
    Lifted(0x10_0000_0000_0000 + f, Pow2(29 + k), s, Pow2(Exponent64(b) - 1), !MisroundedBelow(f, k));
  }

  /** What is flushed to zero: rightly below half of the smallest float and at half of it, wrongly above. */
  lemma FlushedOnce(b: Bits64)
    requires Exponent64(b) <= 873
    ensures Result(b) == RoundedOnce(b) <==> !MisroundedAt(Exponent64(b), Fraction64(b))
    ensures 2 * Distance(Exact(b), Result(b)) <= LastPlace(Exponent64(b))
         <==> !MisroundedAt(Exponent64(b), Fraction64(b))
  {
    var e, f := Exponent64(b), Fraction64(b);
    FieldRange(b);
    UnderflowError(b);
    NoOverflow(b);
    FlushedHalf(e, f);
    ExactIs(b);
    NearestZero(Exact(b), LastPlace(e));
    hide Pow2, Exponent64, Fraction64, Magnitude, Exact, Result, RoundedOnce, Nearest;
    if Nearest(Exact(b), Pow2(925)) > 0 { MultiplyMonotone(1, Nearest(Exact(b), Pow2(925)), Pow2(925)); }
  }

  lemma NearestZero(x: nat, q: nat)
    requires q > 0
    ensures Nearest(x, q) == 0 <==> 2 * x <= q
  {
    NearestIs(x, q, 0);
    hide Nearest;
  }

  lemma FlushedHalf(e: nat, f: nat)
    requires e <= 873 && f < 0x10_0000_0000_0000
    ensures 2 * Magnitude(0x10_0000_0000_0000, e, f) <= Pow2(925) <==> !(e == 873 && f != 0)
    ensures 2 * Magnitude(0x10_0000_0000_0000, e, f) == Pow2(925) ==> e == 873
  {
    PowersUsed();
    Pow2Add(1, 924);
    if e == 873 {
      Pow2Add(52, 872);
      HalfPlus(f, Pow2(872));
      hide Pow2;
    } else {
      MagnitudeBelow(0x10_0000_0000_0000, e, f);
      hide Pow2, Magnitude;
      Pow2Add(52, e);
      Pow2Monotone(52 + e, 924);
    }
  }

  lemma HalfPlus(f: nat, c: nat)
    requires c > 0
    ensures (0x10_0000_0000_0000 + f) * c >= 0x10_0000_0000_0000 * c
    ensures (0x10_0000_0000_0000 + f) * c == 0x10_0000_0000_0000 * c <==> f == 0
  {
    Distribute(0x10_0000_0000_0000, f, c);
    if f > 0 { MultiplyMonotone(1, f, c); }
  }

  /** From 2^128 up both are infinity. */
  lemma OverflowOnce(b: Bits64)
    requires Exponent64(b) >= 1151 && !IsNaN64(b)
    ensures Result(b) == RoundedOnce(b)
  {
    var e, f := Exponent64(b), Fraction64(b);
    InfinityResult(b);
    ExactScaled(b);
    PowersUsed();
    hide Pow2, Exponent64, Fraction64, Exact, Result, Nearest;
    var x, c := 0x10_0000_0000_0000 + f, Pow2(e - 1);
    NearestScaled(x, 0x2000_0000, c);
    NearestBetween(0x80_0000, x, x, 0x2000_0000);
    MultiplyMonotone(0x80_0000, Nearest(x, 0x2000_0000), LastPlace(e));
    Pow2Add(23, e + 28);
    Pow2Monotone(1202, e + 51);
  }

  lemma InfinityResult(b: Bits64)
    requires Exponent64(b) >= 1151 && !IsNaN64(b)
    ensures Result(b) == Infinity()
  {
    PowersUsed();
    hide Exponent64, Fraction64, Pow2, Scaled, Significand;
    assert NarrowMagnitude(Exponent64(b), Fraction64(b)) == 0x7f80_0000;
    assert Result(b) == Magnitude(0x80_0000, 255, 0) * Pow2(925);
    hide Result, NarrowMagnitude;
    Pow2Add(23, 254);
    Pow2Add(277, 925);
  }

  /** Narrowing rounds correctly for every bit pattern but those: then and only then is the result the one a
      single rounding gives. A finite result that is not is more than half a last place off. */
  lemma CorrectlyRoundedIff(b: Bits64)
    requires !IsNaN64(b)
    ensures Result(b) == RoundedOnce(b) <==> !MisroundedAt(Exponent64(b), Fraction64(b))
    ensures Exponent64(b) <= 1150 ==>
      (2 * Distance(Exact(b), Result(b)) <= LastPlace(Exponent64(b)) <==> !MisroundedAt(Exponent64(b), Fraction64(b)))
  {
    if Exponent64(b) <= 873 {
      FlushedOnce(b);
    } else if Exponent64(b) <= 896 {
      SubnormalOnce(b);
    } else if Exponent64(b) <= 1150 {
      NormalOnce(b);
    } else {
      OverflowOnce(b);
    }
    hide Exponent64, Fraction64, Result, Exact, RoundedOnce, LastPlace, Distance, Misrounded, MisroundedBelow, IsNaN64;
  }

  /** A concrete argument: 1.5 and a little, whose result is more than half a last place away. */
  const MISROUNDED: Bits64 := 0x3ff8_0000_1000_0001

  lemma DoubleRounding()
    ensures Misrounded(Fraction64(MISROUNDED)) && Result(MISROUNDED) != RoundedOnce(MISROUNDED)
    ensures 2 * Distance(Exact(MISROUNDED), Result(MISROUNDED)) > LastPlace(Exponent64(MISROUNDED))
  {
    var f := 0x8_0000_1000_0001;
    assert Exponent64(MISROUNDED) == 1023 && Fraction64(MISROUNDED) == f;
    PowersUsed();
    SpacingBound(f, 28);
    SpacingLower(f, 28);
    assert Misrounded(f);
    CorrectlyRoundedIff(MISROUNDED);
    hide *;
  }

  /** Just above the middle of two subnormal floats, narrowed to the lower one. */
  const MISROUNDED_BELOW: Bits64 := 0x3800_0000_2000_0001

  lemma SubnormalRounding()
    ensures MisroundedBelow(Fraction64(MISROUNDED_BELOW), 1)
    ensures Result(MISROUNDED_BELOW) != RoundedOnce(MISROUNDED_BELOW)
    ensures 2 * Distance(Exact(MISROUNDED_BELOW), Result(MISROUNDED_BELOW)) > LastPlace(Exponent64(MISROUNDED_BELOW))
  {
    var f := 0x2000_0001;
    assert Exponent64(MISROUNDED_BELOW) == 896 && Fraction64(MISROUNDED_BELOW) == f;
    PowersUsed();
    Halves(1);
    SpacingBound(f, 28);
    assert MisroundedBelow(f, 1) by {
      assert (0x10_0000_0000_0000 + f) / 0x4000_0000 == 0x40_0000 && (0x10_0000_0000_0000 + f) % 0x4000_0000 == f;
      hide Spacing, Pow2;
    }
    CorrectlyRoundedIff(MISROUNDED_BELOW);
    hide *;
  }

  /** A little above half of the smallest float, flushed to zero where one rounding gives the smallest float. */
  const FLUSHED: Bits64 := 0x3690_0000_0000_0001

  lemma FlushedWrongly()
    ensures Result(FLUSHED) == 0 && RoundedOnce(FLUSHED) == Pow2(925)
    ensures 2 * Distance(Exact(FLUSHED), Result(FLUSHED)) > LastPlace(Exponent64(FLUSHED))
  {
    hide Result, RoundedOnce, Exact, LastPlace, Pow2;
    assert Exponent64(FLUSHED) == 873 && Fraction64(FLUSHED) == 1;
    hide *;
    FlushedBinade(FLUSHED);
  }

  /** So it is with every value strictly between half and all of the smallest float. */
  lemma FlushedBinade(b: Bits64)
    requires Exponent64(b) == 873 && Fraction64(b) != 0
    ensures Result(b) == 0 && RoundedOnce(b) == Pow2(925)
    ensures 2 * Distance(Exact(b), Result(b)) > LastPlace(Exponent64(b))
  {
    UnderflowError(b);
    NoOverflow(b);
    FlushedOnce(b);
    hide Exponent64, Fraction64, Result, RoundedOnce, Exact, Pow2, Nearest, Magnitude, Distance,
      Misrounded, MisroundedBelow;
    NearestBetween(0, Exact(b), 1, Pow2(925));
  }

  lemma {:induction false} SpacingLower(f: nat, n: nat)
    requires f >= 0x80_0000 * Pow2(n)
    ensures Spacing(f) >= Pow2(n)
  {
    if n > 0 { SpacingLower(f / 2, n - 1); }
  }

  // ----- widening -----

  lemma WidenFields(b: Bits32)
    ensures var p := WidenParts(Exponent32(b), Fraction32(b));
      Sign64(Widen(b)) == Sign32(b) && Exponent64(Widen(b)) == p.0 && Fraction64(Widen(b)) == p.1
  {
    FieldRange32(b);
    hide Sign32, Exponent32, Fraction32, WidenParts;
    var p := WidenParts(Exponent32(b), Fraction32(b));
    Fields64(Sign32(b), p.0, p.1);
  }

  lemma FieldRange32(b: Bits32)
    ensures Sign32(b) <= 1 && Exponent32(b) < 0x100 && Fraction32(b) < 0x80_0000
    ensures b == Sign32(b) * 0x8000_0000 + Exponent32(b) * 0x80_0000 + Fraction32(b)
  {
  }

  lemma WidenNormal(e: nat, f: nat)
    requires 1 <= e < 0xff && f < 0x80_0000
    ensures Magnitude(0x10_0000_0000_0000, e + 896, f * 0x2000_0000) == Magnitude(0x80_0000, e, f) * Pow2(925)
  {
    PowersUsed();
    hide Pow2;
    Pow2Add(29, e + 895);
    Pow2Add(e - 1, 925);
    Associate(0x80_0000 + f, Pow2(e - 1), Pow2(925));
    Associate(0x80_0000 + f, 0x2000_0000, Pow2(e + 895));
  }

  lemma WidenSubnormal(f: nat, h: nat)
    requires h <= 22 && Pow2(h) <= f
    ensures Magnitude(0x10_0000_0000_0000, h + 874, (f - Pow2(h)) * Pow2(52 - h)) == f * Pow2(925)
  {
    PowersUsed();
    hide Pow2;
    Pow2Add(h, 52 - h);
    Distribute(f - Pow2(h), Pow2(h), Pow2(52 - h));
    Pow2Add(52 - h, h + 873);
    Associate(f, Pow2(52 - h), Pow2(h + 873));
  }

  /** Widening loses nothing: every finite float keeps its exact value, subnormals and signed zeros too. */
  lemma WidenExact(b: Bits32)
    requires Exponent32(b) < 0xff
    ensures Value64(Widen(b)) == Value32(b) * Pow2(925) && Sign64(Widen(b)) == Sign32(b)
  {
    var e, f := Exponent32(b), Fraction32(b);
    WidenFields(b);
    FieldRange32(b);
    hide Pow2, Log2, Sign32, Exponent32, Fraction32, Sign64, Exponent64, Fraction64, Widen;
    if e > 0 {
      WidenNormal(e, f);
    } else if f > 0 {
      Log2Small(f);
      WidenSubnormal(f, Log2(f));
    }
  }

  /** Infinities stay infinities of the same sign, and NaNs stay NaNs, both ways. */
  lemma Specials(b: Bits32, d: Bits64)
    ensures Exponent32(b) == 0xff ==>
      Exponent64(Widen(b)) == 0x7ff && (Fraction64(Widen(b)) == 0 <==> Fraction32(b) == 0)
      && Sign64(Widen(b)) == Sign32(b)
    ensures Exponent64(d) == 0x7ff ==>
      Exponent32(Narrow(d)) == 0xff && (Fraction32(Narrow(d)) == 0 <==> Fraction64(d) == 0)
      && Sign32(Narrow(d)) == Sign64(d)
  {
    WidenFields(b);
    NarrowMagnitudeBound(Exponent64(d), Fraction64(d));
    Fields32(Sign64(d), NarrowMagnitude(Exponent64(d), Fraction64(d)));
  }

  // ----- narrowing after widening -----

  lemma {:induction false} SpacingIsPower(f: nat) returns (j: nat)
    ensures Spacing(f) == Pow2(j)
  {
    if f < 0x100_0000 {
      j := 0;
    } else {
      j := SpacingIsPower(f / 2);
      j := j + 1;
    }
  }

  /** A power of two times at most 24 bits converts to float exactly. */
  lemma ToFloatExact(n: nat, k: nat)
    requires n < 0x100_0000
    ensures ToFloat(n * Pow2(k)) == n * Pow2(k)
  {
    hide Pow2, Spacing, Nearest, ToFloat;
    var x := n * Pow2(k);
    var j := SpacingIsPower(x);
    SpacingAtMost(n, k, x, j);
    Pow2Add(k - j, j);
    Associate(n, Pow2(k - j), Pow2(j));
    ToFloatMultiple(n * Pow2(k - j), Pow2(j), x);
  }

  lemma SpacingAtMost(n: nat, k: nat, x: nat, j: nat)
    requires n < 0x100_0000 && x == n * Pow2(k) && Spacing(x) == Pow2(j)
    ensures j <= k
  {
    hide Pow2, Spacing;
    MultiplyMonotone(n + 1, 0x100_0000, Pow2(k));
    Distribute(n, 1, Pow2(k));
    SpacingBound(x, k);
    if j > k {
      Pow2Monotone(k + 1, j);
      Pow2Add(1, k);
      PowersUsed();
    }
  }

  lemma ToFloatMultiple(m: nat, q: nat, x: nat)
    requires q > 0 && x == m * q && Spacing(x) == q
    ensures ToFloat(x) == x
  {
    hide Spacing, Nearest;
    NearestExact(m, q);
  }

  lemma NarrowWidenedNormal(e: nat, f: nat)
    requires 1 <= e < 0xff && f < 0x80_0000
    ensures NarrowMagnitude(e + 896, f * 0x2000_0000) == e * 0x80_0000 + f
  {
    PowersUsed();
    ToFloatExact(f, 29);
    hide ToFloat, Nearest;
    NearestExact(0x80_0000 + f, 0x2000_0000);
    assert Significand(f * 0x2000_0000) == 0x80_0000 + f;
  }

  lemma NarrowWidenedSubnormal(f: nat, h: nat)
    requires h <= 22 && Pow2(h) <= f < 0x80_0000
    ensures NarrowMagnitude(h + 874, (f - Pow2(h)) * Pow2(52 - h)) == f
  {
    PowersUsed();
    ToFloatExact(f - Pow2(h), 52 - h);
    hide Pow2, ToFloat, Nearest;
    Pow2Add(h, 52 - h);
    Distribute(f - Pow2(h), Pow2(h), Pow2(52 - h));
    Pow2Add(23 - h, 29);
    Associate(f, Pow2(23 - h), 0x2000_0000);
    NearestExact(f * Pow2(23 - h), 0x2000_0000);
    assert Significand((f - Pow2(h)) * Pow2(52 - h)) == f * Pow2(23 - h);
    NearestExact(f, Pow2(23 - h));
  }

  /** Narrowing undoes widening on every float that is not a NaN. */
  lemma NarrowWiden(b: Bits32)
    requires !IsNaN32(b)
    ensures Narrow(Widen(b)) == b
  {
    var e, f := Exponent32(b), Fraction32(b);
    WidenFields(b);
    FieldRange32(b);
    hide Pow2, Log2, Sign32, Exponent32, Fraction32, Sign64, Exponent64, Fraction64, Widen, Significand, Scaled;
    if 0 < e < 0xff {
      NarrowWidenedNormal(e, f);
    } else if e == 0 && f > 0 {
      Log2Small(f);
      NarrowWidenedSubnormal(f, Log2(f));
    }
  }
}

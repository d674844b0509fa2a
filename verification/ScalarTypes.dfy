/** Scalar types: the largest finite value of a small float format, built as the bits of a binary64 number,
    and integer bounds (overlay/vllm/scalar_type.py). */
module ScalarTypes {
  import opened Wrappers
  import opened Bits

  datatype NanRepr = NoNans | Ieee754 | ExtdRangeMaxMin

  datatype ScalarType = ScalarType(
    exponent: int, mantissa: int, signed: bool, bias: int, finiteValuesOnly: bool, nanRepr: NanRepr)

  datatype Error = AssertionError | ValueError

  function SizeBits(t: ScalarType): int { t.exponent + t.mantissa + if t.signed then 1 else 0 }

  /** What the constructors of floating point types assert. */
  predicate IsFloat(t: ScalarType) { t.exponent > 0 && t.mantissa > 0 }

  /** What the constructors of integer types make. */
  predicate IsInteger(t: ScalarType) { t.exponent == 0 && t.mantissa >= 0 }

  // ---------------------------------------------------------------------------------------
  // Binary64 (section 3.4 of IEEE 754-2019)
  // ---------------------------------------------------------------------------------------

  const TWO52: nat := 0x10_0000_0000_0000
  const TWO63: nat := 0x8000_0000_0000_0000

  lemma Pow2Of52()
    ensures Pow2(10) == 1024 && Pow2(11) == 2048 && Pow2(52) == TWO52 && Pow2(63) == TWO63
  {
    assert Pow2(5) == 32;
    Pow2Add(5, 5);
    Pow2Add(10, 1);
    Pow2Add(11, 2);
    Pow2Add(13, 13);
    Pow2Add(26, 26);
    Pow2Add(52, 11);
  }

  /** The number 64 bits stand for, when they stand for one. */
  function Decode(raw: nat): Option<real> {
    var exponent, fraction := raw / TWO52 % 2048, raw % TWO52;
    if exponent == 2047 then None
    else
      var magnitude := if exponent == 0 then Times(fraction, P(-1074)) else Times(TWO52 + fraction, P(exponent - 1075));
      Some(if raw / TWO63 % 2 == 1 then -magnitude else magnitude)
  }

  // ---------------------------------------------------------------------------------------
  // The codes of a small format
  // ---------------------------------------------------------------------------------------

  datatype Code = Code(negative: bool, exponent: nat, fraction: nat)

  function ExponentBias(t: ScalarType): int
    requires IsFloat(t)
  {
    Pow2(t.exponent - 1) - 1
  }

  /** Codes that are neither infinities nor NaNs, by the NaN convention of the type. */
  predicate Finite(t: ScalarType, c: Code)
    requires IsFloat(t)
  {
    && c.exponent < Pow2(t.exponent) && c.fraction < Pow2(t.mantissa)
    && match t.nanRepr
       case NoNans => true
       case Ieee754 => c.exponent != Pow2(t.exponent) - 1
       case ExtdRangeMaxMin => !(c.exponent == Pow2(t.exponent) - 1 && c.fraction == Pow2(t.mantissa) - 1)
  }

  function Magnitude(t: ScalarType, c: Code): real
    requires IsFloat(t)
  {
    if c.exponent == 0 then Times(c.fraction, P(1 - ExponentBias(t) - t.mantissa))
    else Times(Pow2(t.mantissa) + c.fraction, P(c.exponent - ExponentBias(t) - t.mantissa))
  }

  function CodeValue(t: ScalarType, c: Code): real
    requires IsFloat(t)
  {
    if c.negative then -Magnitude(t, c) else Magnitude(t, c)
  }

  ghost predicate IsLargestFinite(t: ScalarType, r: Option<real>)
    requires IsFloat(t)
  {
    && r.Some?
    && (exists c :: Finite(t, c) && CodeValue(t, c) == r.value)
    && (forall c :: Finite(t, c) ==> CodeValue(t, c) <= r.value)
  }

  ghost predicate IsSmallestFinite(t: ScalarType, r: Option<real>)
    requires IsFloat(t)
  {
    && r.Some?
    && (exists c :: Finite(t, c) && CodeValue(t, c) == r.value)
    && (forall c :: Finite(t, c) ==> r.value <= CodeValue(t, c))
  }

  // ---------------------------------------------------------------------------------------
  // The code under study
  // ---------------------------------------------------------------------------------------

  function MaxMantissa(t: ScalarType): nat
    requires IsFloat(t)
  {
    Pow2(t.mantissa) - if t.nanRepr == ExtdRangeMaxMin then 2 else 1
  }

  function MaxExponent(t: ScalarType): nat
    requires IsFloat(t)
  {
    Pow2(t.exponent) - if t.nanRepr == ExtdRangeMaxMin || t.nanRepr == NoNans then 1 else 2
  }

  /** `_floating_point_max_int`. */
  function FloatingPointMaxInt(t: ScalarType): Result<nat, Error>
    requires IsFloat(t)
  {
    if !(t.mantissa <= 52 && t.exponent <= 11) then Err(AssertionError)
    else if (t.nanRepr == ExtdRangeMaxMin || t.nanRepr == NoNans) && !(t.exponent < 11) then Err(AssertionError)
    else
      ExponentFits(t);
      var maxExponentDouble: nat := MaxExponent(t) - ExponentBias(t) + (Pow2(10) - 1);
      Ok(BitOr(Shl(MaxMantissa(t), 52 - t.mantissa), Shl(maxExponentDouble, 52)))
  }

  predicate Representable(t: ScalarType) {
    t.mantissa <= 52 && t.exponent <= 11 && (t.nanRepr != Ieee754 ==> t.exponent < 11)
  }

  lemma ExponentFits(t: ScalarType)
    requires IsFloat(t) && Representable(t)
    ensures 0 < MaxExponent(t) - ExponentBias(t) + (Pow2(10) - 1) < 2047
    ensures MaxExponent(t) < Pow2(t.exponent)
    ensures MaxExponent(t) > 0 <==> !(t.exponent == 1 && t.nanRepr == Ieee754)
  {
    Pow2Of52();
    assert Pow2(t.exponent) == 2 * Pow2(t.exponent - 1);
    Pow2Monotone(t.exponent - 1, if t.nanRepr == Ieee754 then 10 else 9);
    assert Pow2(10) == 2 * Pow2(9);
    if t.exponent > 1 { assert Pow2(t.exponent - 1) == 2 * Pow2(t.exponent - 2); }
  }

  function DecodedMax(t: ScalarType): Option<real>
    requires IsFloat(t)
  {
    var raw := FloatingPointMaxInt(t);
    if raw.Ok? then Decode(raw.value) else None
  }

  /** `_raw_min`: the same bits with the sign bit set, for signed types. */
  function DecodedMin(t: ScalarType): Option<real>
    requires IsFloat(t)
  {
    var raw := FloatingPointMaxInt(t);
    if t.signed && raw.Ok? then Decode(BitOr(raw.value, Shl(1, 63))) else None
  }

  // ---------------------------------------------------------------------------------------
  // The fields do not overlap
  // ---------------------------------------------------------------------------------------

  lemma MantissaFits(t: ScalarType)
    requires IsFloat(t) && t.mantissa <= 52
    ensures Shl(MaxMantissa(t), 52 - t.mantissa) < TWO52 && MaxMantissa(t) < Pow2(t.mantissa)
    ensures TWO52 + Shl(MaxMantissa(t), 52 - t.mantissa) == Shl(Pow2(t.mantissa) + MaxMantissa(t), 52 - t.mantissa)
  {
    var k := 52 - t.mantissa;
    assert MaxMantissa(t) < Pow2(t.mantissa);
    hide Pow2, MaxMantissa;
    Pow2Of52();
    Pow2Add(t.mantissa, k);
    var m, w, p := MaxMantissa(t), Pow2(t.mantissa), Pow2(k);
    SumOfProducts(w, m, p);
    ProductMonotone(m, w, p);
  }

  lemma SumOfProducts(a: nat, b: nat, p: nat)
    ensures (a + b) * p == a * p + b * p
  {
  }

  lemma ProductMonotone(a: nat, b: nat, p: nat)
    requires a < b && p > 0
    ensures a * p < b * p
  {
  }

  /** The raw bits hold the exponent and the mantissa in separate fields. */
  lemma MaxIntFields(t: ScalarType)
    requires IsFloat(t)
    ensures FloatingPointMaxInt(t).Ok? <==> Representable(t)
    ensures FloatingPointMaxInt(t).Ok? <==>
              t.mantissa <= 52 && t.exponent <= 11 && (t.nanRepr != Ieee754 ==> t.exponent < 11)
    ensures
      FloatingPointMaxInt(t).Ok? ==>
        var raw := FloatingPointMaxInt(t).value;
        && raw < TWO63
        && raw % TWO52 == Shl(MaxMantissa(t), 52 - t.mantissa)
        && raw / TWO52 == MaxExponent(t) - ExponentBias(t) + 1023
  {
    if Representable(t) {
      ExponentFits(t);
      MantissaFits(t);
      Pow2Of52();
      var d: nat := MaxExponent(t) - ExponentBias(t) + (Pow2(10) - 1);
      var f := Shl(MaxMantissa(t), 52 - t.mantissa);
      assert FloatingPointMaxInt(t).value == BitOr(f, Shl(d, 52));
      hide BitOr, MaxMantissa, MaxExponent, ExponentBias, FloatingPointMaxInt, Pow2;
      OrOfDisjoint(f, d, 52);
      assert Shl(d, 52) == d * TWO52;
      TwoFields(f, d);
    }
  }

  lemma TwoFields(f: nat, d: nat)
    requires f < TWO52 && d < 2048
    ensures f + d * TWO52 < TWO63 && (f + d * TWO52) % TWO52 == f && (f + d * TWO52) / TWO52 == d
  {
  }

  // ---------------------------------------------------------------------------------------
  // Codes are ordered like their fields
  // ---------------------------------------------------------------------------------------

  /** Magnitudes, counted in the smallest positive one. */
  function Steps(mantissa: nat, c: Code): nat {
    if c.exponent == 0 then c.fraction else Shl(Pow2(mantissa) + c.fraction, c.exponent - 1)
  }

  lemma MagnitudeInSteps(t: ScalarType, c: Code)
    requires IsFloat(t)
    ensures Magnitude(t, c) == Times(Steps(t.mantissa, c), P(1 - ExponentBias(t) - t.mantissa))
  {
    if c.exponent > 0 {
      var low := 1 - ExponentBias(t) - t.mantissa;
      assert c.exponent - ExponentBias(t) - t.mantissa == low + (c.exponent - 1);
      TimesShift(Pow2(t.mantissa) + c.fraction, low, c.exponent - 1);
    }
  }

  lemma {:induction false} ShlMonotone(x: nat, y: nat, j: nat, k: nat)
    requires x <= y && j <= k
    ensures Shl(x, j) <= Shl(y, k)
    decreases k - j
  {
    if j == k {
      assert x * Pow2(j) <= y * Pow2(j);
    } else {
      ShlMonotone(x, y, j, k - 1);
      ShlNext(y, k - 1);
    }
  }

  lemma StepsMonotone(mantissa: nat, c: Code, d: Code)
    requires c.fraction < Pow2(mantissa) && d.fraction < Pow2(mantissa)
    requires c.exponent < d.exponent || (c.exponent == d.exponent && c.fraction <= d.fraction)
    ensures Steps(mantissa, c) <= Steps(mantissa, d)
  {
    var w := Pow2(mantissa);
    if c.exponent == d.exponent {
      if c.exponent > 0 { ShlMonotone(w + c.fraction, w + d.fraction, c.exponent - 1, c.exponent - 1); }
    } else if c.exponent == 0 {
      ShlMonotone(w, w + d.fraction, 0, d.exponent - 1);
      assert Shl(w, 0) == w;
    } else {
      ShlMonotone(w + c.fraction, 2 * w, c.exponent - 1, c.exponent - 1);
      assert Shl(2 * w, c.exponent - 1) == Shl(w, c.exponent) by {
        ShlNext(w, c.exponent - 1);
        Reassociate(w, Pow2(c.exponent - 1));
      }
      ShlMonotone(w, w + d.fraction, c.exponent, d.exponent - 1);
    }
  }

  lemma Reassociate(w: nat, p: nat)
    ensures 2 * w * p == 2 * (w * p)
  {
  }

  lemma TimesNotNegative(w: nat, p: real)
    requires p > 0.0
    ensures Times(w, p) >= 0.0
  {
  }

  lemma TopCodeIsLargest(t: ScalarType, c: Code)
    requires IsFloat(t) && Finite(t, c)
    ensures Magnitude(t, c) <= Magnitude(t, TopCode(t)) && Magnitude(t, TopCode(t)) >= 0.0 && Magnitude(t, c) >= 0.0
  {
    var top := TopCode(t);
    var unit := P(1 - ExponentBias(t) - t.mantissa);
    TopIsFinite(t);
    MagnitudeInSteps(t, c);
    MagnitudeInSteps(t, top);
    assert c.exponent < top.exponent || (c.exponent == top.exponent && c.fraction <= top.fraction);
    StepsMonotone(t.mantissa, c, top);
    TimesMonotone(Steps(t.mantissa, c), Steps(t.mantissa, top), unit);
    TimesNotNegative(Steps(t.mantissa, c), unit);
  }

  function TopCode(t: ScalarType): Code
    requires IsFloat(t)
  {
    Code(false, MaxExponent(t), MaxMantissa(t))
  }

  lemma TopIsFinite(t: ScalarType)
    requires IsFloat(t)
    ensures Finite(t, TopCode(t)) && Finite(t, TopCode(t).(negative := true))
  {
    assert Pow2(t.exponent) == 2 * Pow2(t.exponent - 1) && Pow2(t.mantissa) == 2 * Pow2(t.mantissa - 1);
  }

  // ---------------------------------------------------------------------------------------
  // The decoded maximum
  // ---------------------------------------------------------------------------------------

  /** What the built bits stand for: the top code read as a normal number. */
  lemma DecodedMaxIs(t: ScalarType)
    requires IsFloat(t) && Representable(t)
    ensures DecodedMax(t) ==
              Some(Times(Pow2(t.mantissa) + MaxMantissa(t), P(MaxExponent(t) - ExponentBias(t) - t.mantissa)))
    ensures DecodedMin(t) == if t.signed then Some(-DecodedMax(t).value) else None
  {
    hide Times, P, Pow2, Shl, BitOr, MaxMantissa, MaxExponent, ExponentBias, FloatingPointMaxInt, Decode;
    MaxIntFields(t);
    ExponentFits(t);
    MantissaFits(t);
    Pow2Of52();
    var raw := FloatingPointMaxInt(t).value;
    var e := MaxExponent(t) - ExponentBias(t);
    var f := Shl(MaxMantissa(t), 52 - t.mantissa);
    TimesShift(Pow2(t.mantissa) + MaxMantissa(t), e - 52, 52 - t.mantissa);
    assert (e - 52) + (52 - t.mantissa) == e - t.mantissa;
    OrOfDisjoint(raw, 1, 63);
    ShlOne(63);
    DecodeFields(raw, e + 1023, f);
  }

  /** A binary64 number with a normal exponent, and the same with the sign bit set. */
  lemma DecodeFields(raw: nat, d: nat, f: nat)
    requires raw < TWO63 && raw / TWO52 == d && raw % TWO52 == f && 0 < d < 2047
    ensures Decode(raw) == Some(Times(TWO52 + f, P(d - 1075)))
    ensures Decode(raw + TWO63) == Some(-Times(TWO52 + f, P(d - 1075)))
  {
    hide Times, P;
    SignApart(raw);
    assert raw / TWO63 % 2 == 0;
  }

  lemma SignApart(raw: nat)
    requires raw < TWO63
    ensures (raw + TWO63) % TWO52 == raw % TWO52
    ensures (raw + TWO63) / TWO52 % 2048 == raw / TWO52 % 2048
    ensures (raw + TWO63) / TWO63 % 2 == 1
  {
    assert TWO63 == 2048 * TWO52;
    assert (raw + TWO63) / TWO52 == raw / TWO52 + 2048;
  }

  /** The built maximum is the largest finite value of the format exactly when the format has an exponent
      besides zero that is not taken by infinities. */
  lemma MaxIsLargestFinite(t: ScalarType)
    requires IsFloat(t) && Representable(t)
    ensures IsLargestFinite(t, DecodedMax(t)) <==> !(t.exponent == 1 && t.nanRepr == Ieee754)
  {
    hide DecodedMax, MaxMantissa, MaxExponent, ExponentBias, Pow2, P, Times, Magnitude, Finite;
    var top := TopCode(t);
    TopIsFinite(t);
    forall c | Finite(t, c) ensures CodeValue(t, c) <= Magnitude(t, top) { TopCodeIsLargest(t, c); }
    if t.exponent == 1 && t.nanRepr == Ieee754 {
      SubnormalTop(t);
    } else {
      NormalTop(t);
      assert CodeValue(t, top) == DecodedMax(t).value;
    }
  }

  lemma NormalTop(t: ScalarType)
    requires IsFloat(t) && Representable(t) && !(t.exponent == 1 && t.nanRepr == Ieee754)
    ensures DecodedMax(t) == Some(Magnitude(t, TopCode(t)))
  {
    hide DecodedMax, MaxMantissa, MaxExponent, ExponentBias, Pow2, P, Times;
    ExponentFits(t);
    DecodedMaxIs(t);
  }

  /** With one exponent bit and IEEE conventions every finite code is subnormal, and the code reads the top
      one as if it were normal. */
  lemma SubnormalTop(t: ScalarType)
    requires IsFloat(t) && Representable(t) && t.exponent == 1 && t.nanRepr == Ieee754
    ensures DecodedMax(t).Some? && DecodedMax(t).value > Magnitude(t, TopCode(t))
  {
    hide *;
    OneExponentBit(t);
    MaxOfOneBit(t);
    TopExceeds(MaxMantissa(t), t.mantissa);
  }

  lemma MaxOfOneBit(t: ScalarType)
    requires IsFloat(t) && Representable(t) && t.exponent == 1 && t.nanRepr == Ieee754
    ensures DecodedMax(t) == Some(Times(MaxMantissa(t) + 1 + MaxMantissa(t), P(-t.mantissa)))
  {
    assert t.mantissa >= 0;
    hide *;
    OneExponentBit(t);
    DecodedMaxIs(t);
    TimesAt(Pow2(t.mantissa) + MaxMantissa(t), MaxMantissa(t) + 1 + MaxMantissa(t),
            MaxExponent(t) - ExponentBias(t) - t.mantissa, -t.mantissa);
  }

  lemma TimesAt(a: nat, b: nat, e: int, f: int)
    requires a == b && e == f
    ensures Times(a, P(e)) == Times(b, P(f))
  {
  }

  lemma TopExceeds(m: nat, bits: int)
    ensures Times(m + 1 + m, P(-bits)) > Times(m, P(1 - bits))
  {
    hide *;
    PNext(-bits);
    assert -bits + 1 == 1 - bits;
    TimesDouble(m, P(-bits));
    TimesMonotone(2 * m, m + 1 + m, P(-bits));
  }

  lemma OneExponentBit(t: ScalarType)
    requires IsFloat(t) && t.exponent == 1 && t.nanRepr == Ieee754
    ensures ExponentBias(t) == 0 && MaxExponent(t) == 0 && Pow2(t.mantissa) == MaxMantissa(t) + 1
    ensures Magnitude(t, TopCode(t)) == Times(MaxMantissa(t), P(1 - t.mantissa))
  {
    assert Pow2(1) == 2;
    hide Times, P;
  }

  /** The minimum of a signed type is the negated maximum, and the smallest finite value in the same cases. */
  lemma MinIsSmallestFinite(t: ScalarType)
    requires IsFloat(t) && Representable(t) && t.signed
    ensures DecodedMin(t).Some? && DecodedMax(t).Some? && DecodedMin(t).value == -DecodedMax(t).value
    ensures IsSmallestFinite(t, DecodedMin(t)) <==> !(t.exponent == 1 && t.nanRepr == Ieee754)
  {
    DecodedMaxIs(t);
    MaxIsLargestFinite(t);
    var r := DecodedMax(t).value;
    hide DecodedMax, DecodedMin, Finite, Magnitude;
    Mirror(t, r);
  }

  function Mirrored(c: Code): Code { c.(negative := !c.negative) }

  lemma MirroredValue(t: ScalarType, c: Code)
    requires IsFloat(t)
    ensures CodeValue(t, Mirrored(c)) == -CodeValue(t, c) && (Finite(t, Mirrored(c)) <==> Finite(t, c))
    ensures Mirrored(Mirrored(c)) == c
  {
    hide Times, P, Pow2, ExponentBias;
  }

  lemma Mirror(t: ScalarType, r: real)
    requires IsFloat(t)
    ensures IsLargestFinite(t, Some(r)) <==> IsSmallestFinite(t, Some(-r))
  {
    hide CodeValue, Finite, Mirrored;
    if IsLargestFinite(t, Some(r)) {
      var c :| Finite(t, c) && CodeValue(t, c) == r;
      MirroredValue(t, c);
      forall d | Finite(t, d)
        ensures -r <= CodeValue(t, d)
      {
        MirroredValue(t, d);
      }
    }
    if IsSmallestFinite(t, Some(-r)) {
      var c :| Finite(t, c) && CodeValue(t, c) == -r;
      MirroredValue(t, c);
      forall d | Finite(t, d)
        ensures CodeValue(t, d) <= r
      {
        MirroredValue(t, d);
      }
    }
  }

  /** The formats of the OCP Microscaling specification (section 5.3), and float8_e4m3fn. */
  lemma KnownMaxima()
    ensures DecodedMax(ScalarType(2, 1, true, 0, true, NoNans)) == Some(6.0)
    ensures DecodedMax(ScalarType(2, 3, true, 0, true, NoNans)) == Some(7.5)
    ensures DecodedMax(ScalarType(3, 2, true, 0, true, NoNans)) == Some(28.0)
    ensures DecodedMax(ScalarType(4, 3, true, 0, true, ExtdRangeMaxMin)) == Some(448.0)
  {
    assert Pow2(1) == 2 && Pow2(2) == 4 && Pow2(3) == 8 && Pow2(4) == 16;
    KnownMax(ScalarType(2, 1, true, 0, true, NoNans), 3, 1);
    KnownMax(ScalarType(2, 3, true, 0, true, NoNans), 15, -1);
    KnownMax(ScalarType(3, 2, true, 0, true, NoNans), 7, 2);
    KnownMax(ScalarType(4, 3, true, 0, true, ExtdRangeMaxMin), 14, 5);
    assert P(1) == 2.0 && P(-1) == 0.5 && P(2) == 4.0;
    PNext(2);
    PNext(3);
    PNext(4);
    hide P, DecodedMax, Pow2;
  }

  lemma KnownMax(t: ScalarType, w: nat, e: int)
    requires IsFloat(t) && Representable(t)
    requires w == Pow2(t.mantissa) + MaxMantissa(t) && e == MaxExponent(t) - ExponentBias(t) - t.mantissa
    ensures DecodedMax(t) == Some(Times(w, P(e)))
  {
    hide *;
    DecodedMaxIs(t);
  }

  // ---------------------------------------------------------------------------------------
  // Integer types
  // ---------------------------------------------------------------------------------------

  /** `_raw_max` of an integer type. */
  function IntegerMax(t: ScalarType): Result<nat, Error>
    requires IsInteger(t)
  {
    if SizeBits(t) < 64 || (SizeBits(t) == 64 && t.signed) then Ok(Shl(1, t.mantissa) - 1) else Err(AssertionError)
  }

  /** `_raw_min` of an integer type. */
  function IntegerMin(t: ScalarType): Result<int, Error>
    requires IsInteger(t)
  {
    if t.signed && SizeBits(t) > 64 then Err(AssertionError)
    else if t.signed then Ok(0 - Shl(1, SizeBits(t) - 1))
    else Ok(0)
  }

  /** The value a stored pattern stands for: two's complement if signed, less the bias. */
  function StoredValue(t: ScalarType, pattern: nat): int
    requires IsInteger(t)
  {
    (if t.signed && pattern >= Pow2(t.mantissa) then pattern - Pow2(t.mantissa + 1) else pattern) - t.bias
  }

  predicate IsPattern(t: ScalarType, pattern: nat)
    requires IsInteger(t)
  {
    pattern < Pow2(SizeBits(t))
  }

  /** When the code gives the bounds of an integer type: a signed type of up to 64 bits has both, an unsigned one of
      64 bits or more has no maximum. */
  lemma IntegerBoundsExist(t: ScalarType)
    requires IsInteger(t)
    ensures IntegerMax(t).Ok? <==> t.mantissa < 64
    ensures IntegerMin(t).Ok? <==> (t.signed ==> t.mantissa < 64)
  {
  }

  /** `max()` and `min()` bound what the patterns of the type stand for, and both are reached. */
  lemma IntegerBoundsAreReached(t: ScalarType)
    requires IsInteger(t) && IntegerMax(t).Ok? && IntegerMin(t).Ok?
    ensures forall x: nat :: IsPattern(t, x) ==>
              IntegerMin(t).value - t.bias <= StoredValue(t, x) <= IntegerMax(t).value - t.bias
    ensures exists x: nat :: IsPattern(t, x) && StoredValue(t, x) == IntegerMax(t).value - t.bias
    ensures exists x: nat :: IsPattern(t, x) && StoredValue(t, x) == IntegerMin(t).value - t.bias
  {
    ShlOne(t.mantissa);
    var top: nat := Pow2(t.mantissa) - 1;
    var bottom: nat := if t.signed then Pow2(t.mantissa) else 0;
    assert Pow2(t.mantissa + 1) == 2 * Pow2(t.mantissa);
    hide Pow2, Shl;
    assert IsPattern(t, top) && StoredValue(t, top) == IntegerMax(t).value - t.bias;
    assert IsPattern(t, bottom) && StoredValue(t, bottom) == IntegerMin(t).value - t.bias;
  }
}

/** Packing a scalar type into an integer id, and the registry that maps ids back
    (overlay/vllm/scalar_type.py). */
module ScalarTypeIds {
  import opened Wrappers
  import opened Bits
  import opened ScalarTypes

  function ReprValue(n: NanRepr): nat {
    match n
    case NoNans => 0
    case Ieee754 => 1
    case ExtdRangeMaxMin => 2
  }

  function Bit(b: bool): nat { if b then 1 else 0 }

  /** The id, as a number written with one digit per field. */
  function IdOf(t: ScalarType): nat {
    var tail := Bit(t.finiteValuesOnly) + 2 * ReprValue(t.nanRepr);
    Mod(t.exponent, 0x100) + 0x100 * (
      Mod(t.mantissa, 0x100) + 0x100 * (
        Bit(t.signed) + 2 * (
          Mod(t.bias, 0x1_0000_0000) + 0x1_0000_0000 * tail)))
  }

  /** Where the fields lie: the exponent in bits 0 to 7, the mantissa in 8 to 15, the sign in 16, the bias in 17 to
      48, in two's complement, finite values only in 49, and the kind of NaN from 50 on. */
  lemma FieldsLie(t: ScalarType)
    ensures IdOf(t) ==
            t.exponent % 0x100 + t.mantissa % 0x100 * 0x100 + (if t.signed then 0x1_0000 else 0)
            + t.bias % 0x1_0000_0000 * 0x2_0000 + (if t.finiteValuesOnly then 0x2_0000_0000_0000 else 0)
            + match t.nanRepr
              case NoNans => 0
              case Ieee754 => 0x4_0000_0000_0000
              case ExtdRangeMaxMin => 0x8_0000_0000_0000
  {
    ModIs(t.exponent, 0x100);
    ModIs(t.mantissa, 0x100);
    ModIs(t.bias, 0x1_0000_0000);
    hide Mod;
  }

  lemma ModIs(x: int, n: nat)
    requires n > 0
    ensures Mod(x, n) == x % n
  {
  }

  /** Equal as far as the field widths of the id can tell. */
  predicate Congruent(s: ScalarType, t: ScalarType) {
    && Mod(s.exponent, 0x100) == Mod(t.exponent, 0x100)
    && Mod(s.mantissa, 0x100) == Mod(t.mantissa, 0x100)
    && s.signed == t.signed
    && Mod(s.bias, 0x1_0000_0000) == Mod(t.bias, 0x1_0000_0000)
    && s.finiteValuesOnly == t.finiteValuesOnly
    && s.nanRepr == t.nanRepr
  }

  predicate InRange(t: ScalarType) {
    0 <= t.exponent < 0x100 && 0 <= t.mantissa < 0x100 && -0x8000_0000 <= t.bias < 0x8000_0000
  }

  lemma ModIsSmall(x: int, n: nat)
    requires n > 0
    ensures Mod(x, n) < n
  {
  }

  lemma Digit(a: nat, x: nat, b: nat, y: nat, n: nat)
    requires a < n && b < n && a + n * x == b + n * y
    ensures a == b && x == y
  {
    Difference(n, x, y);
    SmallMultiple(n, x - y, b - a);
  }

  /** Two types share an id exactly when their fields agree within the widths, and an id fits 58 bits. */
  lemma IdsTellFieldsApart(s: ScalarType, t: ScalarType)
    ensures IdOf(s) == IdOf(t) <==> Congruent(s, t)
    ensures IdOf(s) < 0x400_0000_0000_0000
  {
    var a, b, c, d := Mod(s.exponent, 0x100), Mod(s.mantissa, 0x100), Bit(s.signed), Mod(s.bias, 0x1_0000_0000);
    var e, f, g, h := Mod(t.exponent, 0x100), Mod(t.mantissa, 0x100), Bit(t.signed), Mod(t.bias, 0x1_0000_0000);
    var m, n := Bit(s.finiteValuesOnly) + 2 * ReprValue(s.nanRepr), Bit(t.finiteValuesOnly) + 2 * ReprValue(t.nanRepr);
    assert m == n <==> s.finiteValuesOnly == t.finiteValuesOnly && s.nanRepr == t.nanRepr;
    assert c == g <==> s.signed == t.signed;
    assert c < 2 && g < 2 && m < 6 && n < 6;
    assert IdOf(s) == a + 0x100 * (b + 0x100 * (c + 2 * (d + 0x1_0000_0000 * m)));
    assert IdOf(t) == e + 0x100 * (f + 0x100 * (g + 2 * (h + 0x1_0000_0000 * n)));
    hide *;
    ModIsSmall(s.exponent, 0x100); ModIsSmall(s.mantissa, 0x100); ModIsSmall(s.bias, 0x1_0000_0000);
    ModIsSmall(t.exponent, 0x100); ModIsSmall(t.mantissa, 0x100); ModIsSmall(t.bias, 0x1_0000_0000);
    DigitsDetermine(a, b, c, d, m, e, f, g, h, n);
    CongruentIs(s, t);
  }

  lemma CongruentIs(s: ScalarType, t: ScalarType)
    ensures Congruent(s, t) <==>
            && Mod(s.exponent, 0x100) == Mod(t.exponent, 0x100)
            && Mod(s.mantissa, 0x100) == Mod(t.mantissa, 0x100)
            && s.signed == t.signed
            && Mod(s.bias, 0x1_0000_0000) == Mod(t.bias, 0x1_0000_0000)
            && s.finiteValuesOnly == t.finiteValuesOnly
            && s.nanRepr == t.nanRepr
  {
  }

  lemma DigitsDetermine(a: nat, b: nat, c: nat, d: nat, m: nat, e: nat, f: nat, g: nat, h: nat, n: nat)
    requires a < 0x100 && b < 0x100 && c < 2 && d < 0x1_0000_0000 && m < 6
    requires e < 0x100 && f < 0x100 && g < 2 && h < 0x1_0000_0000 && n < 6
    ensures a + 0x100 * (b + 0x100 * (c + 2 * (d + 0x1_0000_0000 * m))) ==
            e + 0x100 * (f + 0x100 * (g + 2 * (h + 0x1_0000_0000 * n)))
            <==> a == e && b == f && c == g && d == h && m == n
    ensures a + 0x100 * (b + 0x100 * (c + 2 * (d + 0x1_0000_0000 * m))) < 0x400_0000_0000_0000
  {
    var d3, h3 := d + 0x1_0000_0000 * m, h + 0x1_0000_0000 * n;
    var c2, g2 := c + 2 * d3, g + 2 * h3;
    var b1, f1 := b + 0x100 * c2, f + 0x100 * g2;
    if a + 0x100 * b1 == e + 0x100 * f1 {
      Digit(a, b1, e, f1, 0x100);
      Digit(b, c2, f, g2, 0x100);
      Digit(c, d3, g, h3, 2);
      Digit(d, m, h, n, 0x1_0000_0000);
    }
  }

  lemma ModOfSmall(x: int, n: nat)
    requires 0 <= x < n
    ensures Mod(x, n) == x
  {
  }

  /** In the two's complement range of 32 bits the remainder tells numbers apart. */
  lemma BiasFromRemainder(x: int, y: int)
    requires -0x8000_0000 <= x < 0x8000_0000 && -0x8000_0000 <= y < 0x8000_0000
    requires Mod(x, 0x1_0000_0000) == Mod(y, 0x1_0000_0000)
    ensures x == y
  {
  }

  lemma InRangeIdsAreInjective(s: ScalarType, t: ScalarType)
    requires InRange(s) && InRange(t) && IdOf(s) == IdOf(t)
    ensures s == t
  {
    IdsTellFieldsApart(s, t);
    ModOfSmall(s.exponent, 0x100);
    ModOfSmall(s.mantissa, 0x100);
    ModOfSmall(t.exponent, 0x100);
    ModOfSmall(t.mantissa, 0x100);
    BiasFromRemainder(s.bias, t.bias);
  }

  // ---------------------------------------------------------------------------------------
  // The packing loop
  // ---------------------------------------------------------------------------------------

  /** `or_and_advance`: the masked field is or-ed in above the fields so far. */
  method OrAndAdvance(val: nat, offset: nat, member: int, bitWidth: nat) returns (newVal: nat, newOffset: nat)
    requires val < Pow2(offset)
    ensures newVal == val + Shl(Mod(member, Pow2(bitWidth)), offset) < Pow2(newOffset)
    ensures newOffset == offset + bitWidth
  {
    var bitMask := Shl(1, bitWidth) - 1;
    newVal := BitOr(val, Shl(BitAnd(member, bitMask), offset));
    newOffset := offset + bitWidth;
    ShlOne(bitWidth);
    MaskIsRemainder(member, bitWidth);
    ModIsSmall(member, Pow2(bitWidth));
    OrOfDisjoint(val, Mod(member, Pow2(bitWidth)), offset);
    FieldFits(val, offset, Mod(member, Pow2(bitWidth)), bitWidth);
  }

  lemma FieldFits(val: nat, offset: nat, field: nat, bitWidth: nat)
    requires val < Pow2(offset) && field < Pow2(bitWidth)
    ensures val + Shl(field, offset) < Pow2(offset + bitWidth)
  {
    Pow2Add(offset, bitWidth);
    Fits(val, Pow2(offset), field, Pow2(bitWidth));
  }

  lemma Fits(val: nat, p: nat, field: nat, w: nat)
    requires val < p && field < w
    ensures val + field * p < p * w
  {
    assert (field + 1) * p <= w * p;
    assert (field + 1) * p == field * p + p;
  }

  lemma FieldWidths()
    ensures Pow2(0) == 1 && Pow2(1) == 2 && Pow2(8) == 0x100 && Pow2(16) == 0x1_0000 && Pow2(17) == 0x2_0000
    ensures Pow2(32) == 0x1_0000_0000 && Pow2(49) == 0x2_0000_0000_0000 && Pow2(50) == 0x4_0000_0000_0000
  {
    assert Pow2(4) == 16;
    Pow2Add(4, 4);
    Pow2Add(8, 8);
    Pow2Add(16, 1);
    Pow2Add(16, 16);
    Pow2Add(32, 17);
    Pow2Add(49, 1);
  }

  /** The weighted sum of the fields is the id. */
  lemma FieldsMakeId(t: ScalarType)
    ensures
      Shl(Mod(t.exponent, 0x100), 0) + Shl(Mod(t.mantissa, 0x100), 8) + Shl(Mod(Bit(t.signed), 2), 16)
      + Shl(Mod(t.bias, 0x1_0000_0000), 17) + Shl(Mod(Bit(t.finiteValuesOnly), 2), 49)
      + Shl(Mod(ReprValue(t.nanRepr), 0x100), 50) == IdOf(t)
  {
    FieldWidths();
    ModOfSmall(Bit(t.signed), 2);
    ModOfSmall(Bit(t.finiteValuesOnly), 2);
    ModOfSmall(ReprValue(t.nanRepr), 0x100);
    hide Pow2, Mod, Bit, ReprValue;
  }

  // ---------------------------------------------------------------------------------------
  // The registry
  // ---------------------------------------------------------------------------------------

  /** The registry after the ids of these types were taken in turn. */
  function Registered(ts: seq<ScalarType>): map<nat, ScalarType> {
    if ts == [] then map[] else Registered(ts[..|ts| - 1])[IdOf(ts[|ts| - 1]) := ts[|ts| - 1]]
  }

  /** Type j of the run is the last one with the id. */
  ghost predicate TookLast(ts: seq<ScalarType>, id: nat, j: int) {
    0 <= j < |ts| && IdOf(ts[j]) == id && forall k | j < k < |ts| :: IdOf(ts[k]) != id
  }

  function Lookup(types: map<nat, ScalarType>, id: nat): Result<ScalarType, Error> {
    if id in types then Ok(types[id]) else Err(ValueError)
  }

  /** `_SCALAR_TYPES_ID_MAP`, with the types registered so far. */
  class Registry {
    var types: map<nat, ScalarType>
    ghost var made: seq<ScalarType>

    ghost predicate Valid()
      reads this
    {
      types == Registered(made)
    }

    constructor ()
      ensures Valid() && made == []
    {
      types, made := map[], [];
    }

    /** The first read of the cached property `id`. */
    method Id(t: ScalarType) returns (val: nat)
      requires Valid()
      modifies this
      ensures Valid() && made == old(made) + [t]
      ensures val == IdOf(t) && types == old(types)[IdOf(t) := t]
    {
      FieldWidths();
      FieldsMakeId(t);
      hide Pow2, Mod, Shl, IdOf, Bit, ReprValue;
      var offset: nat;
      val, offset := OrAndAdvance(0, 0, t.exponent, 8);
      val, offset := OrAndAdvance(val, offset, t.mantissa, 8);
      val, offset := OrAndAdvance(val, offset, Bit(t.signed), 1);
      val, offset := OrAndAdvance(val, offset, t.bias, 32);
      val, offset := OrAndAdvance(val, offset, Bit(t.finiteValuesOnly), 1);
      val, offset := OrAndAdvance(val, offset, ReprValue(t.nanRepr), 8);
      assert offset <= 64;
      types := types[val := t];
      made := made + [t];
      assert made[..|made| - 1] == old(made);
    }

    /** The type that took the id last, or an error when none did. */
    method FromId(id: nat) returns (r: Result<ScalarType, Error>)
      requires Valid()
      ensures r == Err(ValueError) <==> forall i | 0 <= i < |made| :: IdOf(made[i]) != id
      ensures r.Ok? ==> exists j :: TookLast(made, id, j) && r.value == made[j]
      ensures r.Err? ==> r == Err(ValueError)
    {
      hide IdOf;
      NoneTakesTheId(made, id);
      if id !in types {
        return Err(ValueError);
      }
      ghost var j := LastTakesTheId(made, id);
      r := Ok(types[id]);
    }

    method Int(sizeBits: int, bias: Option<int>) returns (t: ScalarType)
      requires Valid()
      modifies this
      ensures Valid() && made == old(made) + [t]
      ensures t == ScalarType(0, sizeBits - 1, true, if bias.Some? then bias.value else 0, false, Ieee754)
    {
      t := ScalarType(0, sizeBits - 1, true, if bias.Some? then bias.value else 0, false, Ieee754);
      var _ := Id(t);
    }

    method UInt(sizeBits: int, bias: Option<int>) returns (t: ScalarType)
      requires Valid()
      modifies this
      ensures Valid() && made == old(made) + [t]
      ensures t == ScalarType(0, sizeBits, false, if bias.Some? then bias.value else 0, false, Ieee754)
    {
      t := ScalarType(0, sizeBits, false, if bias.Some? then bias.value else 0, false, Ieee754);
      var _ := Id(t);
    }

    method FloatIEEE754(exponent: int, mantissa: int) returns (r: Result<ScalarType, Error>)
      requires Valid()
      modifies this
      ensures Valid() && (r.Ok? <==> mantissa > 0 && exponent > 0)
      ensures r.Ok? ==> IsFloat(r.value) && made == old(made) + [r.value]
                        && r.value == ScalarType(exponent, mantissa, true, 0, false, Ieee754)
      ensures r.Err? ==> unchanged(this)
    {
      if !(mantissa > 0 && exponent > 0) {
        return Err(AssertionError);
      }
      var t := ScalarType(exponent, mantissa, true, 0, false, Ieee754);
      var _ := Id(t);
      r := Ok(t);
    }

    method Float(exponent: int, mantissa: int, finiteValuesOnly: bool, nanRepr: NanRepr)
      returns (r: Result<ScalarType, Error>)
      requires Valid()
      modifies this
      ensures Valid() && (r.Ok? <==> mantissa > 0 && exponent > 0 && nanRepr != Ieee754)
      ensures r.Ok? ==> IsFloat(r.value) && made == old(made) + [r.value]
                        && r.value == ScalarType(exponent, mantissa, true, 0, finiteValuesOnly, nanRepr)
      ensures r.Err? ==> unchanged(this)
    {
      if !(mantissa > 0 && exponent > 0) || nanRepr == Ieee754 {
        return Err(AssertionError);
      }
      var t := ScalarType(exponent, mantissa, true, 0, finiteValuesOnly, nanRepr);
      var _ := Id(t);
      r := Ok(t);
    }
  }

  // ---------------------------------------------------------------------------------------
  // Ids lead back
  // ---------------------------------------------------------------------------------------

  /** What an id leads to: the type that took it last. */
  lemma {:induction false} LastTakesTheId(ts: seq<ScalarType>, id: nat) returns (j: nat)
    requires exists i :: 0 <= i < |ts| && IdOf(ts[i]) == id
    ensures TookLast(ts, id, j) && Lookup(Registered(ts), id) == Ok(ts[j])
    decreases |ts|
  {
    var n := |ts| - 1;
    if IdOf(ts[n]) == id {
      j := n;
    } else {
      var i :| 0 <= i < |ts| && IdOf(ts[i]) == id;
      assert ts[..n][i] == ts[i];
      j := LastTakesTheId(ts[..n], id);
    }
  }

  lemma {:induction false} NoneTakesTheId(ts: seq<ScalarType>, id: nat)
    ensures id in Registered(ts) <==> exists i :: 0 <= i < |ts| && IdOf(ts[i]) == id
    decreases |ts|
  {
    if ts != [] {
      var n := |ts| - 1;
      NoneTakesTheId(ts[..n], id);
      if exists i :: 0 <= i < n && IdOf(ts[i]) == id {
        var i :| 0 <= i < n && IdOf(ts[i]) == id;
        assert ts[..n][i] == ts[i];
      }
    }
  }

  /** After any run of constructions, the id of a constructed type leads back to it exactly when every later
      type that differs but agrees within the field widths was followed by the type again. */
  lemma IdLeadsBack(ts: seq<ScalarType>, i: nat)
    requires i < |ts|
    ensures Lookup(Registered(ts), IdOf(ts[i])) == Ok(ts[i]) <==>
            forall j | i < j < |ts| && Congruent(ts[j], ts[i]) && ts[j] != ts[i] :: ts[i] in ts[j..]
  {
    hide IdOf, Congruent;
    var t := ts[i];
    var last := LastTakesTheId(ts, IdOf(t));
    forall j | 0 <= j < |ts| ensures Congruent(ts[j], t) <==> IdOf(ts[j]) == IdOf(t) { IdsTellFieldsApart(ts[j], t); }
    if ts[last] == t {
      forall j | i < j < |ts| && Congruent(ts[j], t) && ts[j] != t
        ensures t in ts[j..]
      {
        assert ts[j..][last - j] == t;
      }
    } else {
      NotAfter(ts, last, t);
      assert Congruent(ts[last], t) && i < last;
    }
  }

  lemma NotAfter(ts: seq<ScalarType>, last: nat, t: ScalarType)
    requires last < |ts| && ts[last] != t && forall k | last < k < |ts| :: IdOf(ts[k]) != IdOf(t)
    ensures t !in ts[last..]
  {
    hide IdOf;
    forall k | 0 <= k < |ts[last..]| ensures ts[last..][k] != t {
      assert ts[last..][k] == ts[last + k];
    }
  }

  /** With fields in range nothing collides. */
  lemma InRangeIdsLeadBack(ts: seq<ScalarType>, i: nat)
    requires i < |ts| && forall t <- ts :: InRange(t)
    ensures Lookup(Registered(ts), IdOf(ts[i])) == Ok(ts[i])
  {
    hide IdOf, InRange;
    var last := LastTakesTheId(ts, IdOf(ts[i]));
    assert ts[i] in ts && ts[last] in ts;
    InRangeIdsAreInjective(ts[last], ts[i]);
  }

  /** Out of range it can fail: a bias of 8 and one of 8 + 2^32 make the same id. */
  lemma CollidingBiases()
    ensures
      var s := ScalarType(0, 4, false, 8, false, Ieee754);
      var t := ScalarType(0, 4, false, 0x1_0000_0008, false, Ieee754);
      IdOf(s) == IdOf(t) && Lookup(Registered([s, t]), IdOf(s)) == Ok(t)
  {
    var s := ScalarType(0, 4, false, 8, false, Ieee754);
    var t := ScalarType(0, 4, false, 0x1_0000_0008, false, Ieee754);
    assert Mod(8, 0x1_0000_0000) == Mod(0x1_0000_0008, 0x1_0000_0000);
    assert [s, t][..1] == [s];
  }
}

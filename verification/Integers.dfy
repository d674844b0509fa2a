/** Integers in text, as `int` reads them and `str` writes them. */
module Integers {
  import opened Wrappers
  import opened Text

  function IntText(n: int): (s: string)
    ensures s != []
  {
    if n < 0 then "-" + Numeral(-n) else Numeral(n)
  }

  // ---------------------------------------------------------------------------------------
  // Reading
  // ---------------------------------------------------------------------------------------

  predicate IsBlank(c: char) { c in " \t\n\r\U{0B}\U{0C}" }

  function TrimLeft(s: string): string { if s != "" && IsBlank(s[0]) then TrimLeft(s[1..]) else s }

  function TrimRight(s: string): string {
    if s != "" && IsBlank(s[|s| - 1]) then TrimRight(s[..|s| - 1]) else s
  }

  /** Digits, with underscores only between digits. */
  predicate AreDigits(s: string) {
    && s != ""
    && forall i | 0 <= i < |s| ::
         IsDigit(s[i]) || (s[i] == '_' && 0 < i < |s| - 1 && IsDigit(s[i - 1]) && IsDigit(s[i + 1]))
  }

  function WithoutUnderscores(s: string): string {
    if s == "" then "" else
      WithoutUnderscores(s[..|s| - 1]) + if s[|s| - 1] == '_' then "" else [s[|s| - 1]]
  }

  function Magnitude(s: string): Option<nat> {
    if AreDigits(s) then Some(Value(WithoutUnderscores(s))) else None
  }

  /** `int(s)` for a string of ASCII characters; None for a ValueError. */
  function ReadInt(s: string): Option<int> {
    var t := TrimLeft(TrimRight(s));
    var signed := t != "" && (t[0] == '-' || t[0] == '+');
    match Magnitude(if signed then t[1..] else t)
    case None => None
    case Some(n) => Some((if signed && t[0] == '-' then -1 else 1) * n)
  }

  // ---------------------------------------------------------------------------------------
  // What is written is read back
  // ---------------------------------------------------------------------------------------

  lemma DigitIsPlain(c: char)
    requires IsDigit(c)
    ensures !IsBlank(c) && c != '-' && c != '+' && c != '_'
  {
  }

  lemma {:induction false} PlainDigits(s: string)
    requires forall i | 0 <= i < |s| :: IsDigit(s[i])
    ensures WithoutUnderscores(s) == s
    decreases |s|
  {
    if s != "" {
      DigitIsPlain(s[|s| - 1]);
      hide IsDigit;
      PlainDigits(s[..|s| - 1]);
    }
  }

  lemma AllDigits(s: string)
    requires s != "" && forall i | 0 <= i < |s| :: IsDigit(s[i])
    ensures AreDigits(s)
  {
    hide IsDigit;
  }

  lemma MagnitudeIs(s: string)
    requires AreDigits(s) && WithoutUnderscores(s) == s
    ensures Magnitude(s) == Some(Value(s))
  {
  }

  lemma NumeralMagnitude(n: nat)
    ensures Magnitude(Numeral(n)) == Some(n)
  {
    var s := Numeral(n);
    NumeralReads(n);
    hide *;
    PlainDigits(s);
    AllDigits(s);
    MagnitudeIs(s);
  }

  lemma NothingToTrim(s: string)
    requires s != "" && !IsBlank(s[0]) && !IsBlank(s[|s| - 1])
    ensures TrimLeft(TrimRight(s)) == s
  {
  }

  /** `int(str(n))` is n. */
  lemma ReadsBack(n: int)
    ensures ReadInt(IntText(n)) == Some(n)
  {
    var s := IntText(n);
    var digits := if n < 0 then Numeral(-n) else Numeral(n);
    NumeralMagnitude(if n < 0 then -n else n);
    DigitIsPlain(digits[0]);
    DigitIsPlain(digits[|digits| - 1]);
    hide Numeral, Magnitude, IsBlank;
    if n < 0 {
      assert s == "-" + digits && s[|s| - 1] == digits[|digits| - 1] && s[1..] == digits;
      assert !IsBlank('-') by { DashIsPlain(); }
    }
    NothingToTrim(s);
  }

  lemma DashIsPlain()
    ensures !IsBlank('-')
  {
  }

  lemma IntTextInjective(a: int, b: int)
    requires IntText(a) == IntText(b)
    ensures a == b
  {
    ReadsBack(a);
    ReadsBack(b);
  }

  lemma IntTextFree(n: int, c: char)
    requires !IsDigit(c) && c != '-'
    ensures Free(IntText(n), c)
  {
    NumeralFree(if n < 0 then -n else n, c);
  }

  /** A dash can only be the first character. */
  lemma IntTextTail(n: int)
    ensures Free(IntText(n)[1..], '-')
  {
    NumeralFree(if n < 0 then -n else n, '-');
  }

  lemma {:induction false} ZeroInFront(s: string)
    ensures Value("0" + s) == Value(s)
    decreases |s|
  {
    var t := "0" + s;
    if s == "" {
      assert t == "0" && "0"[..0] == "";
    } else {
      assert t[..|t| - 1] == "0" + s[..|s| - 1];
      hide DigitOf;
      ZeroInFront(s[..|s| - 1]);
    }
  }

  /** Numbers have other spellings: with a zero in front, or a plus sign. */
  lemma OtherSpellings(n: nat)
    ensures ReadInt("0" + Numeral(n)) == Some(n) && ReadInt("+" + Numeral(n)) == Some(n)
  {
    var d := Numeral(n);
    var zero, plus := "0" + d, "+" + d;
    DigitIsPlain(d[|d| - 1]);
    SignIsPlain();
    NumeralReads(n);
    NumeralMagnitude(n);
    ZeroInFront(d);
    hide Numeral, IsBlank, Value, IsDigit;
    AllDigits(zero);
    PlainDigits(zero);
    NothingToTrim(zero);
    NothingToTrim(plus);
    hide *;
    assert plus[1..] == d;
    SignedReads(plus);
    UnsignedReads(zero);
    MagnitudeIs(zero);
  }

  // ---------------------------------------------------------------------------------------
  // What is read
  // ---------------------------------------------------------------------------------------

  ghost predicate AreBlanks(s: string) { forall i | 0 <= i < |s| :: IsBlank(s[i]) }

  lemma {:induction false} TrimmedLeft(s: string) returns (n: nat)
    ensures n <= |s| && AreBlanks(s[..n]) && TrimLeft(s) == s[n..]
    decreases |s|
  {
    if s != "" && IsBlank(s[0]) {
      n := TrimmedLeft(s[1..]);
      hide IsBlank;
      assert s[1..][n..] == s[n + 1..] && s[..n + 1] == [s[0]] + s[1..][..n];
      n := n + 1;
    } else {
      n := 0;
    }
  }

  lemma {:induction false} TrimmedRight(s: string) returns (n: nat)
    ensures n <= |s| && AreBlanks(s[n..]) && TrimRight(s) == s[..n]
    decreases |s|
  {
    if s != "" && IsBlank(s[|s| - 1]) {
      var t := s[..|s| - 1];
      n := TrimmedRight(t);
      hide IsBlank;
      assert t[..n] == s[..n] && s[n..] == t[n..] + [s[|s| - 1]];
    } else {
      n := |s|;
    }
  }

  lemma {:induction false} BlanksInFront(before: string, s: string)
    requires AreBlanks(before)
    ensures TrimLeft(before + s) == TrimLeft(s)
    decreases |before|
  {
    if before != "" {
      assert (before + s)[1..] == before[1..] + s;
      hide IsBlank;
      BlanksInFront(before[1..], s);
    } else {
      assert before + s == s;
    }
  }

  lemma {:induction false} BlanksBehind(s: string, after: string)
    requires AreBlanks(after)
    ensures TrimRight(s + after) == TrimRight(s)
    decreases |after|
  {
    if after != "" {
      var n := |after| - 1;
      assert (s + after)[..|s| + n] == s + after[..n];
      hide IsBlank;
      BlanksBehind(s, after[..n]);
    } else {
      assert s + after == s;
    }
  }

  predicate IsSign(sign: string) { sign == "" || sign == "+" || sign == "-" }

  lemma BlanksAreTrimmed(before: string, s: string, after: string)
    requires AreBlanks(before) && AreBlanks(after)
    requires s != "" && !IsBlank(s[0]) && !IsBlank(s[|s| - 1])
    ensures TrimLeft(TrimRight(before + s + after)) == s
  {
    var t := before + s;
    assert t != "" && t[|t| - 1] == s[|s| - 1];
    BlanksBehind(t, after);
    assert TrimRight(t) == t;
    BlanksInFront(before, s);
    assert TrimLeft(s) == s;
  }

  lemma SignAndDigits(s: string, sign: string, digits: string)
    requires TrimLeft(TrimRight(s)) == sign + digits && IsSign(sign)
    requires sign == "" ==> digits == "" || (digits[0] != '-' && digits[0] != '+')
    ensures ReadInt(s) ==
            match Magnitude(digits)
            case None => None
            case Some(n) => Some((if sign == "-" then -1 else 1) * n)
  {
    var t := sign + digits;
    hide Magnitude, TrimLeft, TrimRight;
    if sign == "" {
      assert t == digits;
    } else {
      assert t[1..] == digits && t[0] == sign[0];
    }
  }

  lemma DigitsAtTheEnds(digits: string)
    requires AreDigits(digits)
    ensures digits != "" && IsDigit(digits[0]) && IsDigit(digits[|digits| - 1])
  {
  }

  lemma MagnitudeOf(digits: string)
    ensures Magnitude(digits) == if AreDigits(digits) then Some(Value(WithoutUnderscores(digits))) else None
  {
  }

  /** `int` reads blanks, a sign or none, digits with single underscores between them, and blanks. */
  lemma SpellingIsRead(before: string, sign: string, digits: string, after: string)
    requires AreBlanks(before) && IsSign(sign) && AreDigits(digits) && AreBlanks(after)
    ensures ReadInt(before + sign + digits + after) ==
            Some((if sign == "-" then -1 else 1) * Value(WithoutUnderscores(digits)))
  {
    hide *;
    PlainAtTheEnds(sign, digits);
    MagnitudeOf(digits);
    BlanksAreTrimmed(before, sign + digits, after);
    var s := before + sign + digits + after;
    assert s == before + (sign + digits) + after by { Regrouped(before, sign, digits, after); }
    SignAndDigits(s, sign, digits);
  }

  lemma Regrouped(a: string, b: string, c: string, d: string)
    ensures a + b + c + d == a + (b + c) + d
  {
  }

  lemma PlainAtTheEnds(sign: string, digits: string)
    requires IsSign(sign) && AreDigits(digits)
    ensures
      var s := sign + digits;
      && s != "" && !IsBlank(s[0]) && !IsBlank(s[|s| - 1])
      && digits != "" && digits[0] != '-' && digits[0] != '+'
  {
    var s := sign + digits;
    DigitsAtTheEnds(digits);
    DigitIsPlain(digits[0]);
    DigitIsPlain(digits[|digits| - 1]);
    SignIsPlain();
    DashIsPlain();
    hide IsBlank, IsDigit, AreDigits;
    assert s[|s| - 1] == digits[|digits| - 1] && s[0] == if sign == "" then digits[0] else sign[0];
  }

  lemma Reassembled(s: string, n: nat, k: nat, j: nat)
    requires n <= |s| && k <= n && j <= n - k
    ensures s == s[..n][..k] + s[..n][k..][..j] + s[..n][k..][j..] + s[n..]
  {
  }

  lemma OneSign(s: string, sign: string)
    requires sign == if s != "" && (s[0] == '-' || s[0] == '+') then s[..1] else ""
    ensures IsSign(sign)
  {
    if sign != "" { assert sign == [s[0]]; }
  }

  /** And nothing else. */
  lemma OnlySpellingsAreRead(s: string) returns (before: string, sign: string, digits: string, after: string)
    requires ReadInt(s).Some?
    ensures s == before + sign + digits + after
    ensures AreBlanks(before) && IsSign(sign) && AreDigits(digits) && AreBlanks(after)
  {
    hide *;
    var n := TrimmedRight(s);
    var t := s[..n];
    var k := TrimmedLeft(t);
    var u := t[k..];
    before, after := t[..k], s[n..];
    sign := if u != "" && (u[0] == '-' || u[0] == '+') then u[..1] else "";
    digits := u[|sign|..];
    Reassembled(s, n, k, |sign|);
    assert u == sign + digits;
    assert IsSign(sign) by { OneSign(u, sign); }
    SignAndDigits(s, sign, digits);
    MagnitudeOf(digits);
  }

  lemma SignIsPlain()
    ensures IsDigit('0') && !IsBlank('0') && !IsBlank('+')
  {
  }

  lemma SignedReads(s: string)
    requires s != "" && s[0] == '+' && TrimLeft(TrimRight(s)) == s && Magnitude(s[1..]).Some?
    ensures ReadInt(s) == Some(Magnitude(s[1..]).value)
  {
    hide Magnitude, TrimLeft, TrimRight;
  }

  lemma UnsignedReads(s: string)
    requires s != "" && s[0] != '+' && s[0] != '-' && TrimLeft(TrimRight(s)) == s
    ensures Magnitude(s).Some? ==> ReadInt(s) == Some(Magnitude(s).value)
  {
    hide Magnitude, TrimLeft, TrimRight;
  }
}

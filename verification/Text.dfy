/** Strings that can be taken apart again: joined lines, decimal numerals. */
module Text {

  predicate Free(s: string, c: char) { c !in s }

  /** A string cut at the first c is cut in one way only. */
  lemma CutAt(x: string, r: string, y: string, s: string, c: char)
    requires Free(x, c) && Free(y, c) && x + [c] + r == y + [c] + s
    ensures x == y && r == s
  {
    var w := x + [c] + r;
    assert w[|x|] == c && forall i | 0 <= i < |x| :: w[i] == x[i];
    assert w == y + [c] + s;
    assert w[|y|] == c && forall i | 0 <= i < |y| :: w[i] == y[i];
    assert w[..|x|] == x && w[..|y|] == y && w[|x| + 1..] == r && w[|y| + 1..] == s;
  }

  function Join(lines: seq<string>, sep: string): string
    requires lines != []
  {
    if |lines| == 1 then lines[0] else lines[0] + sep + Join(lines[1..], sep)
  }

  /** Lines that do not contain the first character of the separator can be read off the joined text. */
  lemma {:induction false} JoinInjective(a: seq<string>, b: seq<string>, sep: string)
    requires a != [] && b != [] && sep != []
    requires (forall i | 0 <= i < |a| :: Free(a[i], sep[0])) && (forall i | 0 <= i < |b| :: Free(b[i], sep[0]))
    requires Join(a, sep) == Join(b, sep)
    ensures a == b
    decreases |a|
  {
    var c, rest := sep[0], sep[1..];
    JoinSeparates(a, sep);
    JoinSeparates(b, sep);
    if |a| > 1 {
      JoinHead(a, sep);
      JoinHead(b, sep);
      CutAt(a[0], rest + Join(a[1..], sep), b[0], rest + Join(b[1..], sep), c);
      assert (rest + Join(a[1..], sep))[|rest|..] == Join(a[1..], sep);
      assert (rest + Join(b[1..], sep))[|rest|..] == Join(b[1..], sep);
      JoinInjective(a[1..], b[1..], sep);
      assert a == [a[0]] + a[1..] && b == [b[0]] + b[1..];
    }
  }

  lemma JoinSeparates(a: seq<string>, sep: string)
    requires a != [] && sep != [] && forall i | 0 <= i < |a| :: Free(a[i], sep[0])
    ensures sep[0] in Join(a, sep) <==> |a| > 1
  {
    if |a| > 1 {
      JoinHead(a, sep);
      assert Join(a, sep)[|a[0]|] == sep[0];
    }
  }

  lemma JoinHead(a: seq<string>, sep: string)
    requires |a| > 1 && sep != []
    ensures Join(a, sep) == a[0] + [sep[0]] + (sep[1..] + Join(a[1..], sep))
  {
    var s0, s1, rest := [sep[0]], sep[1..], Join(a[1..], sep);
    assert Join(a, sep) == a[0] + sep + rest;
    hide Join;
    assert sep == s0 + s1;
    Associative(a[0], s0, s1);
    Associative(a[0] + s0, s1, rest);
  }

  lemma Associative<T>(a: seq<T>, b: seq<T>, c: seq<T>)
    ensures (a + b) + c == a + (b + c)
  {
  }

  // ---------------------------------------------------------------------------------------
  // Decimal numerals
  // ---------------------------------------------------------------------------------------

  const DIGITS := "0123456789"

  predicate IsDigit(c: char) { c in DIGITS }

  function DigitOf(c: char): nat { if '0' <= c <= '9' then (c - '0') as nat else 0 }

  function Numeral(n: nat): (s: string)
    ensures s != [] && forall i | 0 <= i < |s| :: IsDigit(s[i])
  {
    if n < 10 then [DIGITS[n]] else Numeral(n / 10) + [DIGITS[n % 10]]
  }

  function Value(s: string): nat {
    if s == [] then 0 else 10 * Value(s[..|s| - 1]) + DigitOf(s[|s| - 1])
  }

  /** The numeral of n reads n. */
  lemma {:induction false} NumeralReads(n: nat)
    ensures Value(Numeral(n)) == n
    decreases n
  {
    if n < 10 {
      assert Value([DIGITS[n]]) == DigitOf(DIGITS[n]);
    } else {
      NumeralReads(n / 10);
      var s := Numeral(n / 10) + [DIGITS[n % 10]];
      assert s[..|s| - 1] == Numeral(n / 10);
    }
  }

  lemma NumeralInjective(a: nat, b: nat)
    requires Numeral(a) == Numeral(b)
    ensures a == b
  {
    NumeralReads(a);
    NumeralReads(b);
  }

  lemma NumeralFree(n: nat, c: char)
    requires !IsDigit(c)
    ensures Free(Numeral(n), c)
  {
  }
}

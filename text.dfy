/**
 * The parts of the Arduino `String` class that the client relies on:
 * case-insensitive comparison (`equalsIgnoreCase`), decimal formatting of an
 * `int` (`String(int)`) and the decimal-prefix parse behind `toInt`.
 */
module ArduinoText {

  /** A C `int` on the target: 32 bits, two's complement. */
  newtype int32 = x: int | -0x8000_0000 <= x < 0x8000_0000

  /** `tolower` in the C locale: only 'A'..'Z' change. */
  function LowerChar(c: char): char
  {
    if 'A' <= c <= 'Z' then (c as int + 32) as char else c
  }

  /** `String::equalsIgnoreCase`: same length, equal character by character after `tolower`. */
  predicate EqualsIgnoreCase(a: string, b: string)
  {
    |a| == |b| && forall i :: 0 <= i < |a| ==> LowerChar(a[i]) == LowerChar(b[i])
  }

  lemma EqualsIgnoreCaseIsEquivalence(a: string, b: string, c: string)
    ensures EqualsIgnoreCase(a, a)
    ensures EqualsIgnoreCase(a, b) ==> EqualsIgnoreCase(b, a)
    ensures EqualsIgnoreCase(a, b) && EqualsIgnoreCase(b, c) ==> EqualsIgnoreCase(a, c)
  {
  }

  /**
   * The boolean coercion used by `virtualReadBool` and by boolean dispatch:
   * "true" in any letter case, or exactly "1".
   */
  function BoolText(s: string): (b: bool)
    ensures |s| != 1 && |s| != 4 ==> !b
    ensures |s| == 1 ==> (b <==> s == "1")
  {
    EqualsIgnoreCase(s, "true") || s == "1"
  }

  /** Letter case does not matter; "1" is true; "0", "yes" and "on" are not. */
  lemma BoolTextExamples()
    ensures BoolText("TRUE") && BoolText("True") && BoolText("tRuE") && BoolText("1")
    ensures !BoolText("0") && !BoolText("yes") && !BoolText("on") && !BoolText("false") && !BoolText("")
  {
    assert EqualsIgnoreCase("TRUE", "true");
    assert EqualsIgnoreCase("True", "true");
    assert EqualsIgnoreCase("tRuE", "true");
  }

  /** The text a boolean write stores. */
  function BoolToText(b: bool): string
  {
    if b then "true" else "false"
  }

  lemma BoolTextRoundTrip(b: bool)
    ensures BoolText(BoolToText(b)) == b
  {
  }

  predicate IsDigit(c: char)
  {
    '0' <= c <= '9'
  }

  predicate AllDigits(s: string)
  {
    forall i :: 0 <= i < |s| ==> IsDigit(s[i])
  }

  /** `isspace` in the C locale. */
  predicate IsSpace(c: char)
  {
    c == ' ' || c == '\t' || c == '\n' || c == '\r' || c as int == 0x0B || c as int == 0x0C
  }

  function DigitChar(d: nat): (c: char)
    requires d < 10
    ensures IsDigit(c) && c as int - '0' as int == d
  {
    ('0' as int + d) as char
  }

  /** Decimal digits of a natural number, most significant first, without leading zeros. */
  function NatToText(n: nat): (s: string)
    ensures |s| >= 1 && AllDigits(s)
    ensures s[0] == '0' ==> n == 0
  {
    if n < 10 then [DigitChar(n)] else NatToText(n / 10) + [DigitChar(n % 10)]
  }

  /** `String(int)`: decimal, with a leading '-' for a negative value. */
  function IntToText(n: int32): (s: string)
    ensures |s| >= 1
    ensures s[0] == '-' <==> n < 0
  {
    if n < 0 then "-" + NatToText(-(n as int)) else NatToText(n as nat)
  }

  /** The longest prefix of `s` made of decimal digits. */
  function DigitPrefix(s: string): (p: string)
    ensures p <= s && AllDigits(p)
    ensures |p| < |s| ==> !IsDigit(s[|p|])
  {
    if |s| == 0 || !IsDigit(s[0]) then [] else [s[0]] + DigitPrefix(s[1..])
  }

  /** The value of a string of decimal digits, most significant first. */
  function DigitsValue(ds: string): nat
    requires AllDigits(ds)
  {
    if ds == [] then 0 else DigitsValue(ds[..|ds| - 1]) * 10 + (ds[|ds| - 1] as int - '0' as int)
  }

  function SkipSpace(s: string): (t: string)
    ensures |t| <= |s| && t == s[|s| - |t|..]
    ensures |t| > 0 ==> !IsSpace(t[0])
  {
    if |s| > 0 && IsSpace(s[0]) then SkipSpace(s[1..]) else s
  }

  /**
   * `String::toInt` (through `atol`): leading white space is skipped, one
   * optional sign is read, then the longest run of decimal digits; text that
   * starts with anything else reads as 0. The width of `long` is not modelled.
   */
  function ToInt(s: string): int
  {
    var t := SkipSpace(s);
    if |t| > 0 && t[0] == '-' then -(DigitsValue(DigitPrefix(t[1..])) as int)
    else if |t| > 0 && t[0] == '+' then DigitsValue(DigitPrefix(t[1..]))
    else DigitsValue(DigitPrefix(t))
  }

  lemma {:induction false} DigitPrefixOfDigits(s: string)
    requires AllDigits(s)
    ensures DigitPrefix(s) == s
  {
    if |s| > 0 {
      DigitPrefixOfDigits(s[1..]);
      assert [s[0]] + s[1..] == s;
    }
  }

  lemma {:induction false} DigitsValueOfNat(n: nat)
    ensures DigitsValue(NatToText(n)) == n
  {
    if n >= 10 {
      var s := NatToText(n);
      var init := NatToText(n / 10);
      assert s[..|s| - 1] == init;
      DigitsValueOfNat(n / 10);
    }
  }

  lemma SkipSpaceNoSpace(s: string)
    requires |s| > 0 && !IsSpace(s[0])
    ensures SkipSpace(s) == s
  {
  }

  /** The decimal text of a natural number reads back as that number. */
  lemma NatTextValue(n: nat)
    ensures DigitsValue(DigitPrefix(NatToText(n))) == n
  {
    DigitPrefixOfDigits(NatToText(n));
    DigitsValueOfNat(n);
  }

  /** Reading back what `String(int)` wrote gives the same number. */
  lemma IntTextRoundTrip(n: int32)
    ensures ToInt(IntToText(n)) == n as int
  {
    var s := IntToText(n);
    SkipSpaceNoSpace(s);
    if n < 0 {
      var m: nat := -(n as int);
      assert s == "-" + NatToText(m);
      assert s[1..] == NatToText(m);
      assert ToInt(s) == -(DigitsValue(DigitPrefix(s[1..])) as int);
      NatTextValue(m);
    } else {
      assert s == NatToText(n as nat);
      assert s[0] != '-' && s[0] != '+';
      assert ToInt(s) == DigitsValue(DigitPrefix(s));
      NatTextValue(n as nat);
    }
  }
}

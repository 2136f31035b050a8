/**
 * The parts of the Java platform library that the overlay controller depends on:
 * `Integer.parseInt` (radix 10, 32-bit range), `Integer.toString`,
 * `String.startsWith` and `String.equalsIgnoreCase`.
 */
module JavaLang {
  import opened Wrappers

  /** `Integer.MIN_VALUE` and `Integer.MAX_VALUE`. */
  const INT_MIN: int := -0x8000_0000
  const INT_MAX: int := 0x7fff_ffff

  /** `s.startsWith(prefix)`: `s` is `prefix` followed by the rest of `s`. */
  predicate StartsWith(s: string, prefix: string)
    ensures StartsWith(s, prefix) <==> |prefix| <= |s| && s == prefix + s[|prefix|..]
  {
    |prefix| <= |s| && s[..|prefix|] == prefix
  }

  /** Case folding of the ASCII letters; every other character is its own fold. */
  function LowerAscii(c: char): char {
    if 'A' <= c <= 'Z' then (c as int + 32) as char else c
  }

  /** `a.equalsIgnoreCase(b)`: the same length, and equal character by character up to case. */
  predicate EqualsIgnoreCase(a: string, b: string)
    ensures EqualsIgnoreCase(a, b) ==> |a| == |b|
    ensures a == b ==> EqualsIgnoreCase(a, b)
  {
    |a| == |b| && forall i :: 0 <= i < |a| ==> LowerAscii(a[i]) == LowerAscii(b[i])
  }

  predicate IsDigit(c: char) {
    '0' <= c <= '9'
  }

  predicate AllDigits(s: string) {
    forall i :: 0 <= i < |s| ==> IsDigit(s[i])
  }

  function DigitValue(c: char): (d: nat)
    requires IsDigit(c)
    ensures d < 10
  {
    c as int - '0' as int
  }

  function DigitChar(d: nat): (c: char)
    requires d < 10
    ensures IsDigit(c) && DigitValue(c) == d
  {
    ('0' as int + d) as char
  }

  /** The value of a string of decimal digits, most significant first. */
  function DigitsValue(s: string): nat
    requires AllDigits(s)
    decreases |s|
  {
    if s == [] then 0 else DigitsValue(s[..|s| - 1]) * 10 + DigitValue(s[|s| - 1])
  }

  /** The string without one leading sign character, if it has one. */
  function Unsigned(s: string): string {
    if |s| > 0 && (s[0] == '-' || s[0] == '+') then s[1..] else s
  }

  /** The value of the digits after an optional sign, negated after a minus sign. */
  function Signed(s: string): int
    requires AllDigits(Unsigned(s))
  {
    if |s| > 0 && s[0] == '-' then 0 - DigitsValue(Unsigned(s)) else DigitsValue(Unsigned(s))
  }

  /**
   * `Integer.parseInt(s)`: an optional sign followed by at least one decimal digit,
   * whose value fits in 32 bits. `None` stands for the `NumberFormatException`.
   */
  function ParseInt(s: string): (r: Option<int>)
    ensures r.Some? <==> |Unsigned(s)| > 0 && AllDigits(Unsigned(s)) && INT_MIN <= Signed(s) <= INT_MAX
    ensures r.Some? ==> r.value == Signed(s)
  {
    var digits := Unsigned(s);
    if |digits| == 0 || !AllDigits(digits) then None
    else
      var magnitude: int := DigitsValue(digits);
      var v: int := if s[0] == '-' then -magnitude else magnitude;
      if INT_MIN <= v <= INT_MAX then Some(v) else None
  }

  /** Decimal digits of a natural number, without leading zeros. */
  function ShowNat(n: nat): (s: string)
    decreases n
  {
    if n < 10 then [DigitChar(n)] else ShowNat(n / 10) + [DigitChar(n % 10)]
  }

  /** `Integer.toString(n)`: a minus sign for negative numbers, then the digits. */
  function Show(n: int): string {
    if n < 0 then "-" + ShowNat(-n) else ShowNat(n)
  }

  lemma {:induction false} ShowNatDigits(n: nat)
    ensures |ShowNat(n)| > 0 && ShowNat(n)[0] != '-' && ShowNat(n)[0] != '+'
    ensures AllDigits(ShowNat(n)) && DigitsValue(ShowNat(n)) == n
    decreases n
  {
    if n >= 10 {
      ShowNatDigits(n / 10);
      var s := ShowNat(n);
      assert s[..|s| - 1] == ShowNat(n / 10);
      assert s[0] == ShowNat(n / 10)[0];
    }
  }

  /** `Integer.parseInt` reads back every 32-bit integer that `Integer.toString` writes. */
  lemma ParseShow(n: int)
    requires INT_MIN <= n <= INT_MAX
    ensures ParseInt(Show(n)) == Some(n)
  {
    var magnitude: nat := if n < 0 then -n else n;
    ShowNatDigits(magnitude);
    var s := Show(n);
    var digits := ShowNat(magnitude);
    assert Unsigned(s) == digits;
    assert s[0] == '-' <==> n < 0;
  }

  /** A string with a character that is neither a digit nor a leading sign does not parse. */
  lemma ParseIntRejectsNonDigit(s: string, i: nat)
    requires i < |s| && !IsDigit(s[i])
    requires i > 0 || (s[0] != '-' && s[0] != '+')
    ensures ParseInt(s).None?
  {
    if s[0] == '-' || s[0] == '+' {
      assert Unsigned(s)[i - 1] == s[i];
    } else {
      assert Unsigned(s)[i] == s[i];
    }
  }

  /** The decimal text of an integer beyond 32 bits does not parse: `parseInt` throws. */
  lemma ParseShowOutOfRange(n: int)
    requires n < INT_MIN || INT_MAX < n
    ensures ParseInt(Show(n)).None?
  {
    var magnitude: nat := if n < 0 then -n else n;
    ShowNatDigits(magnitude);
    var s := Show(n);
    assert Unsigned(s) == ShowNat(magnitude);
    assert s[0] == '-' <==> n < 0;
  }

  /** The empty string and a lone sign do not parse. */
  lemma ParseIntEdges()
    ensures ParseInt("").None? && ParseInt("-").None? && ParseInt("+").None?
    ensures ParseInt("+3") == Some(3) && ParseInt("03") == Some(3)
  {
  }

  lemma DigitsValueSnoc(p: string, c: char)
    requires AllDigits(p) && IsDigit(c)
    ensures AllDigits(p + [c]) && DigitsValue(p + [c]) == DigitsValue(p) * 10 + DigitValue(c)
  {
    assert (p + [c])[..|p|] == p;
  }

  /** One past `Integer.MAX_VALUE` does not parse. */
  lemma ParseIntTooLarge()
    ensures ParseInt("2147483648").None?
  {
    var s: string := [];
    var v := 0;
    DigitsValueSnoc(s, '2');
    s, v := s + ['2'], v * 10 + 2;
    assert DigitsValue(s) == v;
    DigitsValueSnoc(s, '1');
    s, v := s + ['1'], v * 10 + 1;
    assert DigitsValue(s) == v;
    DigitsValueSnoc(s, '4');
    s, v := s + ['4'], v * 10 + 4;
    assert DigitsValue(s) == v;
    DigitsValueSnoc(s, '7');
    s, v := s + ['7'], v * 10 + 7;
    assert DigitsValue(s) == v;
    DigitsValueSnoc(s, '4');
    s, v := s + ['4'], v * 10 + 4;
    assert DigitsValue(s) == v;
    DigitsValueSnoc(s, '8');
    s, v := s + ['8'], v * 10 + 8;
    assert DigitsValue(s) == v;
    DigitsValueSnoc(s, '3');
    s, v := s + ['3'], v * 10 + 3;
    assert DigitsValue(s) == v;
    DigitsValueSnoc(s, '6');
    s, v := s + ['6'], v * 10 + 6;
    assert DigitsValue(s) == v;
    DigitsValueSnoc(s, '4');
    s, v := s + ['4'], v * 10 + 4;
    assert DigitsValue(s) == v;
    DigitsValueSnoc(s, '8');
    s, v := s + ['8'], v * 10 + 8;
    assert DigitsValue(s) == v;
    assert s == "2147483648";
    assert Unsigned(s) == s && Signed(s) == 2147483648;
  }

  lemma EqualsIgnoreCaseSymmetric(a: string, b: string)
    ensures EqualsIgnoreCase(a, b) == EqualsIgnoreCase(b, a)
  {
  }

  /** Only "true" up to case is equal, ignoring case, to "true"; it is never equal to "false". */
  lemma EqualsIgnoreCaseTrueFalse(s: string)
    ensures !(EqualsIgnoreCase(s, "true") && EqualsIgnoreCase(s, "false"))
    ensures EqualsIgnoreCase("true", "true") && EqualsIgnoreCase("TRUE", "true") && EqualsIgnoreCase("False", "false")
  {
  }
}

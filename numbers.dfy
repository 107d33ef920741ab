/**
 * Decimal text for integers, as JavaScript's number-to-string conversion
 * writes it, and `parseInt` restricted to an optional sign followed by
 * decimal digits (leading whitespace and the `0x` prefix are not modelled).
 */
module Numbers {
  import opened Wrappers

  predicate IsDigit(c: char) {
    '0' <= c <= '9'
  }

  predicate AllDigits(s: string) {
    forall i :: 0 <= i < |s| ==> IsDigit(s[i])
  }

  function DigitChar(d: nat): (c: char)
    requires d < 10
    ensures IsDigit(c)
  {
    ('0' as int + d) as char
  }

  function DigitValue(c: char): (d: nat)
    requires IsDigit(c)
    ensures d < 10 && DigitChar(d) == c
  {
    c as int - '0' as int
  }

  /** The value of a string of decimal digits, most significant first. */
  function DigitsValue(s: string): nat
    requires AllDigits(s)
  {
    if s == [] then 0 else DigitsValue(s[..|s| - 1]) * 10 + DigitValue(s[|s| - 1])
  }

  /** The decimal digits of `n`, without leading zeros; reading them back gives `n`. */
  function NatToString(n: nat): (s: string)
    ensures |s| >= 1 && AllDigits(s)
    ensures DigitsValue(s) == n
    ensures s[0] == '0' ==> s == "0" && n == 0
    decreases n
  {
    if n < 10 then [DigitChar(n)]
    else
      var p := NatToString(n / 10);
      var s := p + [DigitChar(n % 10)];
      assert s[..|s| - 1] == p;
      s
  }

  /** `String(n)` for an integral number `n`. */
  function IntToString(n: int): string {
    if n < 0 then "-" + NatToString(-n) else NatToString(n)
  }

  /** `String(x)` for a number that is either an integer or NaN (`None`). */
  function NumberToString(x: Option<int>): string {
    match x
    case Some(n) => IntToString(n)
    case None => "NaN"
  }

  /** The longest prefix of `s` made of decimal digits. */
  function LeadingDigits(s: string): (r: string)
    ensures AllDigits(r) && r <= s
    ensures |r| < |s| ==> !IsDigit(s[|r|])
  {
    if s == [] || !IsDigit(s[0]) then [] else [s[0]] + LeadingDigits(s[1..])
  }

  /**
   * `parseInt(s)`: an optional `-` or `+`, then the leading decimal
   * digits; NaN (`None`) when there is no digit to read.
   */
  function ParseInt(s: string): (r: Option<int>)
  {
    var negative := |s| > 0 && s[0] == '-';
    var unsigned := if |s| > 0 && (s[0] == '-' || s[0] == '+') then s[1..] else s;
    var digits := LeadingDigits(unsigned);
    if digits == [] then None
    else if negative then Some(-(DigitsValue(digits) as int))
    else Some(DigitsValue(digits))
  }

  /** `s.split(".")[0]`: the text before the first `.`, or all of `s`. */
  function LeadingComponent(s: string): (r: string)
    ensures '.' !in r && r <= s
    ensures |r| < |s| ==> s[|r|] == '.'
  {
    if s == [] || s[0] == '.' then [] else [s[0]] + LeadingComponent(s[1..])
  }

  /** A digit string followed by anything that is not a digit is read back whole. */
  lemma LeadingDigitsOfDigits(s: string, t: string)
    requires AllDigits(s)
    requires t == [] || !IsDigit(t[0])
    ensures LeadingDigits(s + t) == s
  {
    var r := LeadingDigits(s + t);
    assert |r| == |s|;
    assert r == (s + t)[..|s|] == s;
  }

  /** Text without a `.`, followed by `.` and anything, is the leading component. */
  lemma LeadingComponentOfDotted(s: string, t: string)
    requires '.' !in s
    ensures LeadingComponent(s + "." + t) == s
  {
    var u := s + "." + t;
    var r := LeadingComponent(u);
    assert u[|s|] == '.';
    assert |r| == |s|;
    assert r == u[..|s|] == s;
  }

  /**
   * `parseInt` yields a number exactly when a digit comes first, or second
   * after a sign, and the number is negative only after a `-`.
   */
  lemma ParseIntDefinedIff(s: string)
    ensures ParseInt(s).Some? <==> (|s| > 0 && IsDigit(s[0])) || (|s| > 1 && (s[0] == '-' || s[0] == '+') && IsDigit(s[1]))
    ensures ParseInt(s).Some? && ParseInt(s).value < 0 ==> s[0] == '-'
  {
  }

  /** `parseInt(String(n)) === n` for every integer `n`. */
  lemma ParseIntOfIntToString(n: int)
    ensures ParseInt(IntToString(n)) == Some(n)
  {
    var digits := NatToString(if n < 0 then -n else n);
    LeadingDigitsOfDigits(digits, []);
    assert digits + [] == digits;
    if n < 0 {
      assert IntToString(n)[1..] == digits;
    }
  }

  /** `parseInt(String(x))` gives `x` back, NaN included. */
  lemma ParseIntOfNumberToString(x: Option<int>)
    ensures ParseInt(NumberToString(x)) == x
  {
    match x
    case Some(n) => ParseIntOfIntToString(n);
    case None =>
      assert !IsDigit("NaN"[0]);
  }

  /** The decimal text of a number never contains a `.`. */
  lemma NoDotInNumberToString(x: Option<int>)
    ensures '.' !in NumberToString(x)
  {
    match x
    case None =>
    case Some(n) =>
      var digits := NatToString(if n < 0 then -n else n);
      assert forall i :: 0 <= i < |digits| ==> digits[i] != '.';
      if n < 0 {
        assert forall i :: 0 <= i < |IntToString(n)| ==> IntToString(n)[i] != '.' by {
          forall i | 0 <= i < |IntToString(n)| ensures IntToString(n)[i] != '.' {
            if i > 0 { assert IntToString(n)[i] == digits[i - 1]; }
          }
        }
      }
  }
}

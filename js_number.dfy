/**
 * The two number conversions the forms rely on: the global `Number(text)`,
 * restricted to decimal integers, and `n.toString()` for integers.
 */
module JsNumber {
  import opened Wrappers

  /** The white-space and line-terminator characters `Number` strips (the ASCII ones). */
  predicate IsWhitespace(c: char) {
    c == ' ' || c == '\t' || c == '\n' || c == '\r' || c == '\U{000B}' || c == '\U{000C}'
  }

  function TrimStart(s: string): string
    decreases |s|
  {
    if s != [] && IsWhitespace(s[0]) then TrimStart(s[1..]) else s
  }

  function TrimEnd(s: string): string
    decreases |s|
  {
    if s != [] && IsWhitespace(s[|s| - 1]) then TrimEnd(s[..|s| - 1]) else s
  }

  function Trim(s: string): string {
    TrimEnd(TrimStart(s))
  }

  predicate IsDigit(c: char) {
    '0' <= c <= '9'
  }

  predicate AllDigits(s: string) {
    forall i :: 0 <= i < |s| ==> IsDigit(s[i])
  }

  function DigitValue(c: char): nat
    requires IsDigit(c)
  {
    c as int - '0' as int
  }

  function DigitChar(d: nat): (c: char)
    requires d < 10
    ensures IsDigit(c) && DigitValue(c) == d
  {
    ('0' as int + d) as char
  }

  /** The value of a string of decimal digits, most significant first. */
  function DigitsValue(s: string): nat
    requires AllDigits(s)
    decreases |s|
  {
    if s == [] then 0 else DigitsValue(s[..|s| - 1]) * 10 + DigitValue(s[|s| - 1])
  }

  /**
   * `Number(s)` on decimal integers: surrounding white space is ignored, a
   * blank string is 0, an optional sign may precede the digits, and any
   * other text is NaN (None).
   */
  function ParseNumber(s: string): (r: Option<int>)
    ensures Trim(s) == [] ==> r == Some(0)
    ensures r.Some? && Trim(s) != [] ==> IsDigit(Trim(s)[|Trim(s)| - 1])
    ensures r.Some? && r.value < 0 ==> Trim(s)[0] == '-'
  {
    var t := Trim(s);
    if t == [] then Some(0)
    else if |t| > 1 && t[0] == '-' && AllDigits(t[1..]) then Some(-(DigitsValue(t[1..]) as int))
    else if |t| > 1 && t[0] == '+' && AllDigits(t[1..]) then Some(DigitsValue(t[1..]))
    else if AllDigits(t) then Some(DigitsValue(t))
    else None
  }

  /** The decimal digits of `n`, as `toString` writes them. */
  function NatToString(n: nat): (r: string)
    ensures r != [] && AllDigits(r)
    ensures DigitsValue(r) == n
    decreases n
  {
    if n < 10 then [DigitChar(n)]
    else
      var prefix := NatToString(n / 10);
      var r := prefix + [DigitChar(n % 10)];
      assert r[..|r| - 1] == prefix;
      r
  }

  /** `n.toString()` for an integer `n`. */
  function IntToString(n: int): (r: string)
    ensures r != [] && IsDigit(r[|r| - 1])
  {
    if n < 0 then "-" + NatToString(-n) else NatToString(n)
  }

  /** Reading back what `toString` wrote gives the number again. */
  lemma {:induction false} ParseNumberOfIntToString(n: int)
    ensures ParseNumber(IntToString(n)) == Some(n)
  {
    var s := IntToString(n);
    assert TrimStart(s) == s;
    assert TrimEnd(s) == s;
    if n < 0 {
      assert s[1..] == NatToString(-n);
    }
  }

  /** Blank text is 0, signed digits are read, anything else is NaN. */
  lemma NumberExamples()
    ensures ParseNumber("") == Some(0)
    ensures ParseNumber("  ") == Some(0)
    ensures ParseNumber(" 42 ") == Some(42)
    ensures ParseNumber("-5") == Some(-5)
    ensures ParseNumber("-") == None
    ensures ParseNumber("12a") == None
  {
    assert Trim(" 42 ") == "42";
    assert DigitsValue("42") == 42 by { assert "42"[..1] == "4"; }
    assert "-5"[1..] == "5";
    assert !IsDigit('a');
    assert "12a"[2] == 'a' && !AllDigits("12a");
  }
}

/** Printing and strict parsing of the numbers the configuration files hold. */
module Text {
  import opened Ints
  import opened Options

  // ------------------------------------------------------------- digits

  const HEX_DIGITS: string := "0123456789ABCDEF"

  function Digit(d: nat): char
    requires d < 16
  {
    HEX_DIGITS[d]
  }

  /** Value of a digit character, upper or lower case; 16 when it is none. */
  function DigitValue(c: char): nat {
    if '0' <= c <= '9' then (c as int - '0' as int)
    else if 'A' <= c <= 'F' then (c as int - 'A' as int + 10)
    else if 'a' <= c <= 'f' then (c as int - 'a' as int + 10)
    else 16
  }

  function Radix(hex: bool): nat {
    if hex then 16 else 10
  }

  function Scaled(n: nat, hex: bool): nat {
    if hex then n * 16 else n * 10
  }

  predicate AllDigits(s: string, hex: bool) {
    forall i :: 0 <= i < |s| ==> DigitValue(s[i]) < Radix(hex)
  }

  function NumberOf(s: string, hex: bool): nat {
    if s == [] then 0 else Scaled(NumberOf(s[..|s| - 1], hex), hex) + DigitValue(s[|s| - 1])
  }

  function Digits(n: nat, hex: bool): (s: string)
    ensures |s| >= 1
  {
    if n < Radix(hex) then [Digit(n)]
    else if hex then Digits(n / 16, hex) + [Digit(n % 16)]
    else Digits(n / 10, hex) + [Digit(n % 10)]
  }

  lemma DigitRoundTrip(d: nat)
    requires d < 16
    ensures DigitValue(Digit(d)) == d
  {
  }

  lemma {:induction false} DigitsParseBack(n: nat, hex: bool)
    ensures AllDigits(Digits(n, hex), hex) && NumberOf(Digits(n, hex), hex) == n
  {
    if n < Radix(hex) {
      DigitRoundTrip(n);
      assert [Digit(n)][..0] == [];
    } else {
      var q, r := if hex then n / 16 else n / 10, if hex then n % 16 else n % 10;
      DigitsParseBack(q, hex);
      DigitRoundTrip(r);
      var front := Digits(q, hex);
      assert Digits(n, hex) == front + [Digit(r)];
      assert (front + [Digit(r)])[..|front|] == front;
    }
  }

  /** The first number with more than `k` digits. */
  function Limit(k: nat, hex: bool): nat {
    if k == 0 then 1 else Scaled(Limit(k - 1, hex), hex)
  }

  lemma {:induction false} DigitsLength(n: nat, hex: bool, k: nat)
    requires k >= 1 && n < Limit(k, hex)
    ensures |Digits(n, hex)| <= k
  {
    if n >= Radix(hex) {
      assert Limit(0, hex) == 1;
      DigitsLength(if hex then n / 16 else n / 10, hex, k - 1);
    }
  }

  lemma {:induction false} NumberBound(s: string, hex: bool, k: nat)
    requires AllDigits(s, hex) && |s| <= k
    ensures NumberOf(s, hex) < Limit(k, hex)
    decreases k
  {
    if s != [] {
      NumberBound(s[..|s| - 1], hex, k - 1);
    } else if k > 0 {
      NumberBound(s, hex, k - 1);
    }
  }

  lemma TenDigits()
    ensures Limit(10, false) == 10_000_000_000
  {
    assert Limit(3, false) == 1000;
    assert Limit(6, false) == 1_000_000;
    assert Limit(9, false) == 1_000_000_000;
  }

  lemma EightHexDigits()
    ensures Limit(8, true) == 0x1_0000_0000
  {
    assert Limit(3, true) == 0x1000;
    assert Limit(6, true) == 0x100_0000;
  }

  // ------------------------------------------------------------ decimals

  function Magnitude(v: int): nat {
    if v < 0 then -v else v
  }

  function FormatInt(v: int): (s: string)
    ensures |s| >= 1
  {
    if v < 0 then "-" + Digits(Magnitude(v), false) else Digits(Magnitude(v), false)
  }

  predicate IsSpace(c: char) {
    c == ' ' || '\t' <= c <= '\r'
  }

  function SkipSpace(s: string): string {
    if s != [] && IsSpace(s[0]) then SkipSpace(s[1..]) else s
  }

  /** The whole text is one decimal number that fits an `int`: what strtol accepts with nothing left over. */
  function ParseInt(s: string): Option<I32> {
    var t := SkipSpace(s);
    var negative := t != [] && t[0] == '-';
    var digits := if t != [] && (t[0] == '-' || t[0] == '+') then t[1..] else t;
    if digits == [] || !AllDigits(digits, false) then None
    else
      var v: int := if negative then 0 - NumberOf(digits, false) else NumberOf(digits, false);
      if INT_MIN <= v <= INT_MAX then Some(v) else None
  }

  /** Strip control characters and blanks from both ends. */
  function Trim(s: string): string {
    if s == [] then s
    else if s[0] <= ' ' then Trim(s[1..])
    else if s[|s| - 1] <= ' ' then Trim(s[..|s| - 1])
    else s
  }

  /** Text without blanks or control characters. */
  predicate Visible(s: string) {
    forall i :: 0 <= i < |s| ==> s[i] > ' '
  }

  lemma {:induction false} TrimNothing(s: string)
    requires Visible(s)
    ensures Trim(s) == s
  {
  }

  lemma DigitsAreVisible(s: string, hex: bool)
    requires AllDigits(s, hex)
    ensures Visible(s)
  {
    forall i | 0 <= i < |s|
      ensures s[i] > ' '
    {
      assert DigitValue(s[i]) < Radix(hex);
    }
  }

  lemma FormatIntIsShortAndVisible(v: I32)
    ensures Visible(FormatInt(v)) && |FormatInt(v)| <= 11
  {
    DigitsParseBack(Magnitude(v), false);
    DigitsAreVisible(Digits(Magnitude(v), false), false);
    TenDigits();
    DigitsLength(Magnitude(v), false, 10);
  }

  lemma {:induction false} ParseDigits(d: string)
    requires d != [] && AllDigits(d, false) && NumberOf(d, false) <= INT_MAX
    ensures ParseInt(d) == Some(NumberOf(d, false))
  {
    assert DigitValue(d[0]) < 10;
    assert SkipSpace(d) == d;
  }

  lemma {:induction false} ParseNegated(d: string)
    requires d != [] && AllDigits(d, false) && NumberOf(d, false) <= -INT_MIN
    ensures ParseInt("-" + d) == Some(0 - NumberOf(d, false))
  {
    var s := "-" + d;
    assert SkipSpace(s) == s && s[1..] == d;
  }

  /** Every printed `int` parses back to itself and needs no trimming. */
  lemma IntRoundTrip(v: I32)
    ensures Trim(FormatInt(v)) == FormatInt(v) && ParseInt(FormatInt(v)) == Some(v)
    ensures |FormatInt(v)| <= 11
  {
    FormatIntIsShortAndVisible(v);
    TrimNothing(FormatInt(v));
    DigitsParseBack(Magnitude(v), false);
    if v < 0 { ParseNegated(Digits(Magnitude(v), false)); } else { ParseDigits(Digits(Magnitude(v), false)); }
  }

  // --------------------------------------------------------- hexadecimals

  function PadZeros(s: string, width: nat): (p: string)
    ensures |p| == if |s| < width then width else |s|
    decreases width - |s|
  {
    if |s| < width then PadZeros("0" + s, width) else s
  }

  function FormatHex8(v: nat): string {
    PadZeros(Digits(v, true), 8)
  }

  /** One to eight hexadecimal digits and nothing else. */
  function ParseHex8(s: string): Option<U32> {
    if 1 <= |s| <= 8 && AllDigits(s, true) then
      NumberBound(s, true, 8);
      EightHexDigits();
      Some(NumberOf(s, true))
    else None
  }

  lemma {:induction false} LeadingZero(s: string)
    requires AllDigits(s, true)
    ensures AllDigits("0" + s, true) && NumberOf("0" + s, true) == NumberOf(s, true)
    decreases |s|
  {
    if s == [] {
      assert ("0" + s)[..0] == [];
    } else {
      LeadingZero(s[..|s| - 1]);
      assert ("0" + s)[..|s|] == "0" + s[..|s| - 1];
    }
  }

  lemma {:induction false} PaddingKeepsNumber(s: string, width: nat)
    requires AllDigits(s, true)
    ensures AllDigits(PadZeros(s, width), true) && NumberOf(PadZeros(s, width), true) == NumberOf(s, true)
    decreases width - |s|
  {
    if |s| < width {
      LeadingZero(s);
      PaddingKeepsNumber("0" + s, width);
    }
  }

  /** Every 32-bit value printed as eight hexadecimal digits parses back to itself. */
  lemma HexRoundTrip(v: U32)
    ensures |FormatHex8(v)| == 8 && ParseHex8(FormatHex8(v)) == Some(v) && Trim(FormatHex8(v)) == FormatHex8(v)
  {
    DigitsParseBack(v, true);
    EightHexDigits();
    DigitsLength(v, true, 8);
    PaddingKeepsNumber(Digits(v, true), 8);
    DigitsAreVisible(FormatHex8(v), true);
    TrimNothing(FormatHex8(v));
  }

  // --------------------------------------------------- ASCII case folding

  function Lower(c: char): char {
    if 'A' <= c <= 'Z' then (c as int - 'A' as int + 'a' as int) as char else c
  }

  function LowerAll(s: string): (t: string)
    ensures |t| == |s|
  {
    seq(|s|, i requires 0 <= i < |s| => Lower(s[i]))
  }

  /** Equal up to ASCII case. */
  predicate SameIgnoringCase(a: string, b: string) {
    |a| == |b| && (a == "" || (Lower(a[0]) == Lower(b[0]) && SameIgnoringCase(a[1..], b[1..])))
  }

  lemma {:induction false} SameAsItself(s: string)
    ensures SameIgnoringCase(s, s)
  {
    if s != "" { SameAsItself(s[1..]); }
  }
}

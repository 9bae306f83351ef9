/**
 * How the page counter's numbers are written out and read back: a number
 * interpolated into a template literal or assigned to `dataset.page` becomes
 * its decimal text, and `parseInt` reads that text back. A page number that
 * `parseInt` could not read is `NaN`.
 */
module Numbers {
  import opened Wrappers
  import opened Strings

  /** A page number as the script holds it: an integer, or `NaN`. */
  datatype PageNumber = Page(n: int) | NaN

  predicate IsDigit(c: char) {
    '0' <= c <= '9'
  }

  predicate AllDigits(s: string) {
    forall k :: 0 <= k < |s| ==> IsDigit(s[k])
  }

  function DigitChar(d: nat): (c: char)
    requires d < 10
    ensures IsDigit(c) && c as int - '0' as int == d
  {
    ('0' as int + d) as char
  }

  /** Decimal digits of a natural number, without leading zeros. */
  function NatDecimal(n: nat): (s: string)
    ensures |s| >= 1 && AllDigits(s)
    ensures s[0] == '0' ==> n == 0
  {
    if n < 10 then [DigitChar(n)] else NatDecimal(n / 10) + [DigitChar(n % 10)]
  }

  /** JavaScript's text for an integral number: a minus sign before a negative one. */
  function Decimal(n: int): (s: string)
    ensures |s| >= 1 && (s[0] == '-' || IsDigit(s[0]))
    ensures AllDigits(s[1..])
  {
    if n < 0 then "-" + NatDecimal(-n) else NatDecimal(n)
  }

  /** The value of a string of decimal digits. */
  function DigitsValue(ds: string): nat
    requires AllDigits(ds)
  {
    if ds == [] then 0 else DigitsValue(ds[..|ds| - 1]) * 10 + (ds[|ds| - 1] as int - '0' as int)
  }

  /** The longest prefix of `s` made of decimal digits. */
  function DigitPrefix(s: string): (p: string)
    ensures |p| <= |s| && p == s[..|p|] && AllDigits(p)
    ensures |p| == |s| || !IsDigit(s[|p|])
  {
    if |s| > 0 && IsDigit(s[0]) then [s[0]] + DigitPrefix(s[1..]) else ""
  }

  /**
   * `parseInt(s)` with radix 10: leading whitespace is skipped, then an
   * optional sign, then the longest run of digits; no digits at all is `NaN`
   * (`None`).
   */
  function ParseInt(s: string): Option<int> {
    var t := TrimStart(s);
    var negative := |t| > 0 && t[0] == '-';
    var body := if |t| > 0 && (t[0] == '-' || t[0] == '+') then t[1..] else t;
    var ds := DigitPrefix(body);
    if ds == [] then None
    else
      var v: int := DigitsValue(ds);
      Some(if negative then -v else v)
  }

  /** `parseInt` of an attribute value, where an absent attribute reads as `NaN`. */
  function ParsePage(attribute: Option<string>): PageNumber {
    match attribute
    case None => NaN
    case Some(s) =>
      match ParseInt(s)
      case Some(n) => Page(n)
      case None => NaN
  }

  lemma {:induction false} DigitsValueOfNatDecimal(n: nat)
    ensures DigitsValue(NatDecimal(n)) == n
  {
    var s := NatDecimal(n);
    if n >= 10 {
      DigitsValueOfNatDecimal(n / 10);
      assert s[..|s| - 1] == NatDecimal(n / 10);
    }
  }

  lemma DigitPrefixOfDigits(s: string)
    requires AllDigits(s)
    ensures DigitPrefix(s) == s
  {
  }

  /** Reading back the decimal text of any integer gives that integer. */
  lemma ParseDecimal(n: int)
    ensures ParseInt(Decimal(n)) == Some(n)
  {
    var s := Decimal(n);
    assert !IsWhitespace(s[0]);
    assert TrimStart(s) == s;
    var m: nat := if n < 0 then -n else n;
    DigitsValueOfNatDecimal(m);
    DigitPrefixOfDigits(NatDecimal(m));
    if n < 0 {
      assert s[1..] == NatDecimal(m);
    }
  }

  /** Reading the `data-page` attribute written from page `n` gives page `n`. */
  lemma ParsePageOfDecimal(n: int)
    ensures ParsePage(Some(Decimal(n))) == Page(n)
  {
    ParseDecimal(n);
  }

  /** Distinct integers have distinct decimal texts. */
  lemma DecimalInjective(a: int, b: int)
    requires Decimal(a) == Decimal(b)
    ensures a == b
  {
    ParseDecimal(a);
    ParseDecimal(b);
  }
}

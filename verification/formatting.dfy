/** Python's rendering of values as text (`str(x)` and f-string
    interpolation) for the values the notification texts interpolate:
    integers, strings and None. asyncpg also reports a DELETE as
    "DELETE <count>" with the count written in decimal. */
module Formatting {
  import opened Common

  predicate IsDigit(c: char)
  {
    '0' <= c <= '9'
  }

  predicate AllDigits(s: string)
  {
    forall i :: 0 <= i < |s| ==> IsDigit(s[i])
  }

  function DigitChar(d: nat): (c: char)
    requires d < 10
    ensures IsDigit(c) && c as int - '0' as int == d
  {
    (d + '0' as int) as char
  }

  function DigitValue(c: char): nat
    requires IsDigit(c)
  {
    c as int - '0' as int
  }

  /** The decimal numeral of n: at least one digit, and no leading zero
      unless n is zero. */
  function NatToDecimal(n: nat): (s: string)
    ensures |s| >= 1 && AllDigits(s)
    ensures s[0] == '0' <==> n == 0
    ensures n == 0 ==> s == "0"
    decreases n
  {
    if n < 10 then [DigitChar(n)] else NatToDecimal(n / 10) + [DigitChar(n % 10)]
  }

  /** The number a string of decimal digits denotes. */
  function DecimalValue(s: string): nat
    requires AllDigits(s)
  {
    if s == [] then 0 else DecimalValue(s[..|s| - 1]) * 10 + DigitValue(s[|s| - 1])
  }

  /** Reading back the numeral of n gives n. */
  lemma {:induction false} DecimalRoundTrip(n: nat)
    ensures DecimalValue(NatToDecimal(n)) == n
  {
    if n >= 10 {
      var s := NatToDecimal(n / 10);
      DecimalRoundTrip(n / 10);
      assert (s + [DigitChar(n % 10)])[..|s|] == s;
    }
  }

  /** `str(n)` for a Python int: a minus sign before the magnitude when n is
      negative. */
  function IntToDecimal(n: int): (s: string)
    ensures |s| >= 1
    ensures s[0] == '-' <==> n < 0
    ensures n == 0 ==> s == "0"
    ensures n >= 0 ==> AllDigits(s) && DecimalValue(s) == n && (s[0] == '0' <==> n == 0)
    ensures n < 0 ==> |s| >= 2 && AllDigits(s[1..]) && DecimalValue(s[1..]) == -n && s[1] != '0'
    ensures forall i :: 0 <= i < |s| ==> IsDigit(s[i]) || s[i] == '-'
  {
    if n < 0 then
      DecimalRoundTrip(-n);
      assert ("-" + NatToDecimal(-n))[1..] == NatToDecimal(-n);
      "-" + NatToDecimal(-n)
    else
      DecimalRoundTrip(n);
      NatToDecimal(n)
  }

  /** Distinct integers are rendered as distinct texts. */
  lemma IntToDecimalInjective(a: int, b: int)
    requires IntToDecimal(a) == IntToDecimal(b)
    ensures a == b
  {
    if a < 0 {
      assert b < 0;
      assert NatToDecimal(-a) == IntToDecimal(a)[1..] == NatToDecimal(-b);
      DecimalRoundTrip(-a);
      DecimalRoundTrip(-b);
    } else {
      assert b >= 0;
      DecimalRoundTrip(a);
      DecimalRoundTrip(b);
    }
  }

  /** f"{x}" for an int that may be None: Python prints None as "None". */
  function OptionalIntText(x: Option<int>): (s: string)
    ensures ' ' !in s && '\n' !in s && ',' !in s
  {
    match x
    case None => "None"
    case Some(n) => IntToDecimal(n)
  }

  /** Distinct optional integers are rendered as distinct texts: no numeral
      reads "None". */
  lemma OptionalIntTextInjective(x: Option<int>, y: Option<int>)
    requires OptionalIntText(x) == OptionalIntText(y)
    ensures x == y
  {
    if x.Some? && y.Some? {
      IntToDecimalInjective(x.value, y.value);
    }
  }

  /** f"{x}" for a string that may be None. Unlike the numbers, a title
      "None" and a missing title read the same. */
  function OptionalText(x: Option<string>): (s: string)
    ensures x.Some? ==> s == x.value
    ensures s == "None" <==> x == None || x == Some("None")
  {
    match x
    case None => "None"
    case Some(t) => t
  }

  /** Text cut at the first occurrence of a separator that the part before
      it does not contain comes apart in only one way. */
  lemma SplitAtSeparator(sep: char, a: string, b: string, a': string, b': string)
    requires sep !in a && sep !in a'
    requires |b| > 0 && b[0] == sep && |b'| > 0 && b'[0] == sep
    requires a + b == a' + b'
    ensures a == a' && b == b'
  {
    var s := a + b;
    assert s[|a|] == sep;
    assert s[|a'|] == sep;
    assert forall i :: 0 <= i < |a| ==> s[i] == a[i];
    assert forall i :: 0 <= i < |a'| ==> s[i] == a'[i];
    assert |a| == |a'|;
    assert a == s[..|a|] == a';
    assert b == s[|a|..] == b';
  }

  /** The pieces of `a + (b + (c + (d + e)))` sit at the offsets their
      lengths give, and whatever `e` ends with, the whole text ends with. */
  lemma Framed(a: string, b: string, c: string, d: string, e: string, t: string)
    requires |e| >= |t| && e[|e| - |t|..] == t
    ensures var s, i, j, k := a + (b + (c + (d + e))), |a| + |b|, |a| + |b| + |c|, |a| + |b| + |c| + |d|;
            |s| == k + |e|
            && s[..|a|] == a && s[|a|..i] == b && s[i..j] == c && s[j..k] == d && s[k..] == e
            && s[|s| - |t|..] == t
  {
    var s := a + (b + (c + (d + e)));
    assert s == (((a + b) + c) + d) + e;
    assert s[|s| - |t|..] == e[|e| - |t|..];
  }

  /** Two texts that agree after the same prefix are equal. */
  lemma PrefixCancel(p: string, x: string, y: string)
    requires p + x == p + y
    ensures x == y
  {
    assert x == (p + x)[|p|..];
    assert y == (p + y)[|p|..];
  }

  /** Two texts that agree before the same suffix are equal. */
  lemma SuffixCancel(x: string, y: string, q: string)
    requires x + q == y + q
    ensures x == y
  {
    assert x == (x + q)[..|x|];
    assert y == (y + q)[..|y|];
  }
}

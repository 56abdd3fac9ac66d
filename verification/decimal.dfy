/** Decimal rendering of integers, as JavaScript's `Number.prototype.toString`
    and `JSON.stringify` produce it for the safe integers, `|x| <= 2^53`,
    together with the parsers that invert it. Larger magnitudes are not
    modelled: there not every integer is a JavaScript number, `toString`
    prints the shortest digits that round-trip padded with zeros, and from
    10^21 on it switches to exponent form. */
module Decimal {
  import opened Wrappers

  predicate IsDigit(c: char) {
    '0' <= c <= '9'
  }

  predicate AllDigits(s: string) {
    forall i :: 0 <= i < |s| ==> IsDigit(s[i])
  }

  /** A digit string as `toString` writes it: non-empty, and no leading zero
      unless the whole string is "0". */
  predicate IsCanonical(s: string) {
    && |s| > 0
    && AllDigits(s)
    && (s[0] == '0' ==> |s| == 1)
  }

  function DigitChar(d: nat): (c: char)
    requires d < 10
    ensures IsDigit(c)
  {
    (48 + d) as char
  }

  function DigitValue(c: char): (d: nat)
    requires IsDigit(c)
    ensures d < 10
  {
    (c as int) - 48
  }

  /** The number a digit string denotes (most significant digit first). */
  function Value(s: string): nat
    requires AllDigits(s)
  {
    if |s| == 0 then 0 else Value(s[..|s| - 1]) * 10 + DigitValue(s[|s| - 1])
  }

  /** `n.toString()` for a non-negative integer `n`. */
  function NatToDecimal(n: nat): (r: string)
    ensures IsCanonical(r)
    ensures Value(r) == n
  {
    if n < 10 then [DigitChar(n)]
    else
      var prefix := NatToDecimal(n / 10);
      var r := prefix + [DigitChar(n % 10)];
      assert r[..|r| - 1] == prefix;
      r
  }

  /** `x.toString()` for a safe integer `x` (`|x| <= 2^53`): a minus sign
      before the canonical digits of the magnitude. Beyond 2^53 this is the
      exact rendering, not JavaScript's rounded one. */
  function IntToDecimal(x: int): (r: string)
    ensures |r| > 0 && (r[0] == '-' || IsDigit(r[0]))
    ensures x >= 0 ==> IsCanonical(r) && Value(r) == x
    ensures x < 0 ==> r[0] == '-' && IsCanonical(r[1..]) && Value(r[1..]) == -x
  {
    if x < 0 then ['-'] + NatToDecimal(-x) else NatToDecimal(x)
  }

  lemma {:induction false} LeadingNonZeroIsPositive(s: string)
    requires AllDigits(s) && |s| > 0 && s[0] != '0'
    ensures Value(s) > 0
  {
    if |s| > 1 {
      LeadingNonZeroIsPositive(s[..|s| - 1]);
    }
  }

  /** Every canonical digit string is the rendering of the number it denotes. */
  lemma {:induction false} CanonicalRoundTrip(s: string)
    requires IsCanonical(s)
    ensures NatToDecimal(Value(s)) == s
  {
    if |s| > 1 {
      var prefix := s[..|s| - 1];
      var c := s[|s| - 1];
      DropLastDigit(s);
      LeadingNonZeroIsPositive(prefix);
      CanonicalRoundTrip(prefix);
      AppendDigit(Value(prefix), c);
    }
  }

  /** A canonical string of two or more digits is a canonical string with
      a leading non-zero digit, followed by one more digit. */
  lemma DropLastDigit(s: string)
    requires IsCanonical(s) && |s| > 1
    ensures IsCanonical(s[..|s| - 1]) && s[..|s| - 1][0] != '0'
    ensures IsDigit(s[|s| - 1])
    ensures Value(s) == Value(s[..|s| - 1]) * 10 + DigitValue(s[|s| - 1])
    ensures s == s[..|s| - 1] + [s[|s| - 1]]
  {
    var prefix := s[..|s| - 1];
    assert forall i :: 0 <= i < |prefix| ==> prefix[i] == s[i];
  }

  /** Appending a digit to a positive number's rendering renders ten times
      the number plus that digit. */
  lemma AppendDigit(a: nat, c: char)
    requires a > 0 && IsDigit(c)
    ensures NatToDecimal(a * 10 + DigitValue(c)) == NatToDecimal(a) + [c]
  {
    var d := DigitValue(c);
    DivModDigit(a, d);
    assert DigitChar(d) == c;
  }

  lemma DivModDigit(a: nat, d: nat)
    requires d < 10
    ensures (a * 10 + d) / 10 == a && (a * 10 + d) % 10 == d
  {
  }

  /** Distinct numbers render to distinct strings, and every rendering is
      canonical; so a canonical digit string names exactly one number. */
  lemma NatToDecimalInjective(a: nat, b: nat)
    ensures NatToDecimal(a) == NatToDecimal(b) <==> a == b
  {
  }

  /** The number of leading decimal digits of `s`. */
  function DigitSpan(s: string): (k: nat)
    ensures k <= |s|
    ensures AllDigits(s[..k])
    ensures k < |s| ==> !IsDigit(s[k])
  {
    if |s| == 0 || !IsDigit(s[0]) then 0
    else
      var k := 1 + DigitSpan(s[1..]);
      assert s[..k] == [s[0]] + s[1..][..k - 1];
      k
  }

  lemma {:induction false} DigitSpanOfDigits(d: string, rest: string)
    requires AllDigits(d)
    requires |rest| == 0 || !IsDigit(rest[0])
    ensures DigitSpan(d + rest) == |d|
  {
    if |d| > 0 {
      assert (d + rest)[1..] == d[1..] + rest;
      DigitSpanOfDigits(d[1..], rest);
    }
  }

  /** Reads a run of at least one digit from the front of `s`, returning its
      value and the unread remainder. */
  function ParseNatPrefix(s: string): (r: Option<(nat, string)>)
    ensures r.Some? ==> |r.value.1| < |s|
    ensures r.Some? ==> r.value.1 == s[DigitSpan(s)..]
  {
    var k := DigitSpan(s);
    if k == 0 then None else Some((Value(s[..k]), s[k..]))
  }

  /** Reads an integer (optional minus sign, then at least one digit) from the
      front of `s`, returning its value and the unread remainder. */
  function ParseIntPrefix(s: string): (r: Option<(int, string)>)
    ensures r.Some? ==> |r.value.1| < |s|
  {
    if |s| > 0 && s[0] == '-' then
      match ParseNatPrefix(s[1..])
      case Some((m, rest)) => Some((-(m as int), rest))
      case None => None
    else
      match ParseNatPrefix(s)
      case Some((m, rest)) => Some((m as int, rest))
      case None => None
  }

  lemma ParseNatPrefixRoundTrip(n: nat, rest: string)
    requires |rest| == 0 || !IsDigit(rest[0])
    ensures ParseNatPrefix(NatToDecimal(n) + rest) == Some((n, rest))
  {
    var d := NatToDecimal(n);
    DigitSpanOfDigits(d, rest);
    assert (d + rest)[..|d|] == d;
    assert (d + rest)[|d|..] == rest;
  }

  /** A minus sign negates whatever magnitude follows it. */
  lemma ParseNegated(t: string)
    ensures ParseIntPrefix(['-'] + t) ==
      match ParseNatPrefix(t)
      case Some((m, rest)) => Some((-(m as int), rest))
      case None => None
  {
    assert (['-'] + t)[1..] == t;
  }

  lemma NegatedRoundTrip(d: string, n: nat, rest: string)
    requires ParseNatPrefix(d + rest) == Some((n, rest))
    ensures ParseIntPrefix(['-'] + d + rest) == Some((-(n as int), rest))
  {
    ConsAssociates('-', d, rest);
    ParseNegated(d + rest);
  }

  lemma NegativePrefixRoundTrip(x: int, rest: string)
    requires x < 0
    requires |rest| == 0 || !IsDigit(rest[0])
    ensures ParseIntPrefix(IntToDecimal(x) + rest) == Some((x, rest))
  {
    ParseNatPrefixRoundTrip(-x, rest);
    NegatedRoundTrip(NatToDecimal(-x), -x, rest);
  }

  lemma NonNegativePrefixRoundTrip(x: int, rest: string)
    requires x >= 0
    requires |rest| == 0 || !IsDigit(rest[0])
    ensures ParseIntPrefix(IntToDecimal(x) + rest) == Some((x, rest))
  {
    var s := NatToDecimal(x) + rest;
    assert s[0] == NatToDecimal(x)[0];
    ParseNatPrefixRoundTrip(x, rest);
  }

  /** Parsing stops exactly where a rendered integer ends. */
  lemma ParseIntPrefixRoundTrip(x: int, rest: string)
    requires |rest| == 0 || !IsDigit(rest[0])
    ensures ParseIntPrefix(IntToDecimal(x) + rest) == Some((x, rest))
  {
    if x < 0 {
      NegativePrefixRoundTrip(x, rest);
    } else {
      NonNegativePrefixRoundTrip(x, rest);
    }
  }

  lemma ConsAssociates(c: char, a: string, b: string)
    ensures [c] + a + b == [c] + (a + b)
  {
  }

  /** Reads a whole string as one integer. */
  function ParseInt(s: string): (r: Option<int>)
    ensures r.Some? ==> |s| > 0
  {
    match ParseIntPrefix(s)
    case Some((x, rest)) => if |rest| == 0 then Some(x) else None
    case None => None
  }

  lemma ParseIntRoundTrip(x: int)
    ensures ParseInt(IntToDecimal(x)) == Some(x)
  {
    ParseIntPrefixRoundTrip(x, "");
    assert IntToDecimal(x) + "" == IntToDecimal(x);
  }
}

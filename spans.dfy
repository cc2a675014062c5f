/** The `multiyears` field: a broader setting written "YYYY-YYYY",
    matched after trimming by /^(\d{4})-(\d{4})$/ (main.js:534-541). */
module Spans {
  import opened Common
  import opened Text

  datatype Span = Span(first: nat, last: nat)

  /** Four digits at the start, a hyphen, four digits at the end, and
      nothing else. */
  predicate MatchesPattern(m: string)
  {
    |m| == 9 && AllDigits(m[..4]) && m[4] == '-' && AllDigits(m[5..])
  }

  /** The regular expression applied to an already trimmed field. */
  function MatchSpan(multi: string): (r: Option<Span>)
    ensures r.Some? <==> MatchesPattern(multi)
    ensures r.Some? ==> r.value.first < 10000 && r.value.last < 10000
  {
    if MatchesPattern(multi) then
      FourDigitsBound(multi[..4]);
      FourDigitsBound(multi[5..]);
      Some(Span(DecimalValue(multi[..4]), DecimalValue(multi[5..])))
    else None
  }

  /** The span band's years, or None when the field is missing, blank or
      not of the form the pattern accepts (no band is drawn then). */
  function ParseSpan(multiyears: Option<string>): Option<Span>
  {
    var multi := if multiyears.Some? then Trim(multiyears.value) else "";
    if |multi| > 0 then MatchSpan(multi) else None
  }

  function Digit(c: char): int
  {
    c as int - '0' as int
  }

  /** The value of four digits, place by place. */
  lemma FourDigitsValue(s: string)
    requires |s| == 4 && AllDigits(s)
    ensures DecimalValue(s) == Digit(s[0]) * 1000 + Digit(s[1]) * 100 + Digit(s[2]) * 10 + Digit(s[3])
  {
    assert s[..3][..2][..1][..0] == [];
    assert s[..3][..2][..1] == s[..1];
    assert s[..3][..2] == s[..2];
    assert DecimalValue(s[..1]) == Digit(s[0]);
    assert DecimalValue(s[..2]) == Digit(s[0]) * 10 + Digit(s[1]);
    assert DecimalValue(s[..3]) == Digit(s[0]) * 100 + Digit(s[1]) * 10 + Digit(s[2]);
  }

  lemma FourDigitsBound(s: string)
    requires |s| == 4 && AllDigits(s)
    ensures DecimalValue(s) < 10000
  {
    FourDigitsValue(s);
  }

  /** A year written with exactly four digits, zero-padded. */
  function Pad4(n: nat): (s: string)
    requires n < 10000
    ensures |s| == 4 && AllDigits(s)
  {
    var tens := n / 10;
    var hundreds := tens / 10;
    var thousands := hundreds / 10;
    [DigitChar(thousands), DigitChar(hundreds % 10), DigitChar(tens % 10), DigitChar(n % 10)]
  }

  lemma Pad4Value(n: nat)
    requires n < 10000
    ensures DecimalValue(Pad4(n)) == n
  {
    FourDigitsValue(Pad4(n));
    var tens := n / 10;
    var hundreds := tens / 10;
    assert n == tens * 10 + n % 10;
    assert tens == hundreds * 10 + tens % 10;
    assert hundreds == hundreds / 10 * 10 + hundreds % 10;
  }

  lemma ValuePad4(s: string)
    requires |s| == 4 && AllDigits(s)
    ensures DecimalValue(s) < 10000 && Pad4(DecimalValue(s)) == s
  {
    FourDigitsValue(s);
    var n := DecimalValue(s);
    var d0, d1, d2, d3 := Digit(s[0]), Digit(s[1]), Digit(s[2]), Digit(s[3]);
    assert n / 10 == d0 * 100 + d1 * 10 + d2 && n % 10 == d3;
    assert n / 10 / 10 == d0 * 10 + d1 && n / 10 % 10 == d2;
    assert n / 10 / 10 / 10 == d0 && n / 10 / 10 % 10 == d1;
    var p := Pad4(n);
    assert p[0] == s[0] && p[1] == s[1] && p[2] == s[2] && p[3] == s[3];
  }

  /** Writing a span and parsing it gives the span back. */
  lemma ParseSpanRoundTrip(a: nat, b: nat)
    requires a < 10000 && b < 10000
    ensures ParseSpan(Some(Pad4(a) + "-" + Pad4(b))) == Some(Span(a, b))
  {
    var m := Pad4(a) + "-" + Pad4(b);
    assert !IsSpace(m[0]) && !IsSpace(m[8]);
    TrimIsCore(m, 0, 9);
    assert m[..4] == Pad4(a) && m[5..] == Pad4(b);
    Pad4Value(a);
    Pad4Value(b);
  }

  /** The pattern admits only the two four-digit years and the hyphen. */
  lemma MatchSpanOnlyPattern(multi: string)
    requires MatchSpan(multi).Some?
    ensures multi == Pad4(MatchSpan(multi).value.first) + "-" + Pad4(MatchSpan(multi).value.last)
  {
    var a, b := multi[..4], multi[5..];
    ValuePad4(a);
    ValuePad4(b);
    assert multi == a + "-" + b;
  }

  /** Only the pattern is accepted: a parsed field is, once trimmed,
      exactly the span written back with four digits per year. */
  lemma ParseSpanOnlyPattern(multiyears: Option<string>)
    requires ParseSpan(multiyears).Some?
    ensures multiyears.Some?
    ensures Trim(multiyears.value) == Pad4(ParseSpan(multiyears).value.first) + "-" + Pad4(ParseSpan(multiyears).value.last)
  {
    MatchSpanOnlyPattern(Trim(multiyears.value));
  }

  /** White space around the field does not matter. */
  lemma ParseSpanIgnoresPadding(s: string)
    ensures ParseSpan(Some(s)) == ParseSpan(Some(Trim(s)))
  {
    TrimTwice(s);
  }
}

/** Axis-year labels (`formatAxisYear`, main.js:74-80) and the far-future
    caption built from them (`yearLabel`, main.js:82-88), on integer years. */
module AxisLabels {
  import opened Common
  import opened Text

  /** `(y / unit).toFixed(0)` for a positive year: the quotient rounded
      to the nearest integer, halves upward. */
  function RoundedQuotient(y: nat, unit: nat): nat
    requires unit > 0
  {
    (2 * y + unit) / (2 * unit)
  }

  /** formatAxisYear: years under 10000 in full, larger ones in thousands
      (k), millions (M), billions (B) or trillions (T). */
  function FormatAxisYear(y: int): string
  {
    if y < 10000 then IntToString(y)
    else if y < 1000000 then NatToString(RoundedQuotient(y, 1000)) + "k"
    else if y < 1000000000 then NatToString(RoundedQuotient(y, 1000000)) + "M"
    else if y < 1000000000000 then NatToString(RoundedQuotient(y, 1000000000)) + "B"
    else NatToString(RoundedQuotient(y, 1000000000000)) + "T"
  }

  /** The value one step of the label's last digit stands for. */
  function LabelUnit(y: int): (u: nat)
    ensures u > 0
  {
    if y < 10000 then 1
    else if y < 1000000 then 1000
    else if y < 1000000000 then 1000000
    else if y < 1000000000000 then 1000000000
    else 1000000000000
  }

  function SuffixUnit(c: char): Option<nat>
  {
    match c
    case 'k' => Some(1000)
    case 'M' => Some(1000000)
    case 'B' => Some(1000000000)
    case 'T' => Some(1000000000000)
    case _ => None
  }

  /** A reader for axis labels: digits with an optional minus sign, or
      digits followed by one of the suffixes k, M, B, T. */
  function ParseAxisLabel(s: string): Option<int>
  {
    if |s| == 0 then None
    else if SuffixUnit(s[|s| - 1]).Some? && |s| > 1 && AllDigits(s[..|s| - 1]) then
      Some(DecimalValue(s[..|s| - 1]) * SuffixUnit(s[|s| - 1]).value)
    else if AllDigits(s) then Some(DecimalValue(s))
    else if s[0] == '-' && |s| > 1 && AllDigits(s[1..]) then
      var v: int := DecimalValue(s[1..]);
      Some(-v)
    else None
  }

  /** A suffixed label reads back as the rounded quotient times its unit,
      which is within half a unit of the year. */
  lemma SuffixedLabelReadsBack(y: nat, u: nat, c: char)
    requires u > 0 && SuffixUnit(c) == Some(u)
    ensures var v := ParseAxisLabel(NatToString(RoundedQuotient(y, u)) + [c]);
      v.Some? && v.value == RoundedQuotient(y, u) * u &&
      2 * (v.value - y) <= u && 2 * (y - v.value) < u
  {
    var n := RoundedQuotient(y, u);
    var t := NatToString(n);
    var s := t + [c];
    assert s[..|s| - 1] == t;
    NatToStringValue(n);
    assert ParseAxisLabel(s) == Some(n * u);
    assert n * (2 * u) <= 2 * y + u < n * (2 * u) + 2 * u;
  }

  /** A label without a suffix reads back as its year exactly. */
  lemma PlainLabelReadsBack(y: int)
    requires y < 10000
    ensures ParseAxisLabel(FormatAxisYear(y)) == Some(y)
  {
    var t := NatToString(if y < 0 then -y else y);
    NatToStringValue(if y < 0 then -y else y);
    if y < 0 {
      var s := "-" + t;
      assert FormatAxisYear(y) == s;
      assert s[1..] == t;
      assert !IsDigit(s[0]);
      assert SuffixUnit(s[|s| - 1]).None?;
    } else {
      assert FormatAxisYear(y) == t;
      assert SuffixUnit(t[|t| - 1]).None?;
    }
  }

  /** Reading a label back gives the year exactly below 10000 and, above,
      the year to within half a unit of the label's suffix. */
  lemma FormatAxisYearReadsBack(y: int)
    ensures ParseAxisLabel(FormatAxisYear(y)).Some?
    ensures y < 10000 ==> ParseAxisLabel(FormatAxisYear(y)).value == y
    ensures 2 * (ParseAxisLabel(FormatAxisYear(y)).value - y) <= LabelUnit(y)
    ensures 2 * (y - ParseAxisLabel(FormatAxisYear(y)).value) < LabelUnit(y)
  {
    if y < 10000 {
      PlainLabelReadsBack(y);
    } else if y < 1000000 {
      SuffixedLabelReadsBack(y, 1000, 'k');
    } else if y < 1000000000 {
      SuffixedLabelReadsBack(y, 1000000, 'M');
    } else if y < 1000000000000 {
      SuffixedLabelReadsBack(y, 1000000000, 'B');
    } else {
      SuffixedLabelReadsBack(y, 1000000000000, 'T');
    }
  }

  /** The caption of a far-future set year: "> " and the axis's right
      bound, "> 10T" in log mode (10^13) and "> 3000" in linear mode. */
  function FarFutureLabel(isLogScale: bool): (r: string)
    ensures r == if isLogScale then "> 10T" else "> 3000"
  {
    assert NatToString(3) == "3" && NatToString(30) == "30" && NatToString(300) == "300";
    "> " + FormatAxisYear(if isLogScale then 10000000000000 else 3000)
  }
}

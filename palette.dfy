/** The medium-to-colour table and `mColor` (main.js:19-34). */
module Palette {
  import opened Common
  import opened Text

  /** MEDIUM_COLORS: one display colour per known medium. */
  const MediumColors: map<string, string> := map[
    "film"          := "#FF8CA1",
    "prose fiction" := "#00B0BE",
    "television"    := "#FFB255",
    "video game"    := "#8FD7D7",
    "comics"        := "#c084fc",
    "radio"         := "#86efac",
    "tabletop game" := "#fbbf24",
    "drama"         := "#fb923c",
    "ride"          := "#f9a8d4",
    "illustration"  := "#d4d4aa"
  ]

  /** The colour of a medium that is missing or not in the table. */
  const FallbackColor: string := "#8888aa"

  /** The table key a record's medium is looked up under (`medium?.trim()`). */
  function MediumKey(medium: Option<string>): string
  {
    if medium.Some? then Trim(medium.value) else ""
  }

  predicate IsKnown(medium: Option<string>)
  {
    MediumKey(medium) in MediumColors
  }

  predicate IsHexDigit(c: char)
  {
    '0' <= c <= '9' || 'a' <= c <= 'f' || 'A' <= c <= 'F'
  }

  /** A CSS colour of the form #rrggbb. */
  predicate IsHexColor(c: string)
  {
    |c| == 7 && c[0] == '#' && forall k :: 1 <= k < 7 ==> IsHexDigit(c[k])
  }

  /** mColor: the table's colour for the trimmed medium, the fallback
      otherwise; every result is a #rrggbb colour. */
  function MColor(medium: Option<string>): (c: string)
    ensures IsHexColor(c)
    ensures IsKnown(medium) <==> c != FallbackColor
  {
    var key := MediumKey(medium);
    if key in MediumColors then MediumColors[key] else FallbackColor
  }

  /** No two mediums in the table share a colour. */
  lemma MediumColorsInjective(a: string, b: string)
    requires a in MediumColors && b in MediumColors
    requires MediumColors[a] == MediumColors[b]
    ensures a == b
  {
  }

  /** The colour tells the known mediums apart: two records share a
      colour only if both are unknown or both have the same trimmed medium. */
  lemma {:induction false} MColorDistinguishesMediums(a: Option<string>, b: Option<string>)
    requires MColor(a) == MColor(b)
    ensures IsKnown(a) <==> IsKnown(b)
    ensures IsKnown(a) ==> MediumKey(a) == MediumKey(b)
  {
    if IsKnown(a) && IsKnown(b) {
      MediumColorsInjective(MediumKey(a), MediumKey(b));
    }
  }
}

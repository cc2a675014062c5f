/** Which arcs the search box and the medium filters leave active, and the
    style that gives each arc (`isArcActive`, `getArcOpacity` and the
    per-arc loop of `applyCurrentFilter`, main.js:244-264), with the
    medium-filter toggle (`toggleFilter`, main.js:272-293). */
module Filter {
  import opened Common
  import opened Text
  import opened Records

  /** The two attributes the engine sets on an arc. */
  datatype Style = Style(opacity: real, stroke: real)

  const DefaultOpacity: real := 0.22
  const DefaultStroke: real := 1.2
  /** Opacity of an arc the search or the filters leave out. */
  const InactiveOpacity: real := 0.03
  /** Stroke of an active arc while a search or a filter is set. */
  const ActiveStroke: real := 2.0

  /** isArcActive: a non-empty search decides alone, by the lower-cased
      title containing the query (a record without a title never
      matches); otherwise a non-empty filter set admits the records whose
      trimmed medium it holds; otherwise every arc is active. */
  function IsArcActive(query: string, filters: set<string>, d: Record): (r: bool)
    ensures |query| > 0 ==>
      (r <==> d.title.Some? && exists i :: OccursAt(ToLower(d.title.value), query, i))
    ensures |query| == 0 && |filters| > 0 ==>
      (r <==> d.medium.Some? && Trim(d.medium.value) in filters)
    ensures |query| == 0 && |filters| == 0 ==> r
  {
    if |query| > 0 then d.title.Some? && Contains(ToLower(d.title.value), query)
    else if |filters| > 0 then d.medium.Some? && Trim(d.medium.value) in filters
    else true
  }

  /** A search takes precedence: with a query set, the filters do not
      change which arcs are active. */
  lemma SearchIgnoresFilters(query: string, f: set<string>, g: set<string>, d: Record)
    requires |query| > 0
    ensures IsArcActive(query, f, d) == IsArcActive(query, g, d)
  {
  }

  /** Whether any search or filter is set (`hasFilter`). */
  predicate HasFilter(query: string, filters: set<string>)
  {
    |filters| > 0 || |query| > 0
  }

  /** getArcOpacity: inactive arcs nearly vanish; active arcs are drawn
      at the default opacity, raised 2.8 times (capped at 0.7) while a
      search is set. */
  function ArcOpacity(query: string, filters: set<string>, d: Record): (r: real)
    ensures !IsArcActive(query, filters, d) ==> r == InactiveOpacity
    ensures IsArcActive(query, filters, d) && |query| > 0 ==> r == DefaultOpacity * 2.8
    ensures IsArcActive(query, filters, d) && |query| == 0 ==> r == DefaultOpacity
    ensures InactiveOpacity <= r < 0.7
  {
    if !IsArcActive(query, filters, d) then InactiveOpacity
    else if |query| > 0 then Min(DefaultOpacity * 2.8, 0.7)
    else DefaultOpacity
  }

  /** The style `applyCurrentFilter` gives one arc: active arcs are more
      opaque than inactive ones, and thicker only while a search or
      filter is set. */
  function FilterStyle(query: string, filters: set<string>, d: Record): (st: Style)
    ensures st.opacity > InactiveOpacity <==> IsArcActive(query, filters, d)
    ensures st.stroke == ActiveStroke <==> IsArcActive(query, filters, d) && HasFilter(query, filters)
    ensures st.stroke == DefaultStroke <==> !(IsArcActive(query, filters, d) && HasFilter(query, filters))
    ensures st.opacity < 1.0
  {
    var active := IsArcActive(query, filters, d);
    Style(ArcOpacity(query, filters, d), if active && HasFilter(query, filters) then ActiveStroke else DefaultStroke)
  }

  /** The styles of all arcs, arc i drawing record i. */
  function FilterStyles(data: seq<Record>, query: string, filters: set<string>): (r: seq<Style>)
    ensures |r| == |data|
    ensures forall i :: 0 <= i < |data| ==> r[i] == FilterStyle(query, filters, data[i])
  {
    seq(|data|, i requires 0 <= i < |data| => FilterStyle(query, filters, data[i]))
  }

  /** With nothing set, every arc gets the default style: the filter step
      then undoes any earlier highlight. */
  lemma NoFilterIsDefault(data: seq<Record>)
    ensures forall i :: 0 <= i < |data| ==> FilterStyles(data, "", {})[i] == Style(DefaultOpacity, DefaultStroke)
  {
  }

  /** The positions of the active arcs. */
  function ActiveSet(data: seq<Record>, query: string, filters: set<string>): (r: set<nat>)
    ensures forall i :: i in r <==> 0 <= i < |data| && IsArcActive(query, filters, data[i])
  {
    set i: nat | i < |data| && IsArcActive(query, filters, data[i])
  }

  // ---------------------------------------------------------------------
  // toggleFilter (main.js:272-293)
  // ---------------------------------------------------------------------

  /** The filter set after a click on a medium button (None for "All"):
      "All" empties it; in multi-select mode only the clicked medium's
      membership flips; in single-select mode the clicked medium becomes
      the only one, unless it already was, which empties the set. */
  function Toggled(filters: set<string>, medium: Option<string>, multi: bool): (r: set<string>)
    ensures medium.None? ==> r == {}
    ensures medium.Some? && multi ==>
      forall x :: x in r <==> (if x == medium.value then x !in filters else x in filters)
    ensures medium.Some? && !multi ==> |r| <= 1
    ensures medium.Some? && !multi ==> (r == {} <==> filters == {medium.value})
    ensures medium.Some? && !multi && r != {} ==> r == {medium.value}
  {
    if medium.None? then {}
    else if multi then
      if medium.value in filters then filters - {medium.value} else filters + {medium.value}
    else if |filters| == 1 && medium.value in filters then
      SingletonIs(filters, medium.value);
      {}
    else {medium.value}
  }

  /** A one-element set holding `x` is {x}. */
  lemma SingletonIs(s: set<string>, x: string)
    requires |s| == 1 && x in s
    ensures s == {x}
  {
    var rest := s - {x};
    assert |rest| == 0;
  }

  /** In multi-select mode, clicking the same medium twice restores the
      filter set. */
  lemma ToggleTwice(filters: set<string>, medium: string)
    ensures Toggled(Toggled(filters, Some(medium), true), Some(medium), true) == filters
  {
  }
}

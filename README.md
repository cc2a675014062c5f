# sci-fi-timeline: a verified model of the chart engine

The sci-fi-timeline page draws one arc per work of futuristic fiction. Each
arc runs from the year the work was released to the year it is set in, above
or below a year axis. This project models the engine behind that page, which
lives in `main.js`, and proves what the engine promises. The engine covers
these parts:

- **Loading the CSV rows.** Rows whose years do not parse are dropped. The
  rest are sorted by (released, set year) and placed alternately above and
  below the axis. The series map is built from them, and sibling lookups read
  it. This is `records.dfy`, with the load loops in `timeline.dfy`.
- **The x scale.** Linear mode clamps to [1700, 3000]. Hybrid log mode uses a
  linear part up to 3000 and a log part up to 1e13. A far-future arc is pinned
  to the right edge of the axis. This is `scale.dfy`, which also holds the
  geometry of an arc (end points, control point, height clamp) and the
  axis band drawn for a multi-year setting.
- **Search and medium filters.** These decide which arcs are active, and so
  each arc's opacity and stroke and whether it is raised in the painting
  order. The medium-button state machine lives here too. This is
  `filter.dfy`, with the painting order in `draw_order.dfy`.
- **Highlighting.** The three-level highlight is full, sibling or dimmed.
  This is `highlight.dfy`.
- **Hover and selection.** The hover/selection state machine (hover, leave,
  click, deselect, background click), the redraw that restores a selection,
  and the scale and search controls. This is the `Timeline.Chart` class in
  `timeline.dfy`. Its fields are the page's globals. Its methods are the
  handlers. Their `modifies` clauses name exactly the globals each handler
  writes.
- **Small pure helpers.** These are the axis-year labels (k/M/B/T) in
  `axis_labels.dfy`, the medium colours in `palette.dfy`, the `YYYY-YYYY`
  span parser in `spans.dfy`, and the JavaScript string operations the
  engine relies on (trim, ASCII lower-casing, `includes`, decimal digits) in
  `text.dfy`.

The SVG is reduced to what the engine decides about it. Arc i draws record
i. For each arc the model keeps its geometry (an `Arc`) and its style (an
opacity and a stroke width). It also keeps the painting order, as a
sequence of arc positions, since `raise()` moves arcs to the end. It keeps
what the highlight layer shows (`Overlay`) and which record the sidebar
describes (`Panel`).

The chart's invariants are predicates of the class:

- `DataOk`: the series map is the one built from the records.
- `ArcsOk`: after a draw, the arcs are the ones drawn from the records with
  the current scale and layout.
- `Wf`: one style per arc, every arc painted exactly once, and the overlay
  and sidebar name existing records.
- `Valid`: a selected record with a non-empty id (`Truthy`) is always drawn
  highlighted. The restore in `drawViz` tests `selectedId !== null`
  (main.js:377-381), and `onClick` selects and highlights any id, the empty
  one included (main.js:645-651). But the search handler (main.js:217) and
  `toggleFilter` (main.js:273) deselect only under `if (selectedId)`, which
  is false for "". For an empty id they re-apply the filter styles and keep
  the selection, so its highlight is lost. That is why `Valid` covers only
  `Truthy` selections.
- In the source, "always drawn highlighted" also lapses while the pointer
  is on an item of the sidebar's series list. Its `mouseenter` handler
  (main.js:759-766) highlights that sibling instead, and `mouseleave`
  restores the selection. Those handlers are not modelled (see
  "## Left out"), so the model does not capture this lapse.

Every handler keeps these invariants, except `ClearSearchAsWritten`. That
member models the clear button as the source writes it, which keeps only
`Wf` (see "## Findings"). Each handler's postconditions give
its new state in terms of the specification functions `FilterStyles`,
`FilterOrder`, `HighlightStyles` and `Raise`. The lemmas of the other modules
prove what those functions mean.

## Model

| member | source | states |
|---|---|---|
| Text.Trim | main.js:165 | `trim()`, as the start and end halves; its contract is carried by TrimIsCore, TrimEnds and TrimTwice |
| Text.TrimStartSpec | main.js:165 | trim's first half drops exactly the leading white space: the result is a suffix, everything cut is white space, and it starts with non-space |
| Text.TrimEndSpec | main.js:165 | trim's second half drops exactly the trailing white space |
| Text.TrimEnds | main.js:165 | a trimmed string neither starts nor ends with white space |
| Text.TrimIsCore | main.js:165 | trim returns exactly the slice between the surrounding white space |
| Text.TrimTwice | main.js:215 | trimming twice is trimming once |
| Text.LowerChar | main.js:215 | toLowerCase moves exactly the ASCII capitals 32 code points up, onto the lower-case letters, and leaves every other character alone |
| Text.ToLower | main.js:245 | lower-casing keeps the length and lower-cases each character in place |
| Text.Contains | main.js:245 | `includes` holds exactly when the pattern occurs at some index of the text |
| Text.NatToString | main.js:75 | String(n) of a natural number is a non-empty run of digits without a leading zero |
| Text.IntToString | main.js:75 | String(n) of an integer starts with a minus sign exactly when n is negative |
| Text.NatToStringValue | main.js:75 | reading back the digits of String(n) gives n |
| Palette.MColor | main.js:32-34 | the colour of a medium is always a #rrggbb colour, and differs from the fallback exactly when the trimmed medium is in the table |
| Palette.MediumColorsInjective | main.js:19-30 | no two mediums in the table share a colour |
| Palette.MColorDistinguishesMediums | main.js:32-34 | two records get the same colour only if both mediums are unknown or both have the same trimmed medium |
| AxisLabels.FormatAxisYear | main.js:74-80 | the axis label of a year; FormatAxisYearReadsBack carries its contract |
| AxisLabels.SuffixedLabelReadsBack | main.js:76-79 | a k/M/B/T label reads back as the rounded quotient times its unit, within half a unit of the year |
| AxisLabels.PlainLabelReadsBack | main.js:75 | a year under 10000, negative ones included, is printed in full and reads back exactly |
| AxisLabels.FormatAxisYearReadsBack | main.js:74-80 | every label reads back; exactly below 10000, and above that to within half the unit of the label's suffix |
| AxisLabels.FarFutureLabel | main.js:82-86 | the far-future caption is "> 3000" in linear mode and "> 10T" in log mode |
| Spans.ParseSpan | main.js:534-536 | the trimmed `multiyears` field matched as a span; ParseSpanRoundTrip, ParseSpanOnlyPattern and ParseSpanIgnoresPadding carry its contract |
| Spans.MatchSpan | main.js:536 | the pattern matches exactly a nine-character `dddd-dddd` string, and both years are under 10000 |
| Spans.ParseSpanRoundTrip | main.js:534-536 | writing two years as `YYYY-YYYY` and parsing the field gives them back |
| Spans.MatchSpanOnlyPattern | main.js:536 | a matched string is exactly its two years written back with four digits each and a hyphen |
| Spans.ParseSpanOnlyPattern | main.js:534-536 | a field that parses is present, and once trimmed is exactly the span written back |
| Spans.ParseSpanIgnoresPadding | main.js:534 | white space around the field does not change the parse |
| Records.Keeps | main.js:157 | the row filter: both years are numbers and the set year is positive; Records.Parsed states what it keeps |
| Records.Parsed | main.js:148-157 | every row with two numeric years and a positive set year is kept, converted, and nothing else is; kept records have positive set years and clear layout flags |
| Records.ParsedAppend | main.js:148-157 | the filter keeps CSV order: the kept rows of a first part of the file come before those of the rest |
| Records.Compare | main.js:160 | the comparator is non-positive exactly for pairs in (released, set year) order, and zero exactly when both years tie |
| Records.Insert | main.js:160 | inserting adds exactly the one record to the multiset of records |
| Records.InsertSorted | main.js:160 | inserting into a sorted list keeps it sorted |
| Records.SortByYears | main.js:160 | the sort is a permutation and sorted by (released, set year); SortStable gives its stability |
| Records.InsertTies | main.js:160 | inserting a record puts it ahead of every record it ties with and keeps their order |
| Records.SortStable | main.js:160 | the sort is stable: the records tied with any record keep their relative order |
| Records.LoadRecords | main.js:148-161 | the load step's records; LoadRecordsSpec and LoadKeepsTieOrder carry its contract |
| Records.LoadRecordsSpec | main.js:148-161 | once their layout flags are cleared, the loaded records are exactly the kept rows, with their multiplicities; they have positive set years, are sorted, and alternate |
| Records.LoadKeepsTieOrder | main.js:148-161 | loaded records tied on both years keep their CSV order, so the CSV decides which of them bows upward |
| Records.AlternationAlternates | main.js:161 | the first record bows upward and neighbours bow to opposite sides |
| Records.Positions | main.js:164-170 | the series positions are exactly the indices of the records with that key, all in range and strictly increasing |
| Records.BuildSeries | main.js:164-170 | the series map the load loop builds; BuildSeriesAt and BuildSeriesSpec carry its contract |
| Records.BuildSeriesAt | main.js:164-170 | for one key, the map has an entry exactly when the key is non-empty and some record carries it, and that entry lists the key's positions in load order |
| Records.BuildSeriesSpec | main.js:164-170 | the same, for every key at once |
| Records.BuildSeriesSameKeys | main.js:164-170 | the series map depends only on the records' series keys |
| Records.BuildSeriesValid | main.js:164-170 | every position in the series map points into the records |
| Records.PickOthers | main.js:500 | the filter never keeps the record's own id |
| Records.Siblings | main.js:497-501 | getSiblings never returns a record with the record's own id |
| Records.PickPositions | main.js:500 | filtering the positions of a key out of the map gives exactly the other records of that series in load order |
| Records.SiblingsAreSameSeries | main.js:497-501 | over the loaded series map, getSiblings is empty for a record with no series, and otherwise exactly the other records of its series in load order |
| Records.SameSeriesOthersMembers | main.js:497-501 | a record is among the same-series others exactly when it is loaded, has the key, and has another id |
| Records.FindFrom | main.js:378 | the search from k finds the first record from k with the id, or reports that none has it |
| Records.FindById | main.js:378 | `allData.find` gives the first record with the id, and fails exactly when no record has it |
| Scale.IsFarFuture | main.js:101-115 | a year is far-future exactly when it exceeds 3000 in linear mode, and 1e13 in log mode |
| Scale.ScaleX | main.js:95-114 | scaleX for the chart's mode and width; LinearModeClamps, LogModeBounds and LogModeMonotone carry its contract |
| Scale.LinearBetween | main.js:96-98 | an increasing linear scale maps its domain into its range and keeps the order |
| Scale.LinearEnds | main.js:96-98 | the domain ends map to the range ends |
| Scale.LinearModeClamps | main.js:95-101 | in linear mode every year lands in the plot area, the scale never decreases, and years up to 1700 and from 3000 on sit on the edges |
| Scale.SplitInside | main.js:106-107 | the linear/log split lies inside the plot area |
| Scale.LogPart | main.js:109 | with an increasing logarithm, the log part maps (3000, 1e13] into [split, right edge] in order, with 1e13 on the edge |
| Scale.LogModeBounds | main.js:111-114 | in log mode years up to 3000 go through the linear part onto [left margin, split], and no year passes the right edge |
| Scale.LogModeMonotone | main.js:111-115 | with an increasing logarithm, the log-mode scale never decreases, and years from 1e13 on sit on the right edge |
| Scale.GetX2 | main.js:125-130 | the arc's end pixel, pinned for far-future records; GetX2IsScaleX and FarFuturePinned carry its contract |
| Scale.GetX2IsScaleX | main.js:125-130 | when the flag was computed by the same scale, the pinned end is just the set year's pixel |
| Scale.FarFuturePinned | main.js:125-130 | a far-future arc ends on the right edge of the plot area, at scaleX(3000) in linear mode |
| Scale.LayoutFor | main.js:334-336 | the baseline sits midway between the margins, and arcs are at most 46% of the inner height and at most 480 pixels |
| Scale.MakeArc | main.js:132-140 | the arc makeArcPath draws; MakeArcShape carries its contract |
| Scale.MakeArcShape | main.js:132-140 | the arc runs between the two year pixels on the baseline, with the control point at the midpoint, above exactly for `above` records; its height is 0.76 of the span clamped to [6, maxArcH]: exactly 0.76 of the span within the bounds, max(6, maxArcH) when 0.76 of the span reaches maxArcH, and 6 when it is at most 6 |
| Scale.SpanBand | main.js:538-541 | the band runs from the leftmost to the rightmost of its two clamped year pixels, with a non-negative width |
| Scale.SpanBandInPlot | main.js:538-541 | for a chart at least 92 pixels wide, the band lies between the left margin and the right edge, in both modes |
| Filter.IsArcActive | main.js:244-248 | a non-empty search alone decides, by the lower-cased title containing it; otherwise a non-empty filter set must hold the trimmed medium; otherwise every arc is active |
| Filter.SearchIgnoresFilters | main.js:244-246 | with a search set, the filters do not change which arcs are active |
| Filter.ArcOpacity | main.js:250-253 | opacity is 0.03 when inactive, 0.22 times 2.8 when active under a search, and 0.22 otherwise |
| Filter.FilterStyle | main.js:259-264 | an arc is more opaque than 0.03 exactly when active, and gets stroke 2.0 exactly when active under a search or filter |
| Filter.FilterStyles | main.js:259-264 | one filter style per record, arc i styled from record i |
| Filter.NoFilterIsDefault | main.js:257-264 | with nothing set, every arc gets the default style |
| Filter.ActiveSet | main.js:268 | the raised arcs are exactly the active ones |
| Filter.Toggled | main.js:275-293 | "All" empties the set; multi-select flips only the clicked medium; single-select leaves at most one medium, empties the set exactly when the clicked medium was the only one, and otherwise leaves just that one |
| Filter.ToggleTwice | main.js:278-284 | in multi-select mode, clicking the same medium twice restores the set |
| Highlight.HighlightStyle | main.js:506-523 | the style one arc gets from the three passes; HighlightLevels carries its contract |
| Highlight.HighlightStyles | main.js:503-525 | one style per arc, and the highlighted record's own arc is fully opaque |
| Highlight.FocalSet | main.js:520-521 | the focal arcs are exactly those carrying the record's id |
| Highlight.OthersHaveId | main.js:514 | an id is among the same-series others exactly when some record of the series carries it |
| Highlight.SiblingIds | main.js:497-514 | over the loaded series map, an id other than the record's own is a sibling id exactly when some record of the record's non-empty series carries it |
| Highlight.HighlightLevels | main.js:503-523 | full opacity with the selected or hovered stroke exactly for the record's own id, 0.5/1.8 for other ids of its series, 0.04/1.2 for the rest |
| Highlight.HighlightBySeries | main.js:503-523 | with unique ids: the record alone is at full opacity, the rest of its non-empty series at half, and everything else dimmed |
| DrawOrder.Fresh | main.js:358-369 | a fresh draw paints arc i as the i-th path |
| DrawOrder.Select | main.js:268 | the kept arcs are exactly those of the order on the chosen side of the pick |
| DrawOrder.Raise | main.js:268 | raise() applied to the picked arcs (also main.js:524); RaisePermutes, RaisePutsPickedLast, RaiseKeepsRelativeOrder and RaiseIdempotent carry its contract |
| DrawOrder.RaisePermutes | main.js:268 | raise() only reorders: every arc is painted as often as before |
| DrawOrder.FreshPaintsEach | main.js:358-369 | a fresh draw paints each arc exactly once |
| DrawOrder.RaisePaintsEach | main.js:268 | raise() keeps each arc painted exactly once |
| DrawOrder.RaisePutsPickedLast | main.js:266-269 | after raise(), every picked arc is painted after every other |
| DrawOrder.RaiseKeepsRelativeOrder | main.js:268 | raise() keeps the relative order of the picked arcs and of the others |
| DrawOrder.RaiseIdempotent | main.js:520-524 | raising the same arcs twice is raising them once |
| Timeline.Reflagged | main.js:341 | each record's far-future flag is the new scale's verdict on its set year, and nothing else changes |
| Timeline.ReflaggedKeepsLoad | main.js:341 | recomputing the flags keeps positive set years, the sort and the alternation |
| Timeline.ReflaggedKeepsSeries | main.js:341 | recomputing the flags keeps the series map |
| Timeline.ArcsFor | main.js:358-362 | one arc per record |
| Timeline.ArcsForAt | main.js:358-362 | arc i is the arc makeArcPath draws for record i |
| Timeline.FilterOrder | main.js:266-269 | the filter step keeps each arc painted once, paints the active arcs last while a search or filter is set, and leaves the order alone otherwise |
| Timeline.FilterOrderTwice | main.js:266-269 | applying the filters twice in a row paints in the same order as applying them once |
| Timeline.AssignAlternation | main.js:161 | the alternation loop gives `above` to exactly the even positions |
| Timeline.BuildSeriesMap | main.js:164-170 | the series loop builds exactly the series map |
| Timeline.ReflagPass | main.js:341 | the flag loop leaves exactly the reflagged records |
| Timeline.FilterPass | main.js:259-264 | the per-arc loop leaves exactly the filter styles |
| Timeline.HighlightPass | main.js:506-523 | after the dim, sibling and focal passes, each arc has its highlight style |
| Timeline.Chart.Load | main.js:148-170 | the load step leaves the loaded records and their series map, with nothing filtered, selected or drawn, and the invariants hold |
| Timeline.Chart.ApplyCurrentFilter | main.js:255-270 | nothing before the first draw; then every arc gets its filter style and the order is the filter order |
| Timeline.Chart.ApplyHighlight | main.js:503-525 | the arcs get the highlight styles and the record's own arcs are raised |
| Timeline.Chart.Rescale | main.js:334-341 | a new scale and layout for the chart's size, and the records reflagged by that scale |
| Timeline.Chart.Repaint | main.js:356-372 | every arc is drawn from its record, in default style and record order, under an empty highlight layer |
| Timeline.Chart.Redraw | main.js:330-372 | rescale, then repaint |
| Timeline.Chart.RestoreSelection | main.js:376-387 | a selection whose record is still there is highlighted again with its overlay; otherwise it is dropped and the filters applied |
| Timeline.Chart.DrawViz | main.js:325-388 | nothing changes when the chart has no size; otherwise a full redraw followed by the selection restore, and every invariant kept |
| Timeline.Chart.Deselect | main.js:658-665 | nothing is selected or hovered, the overlay and sidebar are empty, and the filters are applied |
| Timeline.Chart.OnHover | main.js:609-627 | an inactive arc changes nothing; otherwise the arc is hovered, and with nothing selected it is highlighted, overlaid and described; with a selection nothing else changes |
| Timeline.Chart.OnLeave | main.js:629-639 | nothing is hovered; with a selection nothing else changes, and without one the filter styles, an empty overlay and the empty sidebar come back |
| Timeline.Chart.OnClick | main.js:641-656 | an inactive arc changes nothing; clicking the selected record deselects it; any other click selects, hovers, highlights, overlays and describes the record |
| Timeline.Chart.BackgroundClick | main.js:344 | afterwards nothing is selected, and a live selection is deselected with the filters applied |
| Timeline.Chart.ToggleFilter | main.js:272-297 | a live selection is dropped, the filter set becomes the toggled one, and the filter styles are applied with the active arcs painted last; the painting order is the filter order under the new set, applied after the deselect's filter order under the old set |
| Timeline.Chart.ToggleMultiSelect | main.js:203-206 | the button flips the mode |
| Timeline.Chart.SetScale | main.js:314-319 | the mode is switched and the chart redrawn with it |
| Timeline.Chart.SetSearch | main.js:214-219 | the query becomes the lower-cased trimmed text, a live selection is dropped, and the filter styles are applied; the painting order is exactly the filter order of the old order under the new query, with the matches painted last |
| Timeline.Chart.ClearSearchAsWritten | main.js:220-225 | the query is emptied and the filter styles applied while the selection stays, so a selected record is no longer drawn highlighted |
| Timeline.Chart.ClearSearch | main.js:214-225 | clearing the search as the input handler does: the selection is dropped and the chart stays Valid |
| Timeline.FilterHidesHighlight | main.js:220-225 | no set of filter styles is a highlight of a record |

## Left out

- The CSV fetch, the `addEventListener` wiring and the window resize event are I/O. Load takes the rows as a parameter. DrawViz and SetScale take the chart's width and height in pixels, which the source reads from the DOM.
- The DOM and SVG output is left out: the axis and legend (`drawAxis`, `drawLegend`), the SVG elements of `drawOverlay`, the HTML of `updateSidebar`, `syncBtnStyles` and `makeMediumBtn`. The model keeps only which record the overlay and the sidebar show.
- The mini tooltip is left out: its 120 ms hide timer, its positioning from window and element sizes, and the mousemove handler. These are timing and browser metrics.
- The hover handlers of the sidebar's series list (main.js:759-774) are left out. They belong to the HTML that `updateSidebar` builds, which is not modelled.
- `d3.scaleLog` is the parameter `ln`. Its properties are proved for any increasing `ln`. d3's scales are otherwise written out as the affine maps they compute.
- Numbers are mathematical reals. Floating-point rounding is not modelled, and neither are NaN or infinite years beyond the parse filter.
- The SVG path string of `makeArcPath` is not modelled. The arc is kept as its end points and control point.
- `fmt`, `pluralYears` and `toLocaleString` are left out. They only format text for the sidebar and tooltip.
- `formatAxisYear` is modelled on integers. `toFixed(0)` rounds halves upward there. Its exponent notation for quotients of 1e21 or more is not modelled.
- `toLowerCase` is modelled for ASCII letters only. Unicode case mapping is out of scope.
- Array.prototype.sort is modelled as a stable insertion sort. Stability is what the language standard requires of it, and `Records.SortStable` proves it of the model.
- Palette.MColor: `MEDIUM_COLORS` is a plain object, so a medium such as "constructor" or "toString" finds an inherited property and `mColor` returns that function instead of a colour. The model's table has only its ten own keys, so every result is a #rrggbb colour.
- Records.BuildSeries: `seriesMap` is a plain object too. A series id that names an inherited property ("constructor", "toString", "__proto__") passes `!seriesMap[sid]` as present, and `push` then throws a TypeError that stops the load. The model's map starts empty, so the load always succeeds.
- The unary `+` of main.js:151-152 is not modelled: `Records.RawRow` takes each year already converted (`Records.Number`). JavaScript turns an empty or blank cell into 0 rather than NaN, so a row with an empty `released` cell is kept at year 0. The model keeps it only if the conversion given as input is a value.
- The scale lemmas (Scale.LinearModeClamps, Scale.SplitInside, Scale.LogPart, Scale.LogModeBounds, Scale.LogModeMonotone, Scale.FarFuturePinned) require a chart at least 92 pixels wide (`MarginLeft + MarginRight`). `drawViz` draws at any non-zero width, but below 92 pixels the range is inverted, so the scale decreases and the bounds do not hold.
- `seriesMap` stores positions into `allData` rather than references to record objects. Both see the reflagged records.
- Timeline.Chart.DrawViz: `Loaded(allData)` is not part of the class invariant. `Timeline.Chart.Load` establishes it, and `Timeline.ReflaggedKeepsLoad` shows that a draw keeps it.
- Timeline.Chart.SetScale: states only the mode and the new scale. The rest of the redraw is `Timeline.Chart.DrawViz`'s contract.
- Timeline.Chart.ClearSearch: states the query, the dropped selection and the filter styles. The rest is `Timeline.Chart.SetSearch`'s contract.

## Findings

| source | as written | input that shows it | evidently intended | confidence | as-written member | corrected member |
|---|---|---|---|---|---|---|
| main.js:220-225 | The search-clear button empties the query and re-applies the filter styles, but keeps `selectedId`. | Search, click a matching arc to select it, then press the clear button. Every arc gets a filter style below full opacity. The record stays selected, with its overlay and sidebar, but its arc is no longer highlighted. `FilterHidesHighlight` proves no filter styling is a highlight. | Drop a live selection before re-applying the filters, as typing in the search box does (main.js:217). | medium, not executed | Timeline.Chart.ClearSearchAsWritten | Timeline.Chart.ClearSearch |

/** The chart's state (main.js:40-58) and the code that changes it: the
    load step (main.js:148-170), `drawViz` (main.js:326-387),
    `applyCurrentFilter` (main.js:255-270), `toggleFilter`
    (main.js:272-297), the scale and search controls (main.js:204-225,
    313-318), `applyHighlight` (main.js:503-525) and the arc events
    `onHover`, `onLeave`, `onClick` and `deselect` (main.js:609-665).

    The SVG is reduced to what the engine decides about it: per arc (arc i
    draws record i) its geometry and style, the painting order, what the
    highlight layer shows and which record the sidebar describes. */
module Timeline {
  import opened Common
  import opened Text
  import opened Records
  import opened Scale
  import opened Filter
  import opened DrawOrder
  import opened Highlight

  /** The highlight layer: empty, or the overlay of the record at `at`. */
  datatype Overlay = Cleared | Shown(at: nat, isSelected: bool)

  /** The sidebar: the empty hint, or the details of the record at `at`. */
  datatype Panel = EmptyPanel | Details(at: nat)

  /** `if (id)` in JavaScript: null and the empty string are falsy. */
  predicate Truthy(id: Option<string>)
  {
    id.Some? && id.value != ""
  }

  /** The records once a draw has recomputed their far-future flags. */
  function Reflagged(data: seq<Record>, s: Scale): (r: seq<Record>)
    ensures |r| == |data|
    ensures forall i :: 0 <= i < |data| ==> r[i].isFarFuture == IsFarFuture(s, data[i].yearSet)
    ensures forall i :: 0 <= i < |data| ==> r[i].(isFarFuture := data[i].isFarFuture) == data[i]
  {
    seq(|data|, i requires 0 <= i < |data| => data[i].(isFarFuture := IsFarFuture(s, data[i].yearSet)))
  }

  /** Recomputing the flags keeps what the load step established. */
  lemma {:induction false} ReflaggedKeepsLoad(data: seq<Record>, s: Scale)
    requires Loaded(data)
    ensures Loaded(Reflagged(data, s))
  {
    var r := Reflagged(data, s);
    assert forall i :: 0 <= i < |data| ==> r[i].released == data[i].released && r[i].yearSet == data[i].yearSet;
    assert forall i, j :: 0 <= i < j < |r| ==> InOrder(r[i], r[j]);
  }

  /** Recomputing the flags keeps the series map. */
  lemma ReflaggedKeepsSeries(data: seq<Record>, s: Scale)
    ensures BuildSeries(Reflagged(data, s)) == BuildSeries(data)
  {
    BuildSeriesSameKeys(data, Reflagged(data, s));
  }

  /** The arcs drawing `data` with scale `s` and `layout`, arc i drawing
      record i. */
  function ArcsFor(data: seq<Record>, s: Scale, ln: real -> real, layout: Layout): (r: seq<Arc>)
    ensures |r| == |data|
  {
    if data == [] then []
    else ArcsFor(data[..|data| - 1], s, ln, layout) + [MakeArc(s, ln, layout, data[|data| - 1])]
  }

  /** Arc i of ArcsFor is the one makeArcPath draws for record i. */
  lemma {:induction false} ArcsForAt(data: seq<Record>, s: Scale, ln: real -> real, layout: Layout, i: nat)
    requires i < |data|
    ensures ArcsFor(data, s, ln, layout)[i] == MakeArc(s, ln, layout, data[i])
  {
    if i < |data| - 1 {
      ArcsForAt(data[..|data| - 1], s, ln, layout, i);
    }
  }

  /** One arc per record, drawn with scale `s` and `layout` from records
      whose far-future flags that scale computed. */
  ghost predicate DrawnFrom(arcs: seq<Arc>, data: seq<Record>, s: Scale, ln: real -> real, layout: Layout)
  {
    arcs == ArcsFor(data, s, ln, layout) &&
    forall i :: 0 <= i < |data| ==> data[i].isFarFuture == IsFarFuture(s, data[i].yearSet)
  }

  /** The painting order applyCurrentFilter leaves: while a search or a
      filter is set, the active arcs are raised above the others. */
  function FilterOrder(order: seq<nat>, data: seq<Record>, query: string, filters: set<string>): (r: seq<nat>)
    ensures PaintsEach(order, |data|) ==> PaintsEach(r, |data|)
    ensures HasFilter(query, filters) ==> PickedLast(r, ActiveSet(data, query, filters))
    ensures !HasFilter(query, filters) ==> r == order
  {
    RaisePaintsEach(order, ActiveSet(data, query, filters), |data|);
    RaisePutsPickedLast(order, ActiveSet(data, query, filters));
    if HasFilter(query, filters) then Raise(order, ActiveSet(data, query, filters)) else order
  }

  /** Applying the filters twice in a row paints in the same order as
      applying them once. */
  lemma FilterOrderTwice(order: seq<nat>, data: seq<Record>, query: string, filters: set<string>)
    ensures FilterOrder(FilterOrder(order, data, query, filters), data, query, filters) ==
      FilterOrder(order, data, query, filters)
  {
    RaiseIdempotent(order, ActiveSet(data, query, filters));
  }

  /** The alternation loop of the load step: record i bows upward exactly
      when i is even. */
  method AssignAlternation(sorted: seq<Record>) returns (data: seq<Record>)
    ensures data == WithAlternation(sorted)
  {
    data := sorted;
    var i := 0;
    while i < |data|
      invariant 0 <= i <= |data| == |sorted|
      invariant forall j :: 0 <= j < i ==> data[j] == sorted[j].(above := j % 2 == 0)
      invariant forall j :: i <= j < |data| ==> data[j] == sorted[j]
    {
      data := data[i := data[i].(above := i % 2 == 0)];
      i := i + 1;
    }
  }

  /** The series loop of the load step: each record with a non-empty
      trimmed series id is appended to that id's list, which is created
      on first use. */
  method BuildSeriesMap(data: seq<Record>) returns (m: map<string, seq<nat>>)
    ensures m == BuildSeries(data)
  {
    m := map[];
    var i := 0;
    while i < |data|
      invariant 0 <= i <= |data|
      invariant m == BuildSeries(data[..i])
    {
      assert data[..i + 1][..i] == data[..i] && data[..i + 1][i] == data[i];
      var sid := SeriesKey(data[i]);
      if sid != "" {
        if sid !in m {
          m := m[sid := []];
        }
        m := m[sid := m[sid] + [i]];
      }
      i := i + 1;
    }
    assert data[..i] == data;
  }

  /** The flag loop of drawViz: each record's far-future flag is
      recomputed with the new scale. */
  method ReflagPass(data: seq<Record>, s: Scale) returns (r: seq<Record>)
    ensures r == Reflagged(data, s)
  {
    r := data;
    var i := 0;
    while i < |r|
      invariant 0 <= i <= |r| == |data|
      invariant forall j :: 0 <= j < i ==> r[j] == data[j].(isFarFuture := IsFarFuture(s, data[j].yearSet))
      invariant forall j :: i <= j < |r| ==> r[j] == data[j]
    {
      r := r[i := r[i].(isFarFuture := IsFarFuture(s, r[i].yearSet))];
      i := i + 1;
    }
  }

  /** The per-arc loop of applyCurrentFilter. */
  method FilterPass(data: seq<Record>, query: string, filters: set<string>) returns (st: seq<Style>)
    ensures st == FilterStyles(data, query, filters)
  {
    st := [];
    var i := 0;
    while i < |data|
      invariant 0 <= i <= |data| && |st| == i
      invariant forall j :: 0 <= j < i ==> st[j] == FilterStyle(query, filters, data[j])
    {
      st := st + [FilterStyle(query, filters, data[i])];
      i := i + 1;
    }
  }

  /** The three passes of applyHighlight over the arcs: dim them all, lift
      the arcs of the siblings (when there are any), then show the arcs
      carrying the record's own id in full. */
  method HighlightPass(data: seq<Record>, d: Record, sibs: seq<Record>, isSelected: bool) returns (st: seq<Style>)
    ensures |st| == |data|
    ensures forall j :: 0 <= j < |data| ==> st[j] == HighlightStyle(data[j], d, sibs, isSelected)
  {
    st := [];
    var i := 0;
    while i < |data|
      invariant 0 <= i <= |data| && |st| == i
      invariant forall j :: 0 <= j < i ==> st[j] == Style(DimOpacity, DefaultStroke)
    {
      st := st + [Style(DimOpacity, DefaultStroke)];
      i := i + 1;
    }
    if |sibs| > 0 {
      i := 0;
      while i < |data|
        invariant 0 <= i <= |data| && |st| == |data|
        invariant forall j :: 0 <= j < i ==>
          st[j] == if HasId(sibs, data[j].id) then Style(SiblingOpacity, SiblingStroke) else Style(DimOpacity, DefaultStroke)
        invariant forall j :: i <= j < |data| ==> st[j] == Style(DimOpacity, DefaultStroke)
      {
        if HasId(sibs, data[i].id) {
          st := st[i := Style(SiblingOpacity, SiblingStroke)];
        }
        i := i + 1;
      }
    }
    i := 0;
    while i < |data|
      invariant 0 <= i <= |data| && |st| == |data|
      invariant forall j :: 0 <= j < i ==> st[j] == HighlightStyle(data[j], d, sibs, isSelected)
      invariant forall j :: i <= j < |data| ==>
        st[j] == if HasId(sibs, data[j].id) then Style(SiblingOpacity, SiblingStroke) else Style(DimOpacity, DefaultStroke)
    {
      if data[i].id == d.id {
        st := st[i := Style(1.0, if isSelected then SelectedStroke else HoveredStroke)];
      }
      i := i + 1;
    }
  }

  class Chart {
    /** The logarithm the log scale uses. */
    const ln: real -> real

    var allData: seq<Record>
    var seriesMap: map<string, seq<nat>>
    var activeFilters: set<string>
    var isMultiSelect: bool
    var isLogScale: bool
    var searchQuery: string
    var hoveredId: Option<string>
    var selectedId: Option<string>

    /** Whether a draw has happened (`gArcs` is set). */
    var drawn: bool
    var scale: Scale
    var layout: Layout
    var arcs: seq<Arc>
    var styles: seq<Style>
    var order: seq<nat>
    var overlay: Overlay
    var panel: Panel

    /** What the load step establishes and every draw keeps: the series
        map is the one built from the records. Only Load and DrawViz write
        these fields. */
    ghost predicate DataOk()
      reads this`allData, this`seriesMap
    {
      seriesMap == BuildSeries(allData)
    }

    /** After a draw: one arc per record, drawn with the current scale and
        layout from records whose far-future flags that scale computed.
        Only DrawViz writes these fields. */
    ghost predicate ArcsOk()
      reads this`drawn, this`allData, this`arcs, this`scale, this`layout
    {
      drawn ==> DrawnFrom(arcs, allData, scale, ln, layout)
    }

    /** What every handler keeps: the series map points into the records;
        after a draw, one style per arc and each arc painted exactly once;
        the overlay and the sidebar name records. */
    ghost predicate Wf()
      reads this`seriesMap, this`allData, this`drawn, this`styles, this`order, this`overlay, this`panel
    {
      PositionsValid(seriesMap, |allData|) &&
      (drawn ==> |styles| == |allData| && PaintsEach(order, |allData|)) &&
      (overlay.Shown? ==> overlay.at < |allData|) &&
      (panel.Details? ==> panel.at < |allData|)
    }

    /** The arcs show the selection: they are styled as applyHighlight
        styles some record carrying the selected id. */
    ghost predicate HighlightShown()
      reads this`selectedId, this`allData, this`seriesMap, this`styles
      requires PositionsValid(seriesMap, |allData|)
    {
      selectedId.Some? &&
      exists k :: 0 <= k < |allData| && allData[k].id == selectedId.value &&
        styles == HighlightStyles(allData, seriesMap, k, true)
    }

    /** Wf, and a (truthy) selection is always drawn highlighted. */
    ghost predicate Valid()
      reads this`seriesMap, this`allData, this`drawn, this`styles, this`order, this`overlay, this`panel, this`selectedId
    {
      Wf() && (Truthy(selectedId) ==> drawn && HighlightShown())
    }

    /** The load step: keep the rows whose years parse, sort them, set the
        alternation, build the series map; nothing is selected, filtered
        or drawn yet. */
    constructor Load(raw: seq<RawRow>, ln: real -> real)
      ensures DataOk() && ArcsOk() && Valid() && this.ln == ln
      ensures allData == LoadRecords(raw) && Loaded(allData)
      ensures activeFilters == {} && !isMultiSelect && !isLogScale && searchQuery == ""
      ensures hoveredId == None && selectedId == None
      ensures !drawn && overlay == Cleared && panel == EmptyPanel
    {
      this.ln := ln;
      var data := AssignAlternation(SortByYears(Parsed(raw)));
      LoadRecordsSpec(raw);
      var m := BuildSeriesMap(data);
      BuildSeriesValid(data);
      allData := data;
      seriesMap := m;
      activeFilters := {};
      isMultiSelect := false;
      isLogScale := false;
      searchQuery := "";
      hoveredId := None;
      selectedId := None;
      drawn := false;
      scale := Scale(false, 0.0);
      layout := Layout(0.0, 0.0);
      arcs := [];
      styles := [];
      order := [];
      overlay := Cleared;
      panel := EmptyPanel;
    }

    /** applyCurrentFilter: nothing before the first draw; then every arc
        gets its filter style and, while a search or a filter is set, the
        active arcs are raised above the others. */
    method ApplyCurrentFilter()
      requires Wf()
      modifies this`styles, this`order
      ensures Wf()
      ensures !drawn ==> styles == old(styles) && order == old(order)
      ensures drawn ==> styles == FilterStyles(allData, searchQuery, activeFilters)
      ensures drawn ==> order == FilterOrder(old(order), allData, searchQuery, activeFilters)
    {
      if !drawn {
        return;
      }
      var hasFilter := |activeFilters| > 0 || |searchQuery| > 0;
      var st := FilterPass(allData, searchQuery, activeFilters);
      styles := st;
      if hasFilter {
        RaisePaintsEach(order, ActiveSet(allData, searchQuery, activeFilters), |allData|);
        order := Raise(order, ActiveSet(allData, searchQuery, activeFilters));
      }
    }

    /** applyHighlight(allData[k], isSelected): dim every arc, bring the
        series siblings half-way up, show the record's own arcs in full
        and raise them. */
    method ApplyHighlight(k: nat, isSelected: bool)
      requires Wf() && drawn && k < |allData|
      modifies this`styles, this`order
      ensures Wf()
      ensures styles == HighlightStyles(allData, seriesMap, k, isSelected)
      ensures order == Raise(old(order), FocalSet(allData, allData[k].id))
    {
      var d := allData[k];
      var st := HighlightPass(allData, d, Siblings(allData, seriesMap, d), isSelected);
      assert st == HighlightStyles(allData, seriesMap, k, isSelected);
      styles := st;
      RaisePaintsEach(order, FocalSet(allData, d.id), |allData|);
      order := Raise(order, FocalSet(allData, d.id));
    }

    /** The first part of drawViz: a new layout and scale for a chart `w`
        by `h` pixels, and the far-future flags recomputed with that
        scale. */
    method Rescale(w: nat, h: nat)
      requires DataOk() && Wf()
      modifies this`layout, this`scale, this`allData
      ensures DataOk() && Wf()
      ensures scale == Scale(isLogScale, w as real) && layout == LayoutFor(h as real)
      ensures allData == Reflagged(old(allData), scale)
    {
      var sc := Scale(isLogScale, w as real);
      ReflaggedKeepsSeries(allData, sc);
      var data := ReflagPass(allData, sc);
      layout, scale, allData := LayoutFor(h as real), sc, data;
    }

    /** The fresh SVG of drawViz: every arc drawn with the current scale
        and layout, in default style and in record order, under an empty
        highlight layer. */
    method Repaint()
      requires Wf() && forall i :: 0 <= i < |allData| ==> allData[i].isFarFuture == IsFarFuture(scale, allData[i].yearSet)
      modifies this`drawn, this`arcs, this`styles, this`order, this`overlay
      ensures ArcsOk() && Wf() && drawn
      ensures |styles| == |allData| && forall j :: 0 <= j < |styles| ==> styles[j] == Style(DefaultOpacity, DefaultStroke)
      ensures order == Fresh(|allData|) && overlay == Cleared
    {
      FreshPaintsEach(|allData|);
      drawn, arcs := true, ArcsFor(allData, scale, ln, layout);
      var n := |allData|;
      styles := seq(n, j requires 0 <= j < n => Style(DefaultOpacity, DefaultStroke));
      order, overlay := Fresh(|allData|), Cleared;
    }

    /** The body of drawViz before the selection is restored: rescale,
        then repaint. */
    method Redraw(w: nat, h: nat)
      requires DataOk() && Wf()
      modifies this`layout, this`scale, this`allData, this`drawn, this`arcs, this`styles, this`order, this`overlay
      ensures DataOk() && ArcsOk() && Wf() && drawn
      ensures scale == Scale(isLogScale, w as real) && layout == LayoutFor(h as real)
      ensures allData == Reflagged(old(allData), scale)
      ensures |styles| == |allData| && forall j :: 0 <= j < |styles| ==> styles[j] == Style(DefaultOpacity, DefaultStroke)
      ensures order == Fresh(|allData|) && overlay == Cleared
    {
      Rescale(w, h);
      Repaint();
    }

    /** The end of drawViz: a selection whose record is still there is
        highlighted again, with its overlay; otherwise the selection is
        dropped and the filters applied. */
    method RestoreSelection()
      requires Wf() && drawn
      modifies this`selectedId, this`styles, this`order, this`overlay
      ensures Valid()
      ensures old(selectedId).Some? && FindById(allData, old(selectedId).value).Some? ==>
        var k := FindById(allData, old(selectedId).value).value;
        selectedId == old(selectedId) && overlay == Shown(k, true) &&
        styles == HighlightStyles(allData, seriesMap, k, true) &&
        order == Raise(old(order), FocalSet(allData, allData[k].id))
      ensures old(selectedId).None? || FindById(allData, old(selectedId).value).None? ==>
        selectedId == None && overlay == old(overlay) &&
        styles == FilterStyles(allData, searchQuery, activeFilters) &&
        order == FilterOrder(old(order), allData, searchQuery, activeFilters)
    {
      var found: Option<nat> := None;
      if selectedId.Some? {
        found := FindById(allData, selectedId.value);
      }
      if found.Some? {
        ApplyHighlight(found.value, true);
        overlay := Shown(found.value, true);
      } else {
        selectedId := None;
        ApplyCurrentFilter();
      }
    }

    /** drawViz for a chart `w` by `h` pixels: nothing when either is 0;
        otherwise rebuild the scale and layout, recompute the far-future
        flags, draw every arc in default style, then restore the selection
        if its record is still there (highlighted and with its overlay),
        or drop it and apply the filters. */
    method DrawViz(w: nat, h: nat)
      requires DataOk() && ArcsOk() && Valid()
      modifies this`layout, this`scale, this`allData, this`drawn, this`arcs, this`styles, this`order, this`overlay, this`selectedId
      ensures DataOk() && ArcsOk() && Valid()
      ensures w == 0 || h == 0 ==>
        layout == old(layout) && scale == old(scale) && allData == old(allData) && drawn == old(drawn) &&
        arcs == old(arcs) && styles == old(styles) && order == old(order) && overlay == old(overlay) &&
        selectedId == old(selectedId)
      ensures w > 0 && h > 0 ==>
        drawn && scale == Scale(isLogScale, w as real) && layout == LayoutFor(h as real) &&
        allData == Reflagged(old(allData), scale)
      ensures w > 0 && h > 0 && old(selectedId).Some? && FindById(allData, old(selectedId).value).Some? ==>
        var k := FindById(allData, old(selectedId).value).value;
        selectedId == old(selectedId) && overlay == Shown(k, true) &&
        styles == HighlightStyles(allData, seriesMap, k, true) &&
        order == Raise(Fresh(|allData|), FocalSet(allData, allData[k].id))
      ensures w > 0 && h > 0 && (old(selectedId).None? || FindById(allData, old(selectedId).value).None?) ==>
        selectedId == None && overlay == Cleared &&
        styles == FilterStyles(allData, searchQuery, activeFilters) &&
        order == FilterOrder(Fresh(|allData|), allData, searchQuery, activeFilters)
    {
      if w > 0 && h > 0 {
        Redraw(w, h);
        RestoreSelection();
      }
    }

    /** deselect: nothing selected or hovered, the highlight layer and the
        sidebar emptied, and the filter styles back. */
    method Deselect()
      requires Wf()
      modifies this`selectedId, this`hoveredId, this`overlay, this`panel, this`styles, this`order
      ensures Valid()
      ensures selectedId == None && hoveredId == None && overlay == Cleared && panel == EmptyPanel
      ensures !drawn ==> styles == old(styles) && order == old(order)
      ensures drawn ==> styles == FilterStyles(allData, searchQuery, activeFilters)
      ensures drawn ==> order == FilterOrder(old(order), allData, searchQuery, activeFilters)
    {
      selectedId := None;
      hoveredId := None;
      overlay := Cleared;
      ApplyCurrentFilter();
      panel := EmptyPanel;
    }

    /** onHover on the arc of record k: ignored when the arc is inactive;
        otherwise the arc becomes the hovered one and, unless some arc is
        selected, it is highlighted and described in the sidebar. */
    method OnHover(k: nat)
      requires Valid() && drawn && k < |allData|
      modifies this`hoveredId, this`styles, this`order, this`overlay, this`panel
      ensures Valid()
      ensures !IsArcActive(searchQuery, activeFilters, allData[k]) ==>
        hoveredId == old(hoveredId) && styles == old(styles) && order == old(order) &&
        overlay == old(overlay) && panel == old(panel)
      ensures IsArcActive(searchQuery, activeFilters, allData[k]) ==> hoveredId == Some(allData[k].id)
      ensures IsArcActive(searchQuery, activeFilters, allData[k]) && selectedId.Some? ==>
        styles == old(styles) && order == old(order) && overlay == old(overlay) && panel == old(panel)
      ensures IsArcActive(searchQuery, activeFilters, allData[k]) && selectedId.None? ==>
        styles == HighlightStyles(allData, seriesMap, k, false) &&
        order == Raise(old(order), FocalSet(allData, allData[k].id)) &&
        overlay == Shown(k, false) && panel == Details(k)
    {
      var d := allData[k];
      if IsArcActive(searchQuery, activeFilters, d) {
        hoveredId := Some(d.id);
        // With any record selected, this one or another, the arcs stay.
        if selectedId.None? {
          ApplyHighlight(k, false);
          overlay := Shown(k, false);
          panel := Details(k);
        }
      }
    }

    /** onLeave: nothing is hovered; without a selection the filter styles,
        an empty highlight layer and the empty sidebar come back, and with
        one everything else stays as it is. */
    method OnLeave()
      requires Valid() && drawn
      modifies this`hoveredId, this`styles, this`order, this`overlay, this`panel
      ensures Valid()
      ensures hoveredId == None
      ensures selectedId.Some? ==>
        styles == old(styles) && order == old(order) && overlay == old(overlay) && panel == old(panel)
      ensures selectedId.None? ==>
        styles == FilterStyles(allData, searchQuery, activeFilters) &&
        order == FilterOrder(old(order), allData, searchQuery, activeFilters) &&
        overlay == Cleared && panel == EmptyPanel
    {
      hoveredId := None;
      if selectedId.None? {
        ApplyCurrentFilter();
        overlay := Cleared;
        panel := EmptyPanel;
      }
    }

    /** onClick on the arc of record k: ignored when the arc is inactive;
        a click on the selected record deselects it; any other click
        selects the record, highlights it and describes it. */
    method OnClick(k: nat)
      requires Valid() && drawn && k < |allData|
      modifies this`hoveredId, this`selectedId, this`styles, this`order, this`overlay, this`panel
      ensures Valid()
      ensures !IsArcActive(searchQuery, activeFilters, allData[k]) ==>
        hoveredId == old(hoveredId) && selectedId == old(selectedId) && styles == old(styles) &&
        order == old(order) && overlay == old(overlay) && panel == old(panel)
      ensures IsArcActive(searchQuery, activeFilters, allData[k]) && old(selectedId) == Some(allData[k].id) ==>
        selectedId == None && hoveredId == None && overlay == Cleared && panel == EmptyPanel &&
        styles == FilterStyles(allData, searchQuery, activeFilters) &&
        order == FilterOrder(old(order), allData, searchQuery, activeFilters)
      ensures IsArcActive(searchQuery, activeFilters, allData[k]) && old(selectedId) != Some(allData[k].id) ==>
        selectedId == Some(allData[k].id) && hoveredId == Some(allData[k].id) &&
        styles == HighlightStyles(allData, seriesMap, k, true) &&
        order == Raise(old(order), FocalSet(allData, allData[k].id)) &&
        overlay == Shown(k, true) && panel == Details(k)
    {
      var d := allData[k];
      if !IsArcActive(searchQuery, activeFilters, d) {
      } else if selectedId == Some(d.id) {
        Deselect();
      } else {
        selectedId := Some(d.id);
        hoveredId := Some(d.id);
        ApplyHighlight(k, true);
        overlay := Shown(k, true);
        panel := Details(k);
      }
    }

    /** A click on the chart's background deselects whatever is selected. */
    method BackgroundClick()
      requires Valid()
      modifies this`hoveredId, this`selectedId, this`styles, this`order, this`overlay, this`panel
      ensures Valid()
      ensures selectedId == None
      ensures old(selectedId).None? ==>
        hoveredId == old(hoveredId) && styles == old(styles) && order == old(order) &&
        overlay == old(overlay) && panel == old(panel)
      ensures old(selectedId).Some? ==> hoveredId == None && overlay == Cleared && panel == EmptyPanel
      ensures old(selectedId).Some? && drawn ==>
        styles == FilterStyles(allData, searchQuery, activeFilters) &&
        order == FilterOrder(old(order), allData, searchQuery, activeFilters)
    {
      if selectedId.Some? {
        Deselect();
      }
    }

    /** toggleFilter: a live selection is dropped first, the filter set
        becomes the toggled one, and the filter styles are applied, with
        the active arcs painted last while a search or filter is set. */
    method ToggleFilter(medium: Option<string>)
      requires Valid()
      modifies this`activeFilters, this`hoveredId, this`selectedId, this`styles, this`order, this`overlay, this`panel
      ensures Valid()
      ensures activeFilters == Toggled(old(activeFilters), medium, isMultiSelect)
      ensures Truthy(old(selectedId)) ==>
        selectedId == None && hoveredId == None && overlay == Cleared && panel == EmptyPanel
      ensures !Truthy(old(selectedId)) ==>
        selectedId == old(selectedId) && hoveredId == old(hoveredId) && overlay == old(overlay) && panel == old(panel)
      ensures drawn ==> styles == FilterStyles(allData, searchQuery, activeFilters)
      ensures drawn && HasFilter(searchQuery, activeFilters) ==> PickedLast(order, ActiveSet(allData, searchQuery, activeFilters))
      ensures drawn ==> order == FilterOrder(
        if Truthy(old(selectedId)) then FilterOrder(old(order), allData, searchQuery, old(activeFilters)) else old(order),
        allData, searchQuery, activeFilters)
    {
      if Truthy(selectedId) {
        Deselect();
      }
      activeFilters := Toggled(activeFilters, medium, isMultiSelect);
      ApplyCurrentFilter();
    }

    /** The multi-select button flips the mode. */
    method ToggleMultiSelect()
      modifies this`isMultiSelect
      ensures isMultiSelect == !old(isMultiSelect)
    {
      isMultiSelect := !isMultiSelect;
    }

    /** setScale: switch the mode and redraw at the chart's current size. */
    method SetScale(log: bool, w: nat, h: nat)
      requires DataOk() && ArcsOk() && Valid()
      modifies this`isLogScale, this`layout, this`scale, this`allData, this`drawn, this`arcs, this`styles, this`order, this`overlay, this`selectedId
      ensures DataOk() && ArcsOk() && Valid()
      ensures isLogScale == log
      ensures w > 0 && h > 0 ==> drawn && scale == Scale(log, w as real)
      ensures w == 0 || h == 0 ==> scale == old(scale) && allData == old(allData) && styles == old(styles)
    {
      isLogScale := log;
      DrawViz(w, h);
    }

    /** The search box's input handler: the query is the typed text lower-
        cased and trimmed; a live selection is dropped; the filter styles
        are applied. */
    method SetSearch(value: string)
      requires Valid()
      modifies this`searchQuery, this`hoveredId, this`selectedId, this`styles, this`order, this`overlay, this`panel
      ensures Valid()
      ensures searchQuery == Trim(ToLower(value))
      ensures Truthy(old(selectedId)) ==>
        selectedId == None && hoveredId == None && overlay == Cleared && panel == EmptyPanel
      ensures !Truthy(old(selectedId)) ==>
        selectedId == old(selectedId) && hoveredId == old(hoveredId) && overlay == old(overlay) && panel == old(panel)
      ensures drawn ==> styles == FilterStyles(allData, searchQuery, activeFilters)
      ensures drawn && HasFilter(searchQuery, activeFilters) ==> PickedLast(order, ActiveSet(allData, searchQuery, activeFilters))
      ensures drawn ==> order == FilterOrder(old(order), allData, searchQuery, activeFilters)
    {
      searchQuery := Trim(ToLower(value));
      if Truthy(selectedId) {
        Deselect();
        FilterOrderTwice(old(order), allData, searchQuery, activeFilters);
      }
      ApplyCurrentFilter();
    }

    /** The search-clear button as written: the query is emptied and the
        filter styles applied, but the selection is kept, so a selected
        arc stops being drawn highlighted while it stays selected. */
    method ClearSearchAsWritten()
      requires Valid()
      modifies this`searchQuery, this`styles, this`order
      ensures Wf()
      ensures searchQuery == "" && selectedId == old(selectedId)
      ensures drawn ==> styles == FilterStyles(allData, "", activeFilters)
      ensures drawn && selectedId.Some? ==> !HighlightShown()
    {
      searchQuery := "";
      ApplyCurrentFilter();
      if drawn && selectedId.Some? {
        FilterHidesHighlight(allData, seriesMap, activeFilters);
      }
    }

    /** The search-clear button as intended: the same as emptying the
        search box, which drops a live selection before the filter styles
        are applied, so the chart stays Valid. */
    method ClearSearch()
      requires Valid()
      modifies this`searchQuery, this`hoveredId, this`selectedId, this`styles, this`order, this`overlay, this`panel
      ensures Valid()
      ensures searchQuery == ""
      ensures Truthy(old(selectedId)) ==> selectedId == None && overlay == Cleared && panel == EmptyPanel
      ensures drawn ==> styles == FilterStyles(allData, "", activeFilters)
    {
      SetSearch("");
      assert Trim(ToLower("")) == "";
    }
  }

  /** No filter style is a highlight: every arc the filters style is less
      than fully opaque, while a highlight shows its own record at full
      opacity. */
  lemma {:induction false} FilterHidesHighlight(data: seq<Record>, series: map<string, seq<nat>>, filters: set<string>)
    requires PositionsValid(series, |data|)
    ensures forall k :: 0 <= k < |data| ==> FilterStyles(data, "", filters) != HighlightStyles(data, series, k, true)
  {
    forall k | 0 <= k < |data| ensures FilterStyles(data, "", filters) != HighlightStyles(data, series, k, true) {
      assert FilterStyles(data, "", filters)[k].opacity < 1.0;
    }
  }
}

/** The styles `applyHighlight` (main.js:503-525) gives the arcs when a
    record is hovered or selected: the record itself in full, the other
    works of its series half-way, every other arc dimmed. */
module Highlight {
  import opened Records
  import opened Filter

  const DimOpacity: real := 0.04
  const SiblingOpacity: real := 0.5
  const SiblingStroke: real := 1.8
  const SelectedStroke: real := 3.5
  const HoveredStroke: real := 2.8

  /** Some record of `recs` has this id (`siblings.some(...)`). */
  predicate HasId(recs: seq<Record>, id: string)
  {
    exists k :: 0 <= k < |recs| && recs[k].id == id
  }

  /** The style of the arc drawing `a` while `d` is highlighted and
      `sibs` are its series siblings: arcs are matched by record id. */
  function HighlightStyle(a: Record, d: Record, sibs: seq<Record>, isSelected: bool): Style
  {
    if a.id == d.id then Style(1.0, if isSelected then SelectedStroke else HoveredStroke)
    else if HasId(sibs, a.id) then Style(SiblingOpacity, SiblingStroke)
    else Style(DimOpacity, DefaultStroke)
  }

  /** The styles of all arcs after applyHighlight(data[k], isSelected). */
  function HighlightStyles(data: seq<Record>, series: map<string, seq<nat>>, k: nat, isSelected: bool): (r: seq<Style>)
    requires PositionsValid(series, |data|) && k < |data|
    ensures |r| == |data|
    ensures r[k].opacity == 1.0
  {
    var sibs := Siblings(data, series, data[k]);
    seq(|data|, i requires 0 <= i < |data| => HighlightStyle(data[i], data[k], sibs, isSelected))
  }

  /** The positions of the arcs carrying `id`: the ones applyHighlight
      raises. */
  function FocalSet(data: seq<Record>, id: string): (r: set<nat>)
    ensures forall i :: i in r <==> 0 <= i < |data| && data[i].id == id
  {
    set i: nat | i < |data| && data[i].id == id
  }

  /** Some record of `data[k]`'s non-empty series carries `id`. */
  ghost predicate SeriesHasId(data: seq<Record>, k: nat, id: string)
    requires k < |data|
  {
    SeriesKey(data[k]) != "" &&
    exists j :: 0 <= j < |data| && SeriesKey(data[j]) == SeriesKey(data[k]) && data[j].id == id
  }

  /** An id carried by a record of the reference list of same-series
      others is carried by some record of the series, and conversely. */
  lemma OthersHaveId(data: seq<Record>, sid: string, own: string, id: string)
    requires id != own
    ensures HasId(SameSeriesOthers(data, sid, own), id) <==>
      exists j :: 0 <= j < |data| && SeriesKey(data[j]) == sid && data[j].id == id
  {
    var others := SameSeriesOthers(data, sid, own);
    SameSeriesOthersMembers(data, sid, own);
    if HasId(others, id) {
      var m :| 0 <= m < |others| && others[m].id == id;
      assert others[m] in others;
      var j :| 0 <= j < |data| && data[j] == others[m];
      assert SeriesKey(data[j]) == sid && data[j].id == id;
    }
    if exists j :: 0 <= j < |data| && SeriesKey(data[j]) == sid && data[j].id == id {
      var j :| 0 <= j < |data| && SeriesKey(data[j]) == sid && data[j].id == id;
      assert data[j] in data;
      assert data[j] in others;
      var m :| 0 <= m < |others| && others[m] == data[j];
      assert others[m].id == id;
    }
  }

  /** Over the series map the load step builds, an id other than the
      record's own is among its siblings' ids exactly when some record of
      the record's series carries it. */
  lemma SiblingIds(data: seq<Record>, k: nat, id: string)
    requires k < |data| && id != data[k].id
    ensures PositionsValid(BuildSeries(data), |data|)
    ensures HasId(Siblings(data, BuildSeries(data), data[k]), id) <==> SeriesHasId(data, k, id)
  {
    var d := data[k];
    SiblingsAreSameSeries(data, d);
    var sid := SeriesKey(d);
    if sid != "" {
      OthersHaveId(data, sid, d.id, id);
    }
  }

  /** The three levels of a highlight, over the series map the load step
      builds: full opacity, with the selected or hovered stroke, exactly
      for the arcs carrying the record's id; half opacity for the arcs
      carrying the id of another work of the record's (non-empty) series;
      dimmed for every other arc. */
  lemma HighlightLevels(data: seq<Record>, k: nat, isSelected: bool, i: nat)
    requires k < |data| && i < |data|
    ensures PositionsValid(BuildSeries(data), |data|)
    ensures var st := HighlightStyles(data, BuildSeries(data), k, isSelected)[i];
      (data[i].id == data[k].id ==> st == Style(1.0, if isSelected then SelectedStroke else HoveredStroke)) &&
      (data[i].id != data[k].id && SeriesHasId(data, k, data[i].id) ==> st == Style(SiblingOpacity, SiblingStroke)) &&
      (data[i].id != data[k].id && !SeriesHasId(data, k, data[i].id) ==> st == Style(DimOpacity, DefaultStroke))
  {
    BuildSeriesValid(data);
    if data[i].id != data[k].id {
      SiblingIds(data, k, data[i].id);
    }
  }

  /** Ids are unique among the records. */
  ghost predicate UniqueIds(data: seq<Record>)
  {
    forall i, j :: 0 <= i < j < |data| ==> data[i].id != data[j].id
  }

  /** With unique ids: the highlighted record alone is in full, the rest
      of its non-empty series half-way, and nothing else. */
  lemma HighlightBySeries(data: seq<Record>, k: nat, isSelected: bool, i: nat)
    requires UniqueIds(data) && k < |data| && i < |data|
    ensures PositionsValid(BuildSeries(data), |data|)
    ensures var st := HighlightStyles(data, BuildSeries(data), k, isSelected)[i];
      (st.opacity == 1.0 <==> i == k) &&
      (st.opacity == SiblingOpacity <==> i != k && SeriesKey(data[k]) != "" && SeriesKey(data[i]) == SeriesKey(data[k])) &&
      (st.opacity == DimOpacity <==> i != k && (SeriesKey(data[k]) == "" || SeriesKey(data[i]) != SeriesKey(data[k])))
  {
    HighlightLevels(data, k, isSelected, i);
    var sid := SeriesKey(data[k]);
    if i != k {
      assert data[i].id != data[k].id;
      if SeriesHasId(data, k, data[i].id) {
        var j :| 0 <= j < |data| && SeriesKey(data[j]) == sid && data[j].id == data[i].id;
        assert j == i;
      }
      if sid != "" && SeriesKey(data[i]) == sid {
        assert SeriesHasId(data, k, data[i].id);
      }
    }
  }
}

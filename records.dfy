/** The records of the chart and what the load step derives from the CSV
    rows (main.js:148-170): dropping rows whose years do not parse, the
    sort by (released, year_set), the above/below alternation, the series
    map, and the lookups on top of it (`getSiblings`, main.js:497-501, and
    the `allData.find` of main.js:378). */
module Records {
  import opened Common
  import opened Text

  /** What JavaScript's unary `+` makes of a CSV cell: NaN or a number. */
  datatype Number = NaN | Value(v: real)

  /** A CSV row after the numeric conversions of main.js:149-156. Only the
      columns the chart's engine reads are kept. */
  datatype RawRow = RawRow(
    recordId: string,
    released: Number,
    yearSet: Number,
    medium: Option<string>,
    title: Option<string>,
    isSeries: Option<string>,
    multiyears: Option<string>)

  /** A loaded work: its two years are numbers, `above` is fixed at load
      time and `isFarFuture` is recomputed on every draw. */
  datatype Record = Record(
    id: string,
    released: real,
    yearSet: real,
    medium: Option<string>,
    title: Option<string>,
    isSeries: Option<string>,
    multiyears: Option<string>,
    above: bool,
    isFarFuture: bool)

  // ---------------------------------------------------------------------
  // Dropping unparsable rows (main.js:148-157)
  // ---------------------------------------------------------------------

  /** The filter of main.js:157: both years are numbers and the set year
      is positive. */
  predicate Keeps(row: RawRow)
  {
    row.released.Value? && row.yearSet.Value? && row.yearSet.v > 0.0
  }

  function ToRecord(row: RawRow): Record
    requires Keeps(row)
  {
    Record(row.recordId, row.released.v, row.yearSet.v, row.medium, row.title,
           row.isSeries, row.multiyears, false, false)
  }

  /** The kept rows as records, in CSV order. */
  function Parsed(raw: seq<RawRow>): (r: seq<Record>)
    ensures |r| <= |raw|
    ensures forall k :: 0 <= k < |r| ==> r[k].yearSet > 0.0 && !r[k].above && !r[k].isFarFuture
    ensures forall row :: row in raw && Keeps(row) ==> ToRecord(row) in r
    ensures forall x :: x in r ==> exists row :: row in raw && Keeps(row) && x == ToRecord(row)
  {
    if |raw| == 0 then []
    else
      var last := raw[|raw| - 1];
      assert raw == raw[..|raw| - 1] + [last];
      Parsed(raw[..|raw| - 1]) + (if Keeps(last) then [ToRecord(last)] else [])
  }

  /** The filter keeps CSV order: the kept rows of a file's first part
      come before those of the rest. */
  lemma {:induction false} ParsedAppend(a: seq<RawRow>, b: seq<RawRow>)
    ensures Parsed(a + b) == Parsed(a) + Parsed(b)
  {
    if |b| > 0 {
      var n := |b| - 1;
      ParsedAppend(a, b[..n]);
      assert (a + b)[..|a + b| - 1] == a + b[..n];
      assert (a + b)[|a + b| - 1] == b[n];
    } else {
      assert a + b == a;
    }
  }

  // ---------------------------------------------------------------------
  // Sorting by (released, year_set) (main.js:160)
  // ---------------------------------------------------------------------

  /** The comparator `a.released - b.released || a.year_set - b.year_set`:
      a difference of zero is falsy, so the set years break ties. */
  function Compare(a: Record, b: Record): (c: real)
    ensures c <= 0.0 <==> InOrder(a, b)
    ensures c == 0.0 <==> a.released == b.released && a.yearSet == b.yearSet
  {
    if a.released - b.released != 0.0 then a.released - b.released else a.yearSet - b.yearSet
  }

  /** `a` may come before `b` in (released, year_set) order. */
  predicate InOrder(a: Record, b: Record)
  {
    a.released < b.released || (a.released == b.released && a.yearSet <= b.yearSet)
  }

  ghost predicate SortedByYears(s: seq<Record>)
  {
    forall i, j :: 0 <= i < j < |s| ==> InOrder(s[i], s[j])
  }

  /** Puts `x` before the first element it may precede, so that it stays
      ahead of the elements it ties with. */
  function Insert(x: Record, s: seq<Record>): (r: seq<Record>)
    ensures multiset(r) == multiset(s) + multiset{x}
  {
    if s == [] then [x]
    else if InOrder(x, s[0]) then [x] + s
    else
      assert s == [s[0]] + s[1..];
      [s[0]] + Insert(x, s[1..])
  }

  lemma {:induction false} InsertSorted(x: Record, s: seq<Record>)
    requires SortedByYears(s)
    ensures SortedByYears(Insert(x, s))
  {
    if s != [] && !InOrder(x, s[0]) {
      var rest := Insert(x, s[1..]);
      InsertSorted(x, s[1..]);
      forall y | y in rest ensures InOrder(s[0], y) {
        assert y in multiset(rest);
        if y != x {
          assert y in multiset(s[1..]);
          var j :| 0 <= j < |s[1..]| && s[1..][j] == y;
          assert s[j + 1] == y;
        }
      }
      var r := [s[0]] + rest;
      forall i, j | 0 <= i < j < |r| ensures InOrder(r[i], r[j]) {
        if i == 0 {
          assert r[j] == rest[j - 1];
          assert r[j] in rest;
        } else {
          assert r[i] == rest[i - 1] && r[j] == rest[j - 1];
        }
      }
    }
  }

  /** A stable insertion sort: the order Array.prototype.sort produces
      with the comparator above (SortStable states the stability). */
  function SortByYears(s: seq<Record>): (r: seq<Record>)
    ensures multiset(r) == multiset(s)
    ensures SortedByYears(r)
  {
    if s == [] then []
    else
      assert s == [s[0]] + s[1..];
      InsertSorted(s[0], SortByYears(s[1..]));
      Insert(s[0], SortByYears(s[1..]))
  }

  /** `a` and `b` tie under the comparator: the same two years. */
  predicate Tied(a: Record, b: Record)
  {
    a.released == b.released && a.yearSet == b.yearSet
  }

  /** The records of `s` that tie with `k`, in their order in `s`. */
  function Ties(s: seq<Record>, k: Record): seq<Record>
  {
    if s == [] then []
    else (if Tied(s[0], k) then [s[0]] else []) + Ties(s[1..], k)
  }

  /** Ties of a list with a given head. */
  lemma TiesCons(x: Record, s: seq<Record>, k: Record)
    ensures Ties([x] + s, k) == (if Tied(x, k) then [x] else []) + Ties(s, k)
  {
    assert ([x] + s)[1..] == s;
  }

  /** Inserting `x` puts it ahead of every record it ties with. */
  lemma {:induction false} InsertTies(x: Record, s: seq<Record>, k: Record)
    ensures Ties(Insert(x, s), k) == (if Tied(x, k) then [x] else []) + Ties(s, k)
  {
    if s == [] {
      assert Insert(x, s) == [x] + s;
      TiesCons(x, s, k);
    } else if InOrder(x, s[0]) {
      assert Insert(x, s) == [x] + s;
      TiesCons(x, s, k);
    } else {
      var r := Insert(x, s[1..]);
      assert Insert(x, s) == [s[0]] + r;
      InsertTies(x, s[1..], k);
      TiesCons(s[0], r, k);
      assert Ties(s, k) == (if Tied(s[0], k) then [s[0]] else []) + Ties(s[1..], k);
      assert Tied(x, k) ==> !Tied(s[0], k);
    }
  }

  /** The sort is stable: records that tie keep their relative order. */
  lemma {:induction false} SortStable(s: seq<Record>, k: Record)
    ensures Ties(SortByYears(s), k) == Ties(s, k)
  {
    if s != [] {
      SortStable(s[1..], k);
      InsertTies(s[0], SortByYears(s[1..]), k);
    }
  }

  // ---------------------------------------------------------------------
  // The above/below alternation (main.js:161)
  // ---------------------------------------------------------------------

  /** `_above = (i % 2 === 0)` for the record at position i. */
  function WithAlternation(s: seq<Record>): (r: seq<Record>)
    ensures |r| == |s|
  {
    seq(|s|, i requires 0 <= i < |s| => s[i].(above := i % 2 == 0))
  }

  ghost predicate Alternates(s: seq<Record>)
  {
    forall i :: 0 <= i < |s| ==> s[i].above == (i % 2 == 0)
  }

  /** The records as the load step leaves them. */
  function LoadRecords(raw: seq<RawRow>): seq<Record>
  {
    WithAlternation(SortByYears(Parsed(raw)))
  }

  /** What holds of `allData` after loading, and keeps holding: positive set
      years, (released, year_set) order, and the alternation. */
  ghost predicate Loaded(data: seq<Record>)
  {
    (forall k :: 0 <= k < |data| ==> data[k].yearSet > 0.0) &&
    SortedByYears(data) &&
    Alternates(data)
  }

  /** `data` without its layout flags. */
  function Unflagged(data: seq<Record>): seq<Record>
  {
    seq(|data|, i requires 0 <= i < |data| => data[i].(above := false, isFarFuture := false))
  }

  /** The load step keeps exactly the parsable rows, reordered: every
      loaded record is a kept row and every kept row is loaded, as often
      as it occurs, and the result is Loaded. */
  lemma LoadRecordsSpec(raw: seq<RawRow>)
    ensures Loaded(LoadRecords(raw))
    ensures multiset(Unflagged(LoadRecords(raw))) == multiset(Parsed(raw))
  {
    var p := Parsed(raw);
    var t := SortByYears(p);
    var r := WithAlternation(t);
    forall k | 0 <= k < |t| ensures t[k].yearSet > 0.0 && !t[k].above && !t[k].isFarFuture {
      assert t[k] in multiset(p);
      var j :| 0 <= j < |p| && p[j] == t[k];
    }
    assert Unflagged(r) == t;
    assert forall i, j :: 0 <= i < j < |r| ==> InOrder(t[i], t[j]);
  }

  /** Loading keeps tied records in CSV order, so the CSV decides which
      of two works with the same years bows upward. */
  lemma {:induction false} LoadKeepsTieOrder(raw: seq<RawRow>, k: Record)
    ensures Ties(Unflagged(LoadRecords(raw)), k) == Ties(Parsed(raw), k)
  {
    var p := Parsed(raw);
    var t := SortByYears(p);
    forall i | 0 <= i < |t| ensures !t[i].above && !t[i].isFarFuture {
      assert t[i] in multiset(p);
    }
    assert Unflagged(WithAlternation(t)) == t;
    SortStable(p, k);
  }

  /** The alternation read pairwise: the first record bows upward and
      neighbours bow to opposite sides. */
  lemma AlternationAlternates(data: seq<Record>)
    requires Alternates(data)
    ensures |data| > 0 ==> data[0].above
    ensures forall i :: 0 <= i < |data| - 1 ==> data[i].above != data[i + 1].above
  {
  }

  // ---------------------------------------------------------------------
  // The series map (main.js:163-170)
  // ---------------------------------------------------------------------

  /** `d.is_series?.trim()`, with "" for a missing column. */
  function SeriesKey(r: Record): string
  {
    if r.isSeries.Some? then Trim(r.isSeries.value) else ""
  }

  /** The positions, in load order, of the records whose series key is
      `sid`. */
  function Positions(data: seq<Record>, sid: string): (r: seq<nat>)
    ensures forall k :: k in r <==> 0 <= k < |data| && SeriesKey(data[k]) == sid
    ensures forall i :: 0 <= i < |r| ==> r[i] < |data|
    ensures forall i, j :: 0 <= i < j < |r| ==> r[i] < r[j]
  {
    if |data| == 0 then []
    else
      var n := |data| - 1;
      var p := Positions(data[..n], sid);
      assert forall k :: k in p <==> 0 <= k < n && SeriesKey(data[k]) == sid by {
        forall k ensures k in p <==> 0 <= k < n && SeriesKey(data[k]) == sid {
          if 0 <= k < n { assert data[..n][k] == data[k]; }
        }
      }
      var tail: seq<nat> := if SeriesKey(data[n]) == sid then [n] else [];
      assert forall k :: k in p + tail <==> k in p || k in tail;
      p + tail
  }

  /** seriesMap as the load loop builds it: for each non-empty trimmed
      series id, the positions in allData of the records that carry it.
      The source's arrays hold the very record objects of allData;
      positions model that sharing. */
  function BuildSeries(data: seq<Record>): map<string, seq<nat>>
  {
    if |data| == 0 then map[]
    else
      var n := |data| - 1;
      var m := BuildSeries(data[..n]);
      var sid := SeriesKey(data[n]);
      if sid == "" then m
      else m[sid := (if sid in m then m[sid] else []) + [n]]
  }

  /** One series id at a time: the map has an entry for `sid` exactly when
      it is non-empty and some record carries it, and that entry lists the
      positions of those records in order. */
  lemma {:induction false} BuildSeriesAt(data: seq<Record>, sid: string)
    ensures sid in BuildSeries(data) <==> sid != "" && |Positions(data, sid)| > 0
    ensures sid in BuildSeries(data) ==> BuildSeries(data)[sid] == Positions(data, sid)
  {
    if |data| > 0 {
      var n := |data| - 1;
      BuildSeriesAt(data[..n], sid);
      assert Positions(data, sid) == Positions(data[..n], sid) + (if SeriesKey(data[n]) == sid then [n] else []);
    }
  }

  /** The series map has an entry for exactly the non-empty series ids
      some record carries, and that entry lists their positions in order. */
  lemma {:induction false} BuildSeriesSpec(data: seq<Record>)
    ensures forall sid :: sid in BuildSeries(data) <==> sid != "" && |Positions(data, sid)| > 0
    ensures forall sid :: sid in BuildSeries(data) ==> BuildSeries(data)[sid] == Positions(data, sid)
  {
    forall sid
      ensures sid in BuildSeries(data) <==> sid != "" && |Positions(data, sid)| > 0
      ensures sid in BuildSeries(data) ==> BuildSeries(data)[sid] == Positions(data, sid)
    {
      BuildSeriesAt(data, sid);
    }
  }

  /** Positions depend on nothing but the records' series keys. */
  lemma {:induction false} PositionsSameKeys(a: seq<Record>, b: seq<Record>, sid: string)
    requires |a| == |b|
    requires forall i :: 0 <= i < |a| ==> SeriesKey(a[i]) == SeriesKey(b[i])
    ensures Positions(a, sid) == Positions(b, sid)
  {
    if |a| > 0 {
      var n := |a| - 1;
      assert forall i :: 0 <= i < n ==> a[..n][i] == a[i] && b[..n][i] == b[i];
      PositionsSameKeys(a[..n], b[..n], sid);
    }
  }

  /** The series map depends on nothing but the records' series keys. */
  lemma {:induction false} BuildSeriesSameKeys(a: seq<Record>, b: seq<Record>)
    requires |a| == |b|
    requires forall i :: 0 <= i < |a| ==> SeriesKey(a[i]) == SeriesKey(b[i])
    ensures BuildSeries(a) == BuildSeries(b)
  {
    forall sid ensures Positions(a, sid) == Positions(b, sid) {
      PositionsSameKeys(a, b, sid);
    }
    BuildSeriesSpec(a);
    BuildSeriesSpec(b);
  }

  /** `seriesMap[sid] || []`. */
  function SeriesLookup(series: map<string, seq<nat>>, sid: string): seq<nat>
  {
    if sid in series then series[sid] else []
  }

  /** Every position stored in the series map points into `data`. */
  ghost predicate PositionsValid(series: map<string, seq<nat>>, n: nat)
  {
    forall sid :: sid in series ==> forall k :: 0 <= k < |series[sid]| ==> series[sid][k] < n
  }

  lemma {:induction false} BuildSeriesValid(data: seq<Record>)
    ensures PositionsValid(BuildSeries(data), |data|)
  {
    var m := BuildSeries(data);
    BuildSeriesSpec(data);
    forall sid | sid in m ensures forall k :: 0 <= k < |m[sid]| ==> m[sid][k] < |data| {
      forall k | 0 <= k < |m[sid]| ensures m[sid][k] < |data| {
        assert m[sid][k] in Positions(data, sid);
      }
    }
  }

  /** The records at `idxs` whose id is not `id`, in the order of `idxs`. */
  function PickOthers(data: seq<Record>, idxs: seq<nat>, id: string): (r: seq<Record>)
    requires forall k :: 0 <= k < |idxs| ==> idxs[k] < |data|
    ensures forall s :: s in r ==> s.id != id
  {
    if idxs == [] then []
    else
      var rec := data[idxs[0]];
      (if rec.id != id then [rec] else []) + PickOthers(data, idxs[1..], id)
  }

  /** getSiblings: the other records of `d`'s series, read from the
      series map; empty when `d` has no series id. Never `d` itself. */
  function Siblings(data: seq<Record>, series: map<string, seq<nat>>, d: Record): (r: seq<Record>)
    requires PositionsValid(series, |data|)
    ensures forall s :: s in r ==> s.id != d.id
  {
    var sid := SeriesKey(d);
    if sid == "" then [] else PickOthers(data, SeriesLookup(series, sid), d.id)
  }

  /** The reference definition: the records of `data`, in load order,
      whose series key is `sid` and whose id is not `id`. */
  function SameSeriesOthers(data: seq<Record>, sid: string, id: string): seq<Record>
  {
    if |data| == 0 then []
    else
      var n := |data| - 1;
      SameSeriesOthers(data[..n], sid, id) +
        (if SeriesKey(data[n]) == sid && data[n].id != id then [data[n]] else [])
  }

  lemma {:induction false} PickOthersAppend(data: seq<Record>, a: seq<nat>, b: seq<nat>, id: string)
    requires forall k :: 0 <= k < |a| ==> a[k] < |data|
    requires forall k :: 0 <= k < |b| ==> b[k] < |data|
    ensures PickOthers(data, a + b, id) == PickOthers(data, a, id) + PickOthers(data, b, id)
  {
    if a == [] {
      assert a + b == b;
    } else {
      assert (a + b)[0] == a[0];
      assert (a + b)[1..] == a[1..] + b;
      PickOthersAppend(data, a[1..], b, id);
    }
  }

  lemma {:induction false} PickOthersPrefix(data: seq<Record>, m: nat, idxs: seq<nat>, id: string)
    requires m <= |data|
    requires forall k :: 0 <= k < |idxs| ==> idxs[k] < m
    ensures PickOthers(data, idxs, id) == PickOthers(data[..m], idxs, id)
  {
    if idxs != [] {
      PickOthersPrefix(data, m, idxs[1..], id);
    }
  }

  lemma {:induction false} PickPositions(data: seq<Record>, sid: string, id: string)
    ensures PickOthers(data, Positions(data, sid), id) == SameSeriesOthers(data, sid, id)
  {
    if |data| > 0 {
      var n := |data| - 1;
      var p := Positions(data[..n], sid);
      var tail: seq<nat> := if SeriesKey(data[n]) == sid then [n] else [];
      assert Positions(data, sid) == p + tail;
      PickOthersAppend(data, p, tail, id);
      PickOthersPrefix(data, n, p, id);
      PickPositions(data[..n], sid, id);
      var last: seq<Record> := if SeriesKey(data[n]) == sid && data[n].id != id then [data[n]] else [];
      assert PickOthers(data, tail, id) == last;
      assert SameSeriesOthers(data, sid, id) == SameSeriesOthers(data[..n], sid, id) + last;
    }
  }

  /** getSiblings over the map the load step builds returns exactly the
      other records of the same non-empty series, in load order. */
  lemma SiblingsAreSameSeries(data: seq<Record>, d: Record)
    ensures PositionsValid(BuildSeries(data), |data|)
    ensures Siblings(data, BuildSeries(data), d) ==
      if SeriesKey(d) == "" then [] else SameSeriesOthers(data, SeriesKey(d), d.id)
  {
    BuildSeriesValid(data);
    BuildSeriesSpec(data);
    var sid := SeriesKey(d);
    if sid != "" {
      if sid !in BuildSeries(data) {
        assert Positions(data, sid) == [];
      }
      PickPositions(data, sid, d.id);
    }
  }

  /** Membership in the reference definition. */
  lemma {:induction false} SameSeriesOthersMembers(data: seq<Record>, sid: string, id: string)
    ensures forall s :: s in SameSeriesOthers(data, sid, id) <==>
      s in data && SeriesKey(s) == sid && s.id != id
  {
    if |data| > 0 {
      var n := |data| - 1;
      SameSeriesOthersMembers(data[..n], sid, id);
      assert data == data[..n] + [data[n]];
    }
  }

  // ---------------------------------------------------------------------
  // Finding a record by id (`allData.find`, main.js:378)
  // ---------------------------------------------------------------------

  function FindFrom(data: seq<Record>, id: string, k: nat): (r: Option<nat>)
    requires k <= |data|
    ensures r.Some? ==> k <= r.value < |data| && data[r.value].id == id
    ensures r.Some? ==> forall j :: k <= j < r.value ==> data[j].id != id
    ensures r.None? <==> forall j :: k <= j < |data| ==> data[j].id != id
    decreases |data| - k
  {
    if k == |data| then None
    else if data[k].id == id then Some(k)
    else FindFrom(data, id, k + 1)
  }

  /** The position of the first record with the given id, if any. */
  function FindById(data: seq<Record>, id: string): (r: Option<nat>)
    ensures r.Some? ==> r.value < |data| && data[r.value].id == id
    ensures r.Some? ==> forall j :: 0 <= j < r.value ==> data[j].id != id
    ensures r.None? <==> forall j :: 0 <= j < |data| ==> data[j].id != id
  {
    FindFrom(data, id, 0)
  }
}

/** The x scale of the chart (`buildScaleX`, main.js:94-119), the far-future
    pin (`getX2`, main.js:125-130) and the arc geometry of `makeArcPath`
    (main.js:132-140) and of the span band (main.js:534-541), on reals.

    d3's linear scale is written out as the affine map it computes. d3's
    log scale is `ln`, an arbitrary function standing for the logarithm:
    the scale normalises `ln(y)` between `ln` of its two domain ends and
    returns the middle of its range when the two coincide, as d3 does. */
module Scale {
  import opened Common
  import opened Records

  const AxisMin: real := 1700.0
  const AxisMaxLin: real := 3000.0
  const LogCutoff: real := 3000.0
  const LogSplitFrac: real := 0.6
  const LogMax: real := 10000000000000.0

  const MarginLeft: real := 56.0
  const MarginRight: real := 36.0
  const MarginTop: real := 32.0
  const MarginBottom: real := 48.0

  const ArcHeightRatio: real := 0.76
  const ArcMinH: real := 6.0

  /** The scale a draw builds: the mode and the chart width in pixels. */
  datatype Scale = Scale(isLog: bool, w: real)

  /** `ln` is strictly increasing on the positive reals, as Math.log is. */
  ghost predicate Increasing(ln: real -> real)
  {
    forall a: real, b: real :: 0.0 < a < b ==> ln(a) < ln(b)
  }

  /** d3.scaleLinear().domain([d0, d1]).range([r0, r1]) applied to `y`. */
  function Linear(d0: real, d1: real, r0: real, r1: real, y: real): real
    requires d0 < d1
  {
    r0 + (y - d0) / (d1 - d0) * (r1 - r0)
  }

  /** The right end of the plot area. */
  function RightEdge(w: real): real
  {
    w - MarginRight
  }

  /** The pixel where the linear part of the log-mode axis ends. */
  function SplitX(w: real): real
  {
    MarginLeft + (w - MarginLeft - MarginRight) * LogSplitFrac
  }

  /** d3.scaleLog().domain([LogCutoff, LogMax]).range([SplitX, RightEdge]). */
  function LogS(ln: real -> real, w: real, y: real): real
  {
    var den := ln(LogMax) - ln(LogCutoff);
    var t := if den != 0.0 then (ln(y) - ln(LogCutoff)) / den else 0.5;
    SplitX(w) + t * (RightEdge(w) - SplitX(w))
  }

  /** scaleX: linear mode clamps the year into [1700, 3000] and maps it
      onto the plot area; log mode sends years up to 3000 through the
      linear part (clamped below at 1700) and later years through the log
      part, clamped at the right edge. */
  function ScaleX(s: Scale, ln: real -> real, y: real): real
  {
    if !s.isLog then
      Linear(AxisMin, AxisMaxLin, MarginLeft, RightEdge(s.w), Max(AxisMin, Min(y, AxisMaxLin)))
    else if y <= LogCutoff then
      Linear(AxisMin, LogCutoff, MarginLeft, SplitX(s.w), Max(AxisMin, y))
    else
      Min(LogS(ln, s.w, Min(y, LogMax)), RightEdge(s.w))
  }

  /** scaleX.isFarFuture: the year lies beyond the axis's right bound. */
  function IsFarFuture(s: Scale, y: real): (r: bool)
    ensures !s.isLog ==> (r <==> y > AxisMaxLin)
    ensures s.isLog ==> (r <==> y > LogMax)
  {
    y > (if s.isLog then LogMax else AxisMaxLin)
  }

  // ---------------------------------------------------------------------
  // Linear mode
  // ---------------------------------------------------------------------

  /** Scaling by a non-negative factor keeps the order. */
  lemma MulMonotone(a: real, b: real, c: real)
    requires a <= b && c >= 0.0
    ensures a * c <= b * c
  {
    assert b * c - a * c == (b - a) * c;
  }

  /** Dividing by a positive number keeps the order. */
  lemma DivMonotone(a: real, b: real, c: real)
    requires a <= b && c > 0.0
    ensures a / c <= b / c
  {
    assert b / c - a / c == (b - a) / c;
    assert (b - a) / c * c == b - a;
  }

  /** Fractions of a positive whole, taken of ordered parts, are ordered
      and between 0 and 1. */
  lemma Fractions(a: real, b: real, den: real)
    requires 0.0 <= a <= b <= den && den > 0.0
    ensures 0.0 <= a / den <= b / den <= 1.0
  {
    DivMonotone(0.0, a, den);
    DivMonotone(a, b, den);
    DivMonotone(b, den, den);
    assert den / den * den == den;
  }

  /** Ordered fractions of a non-negative length are ordered and within
      it. */
  lemma FractionsOf(t: real, u: real, k: real)
    requires 0.0 <= t <= u <= 1.0 && k >= 0.0
    ensures 0.0 <= t * k <= u * k <= k
  {
    MulMonotone(0.0, t, k);
    MulMonotone(t, u, k);
    MulMonotone(u, 1.0, k);
  }

  /** Between its two domain ends, an increasing linear scale stays
      between its two range ends and keeps the order of its inputs. */
  lemma {:induction false} LinearBetween(d0: real, d1: real, r0: real, r1: real, y: real, z: real)
    requires d0 < d1 && r0 <= r1 && d0 <= y <= z <= d1
    ensures r0 <= Linear(d0, d1, r0, r1, y) <= Linear(d0, d1, r0, r1, z) <= r1
  {
    var den := d1 - d0;
    var ty, tz := (y - d0) / den, (z - d0) / den;
    Fractions(y - d0, z - d0, den);
    FractionsOf(ty, tz, r1 - r0);
    assert Linear(d0, d1, r0, r1, y) == r0 + ty * (r1 - r0);
    assert Linear(d0, d1, r0, r1, z) == r0 + tz * (r1 - r0);
  }

  /** The ends of the linear scale's domain go to the ends of its range. */
  lemma LinearEnds(d0: real, d1: real, r0: real, r1: real)
    requires d0 < d1
    ensures Linear(d0, d1, r0, r1, d0) == r0
    ensures Linear(d0, d1, r0, r1, d1) == r1
  {
  }

  /** In linear mode, on a chart at least as wide as its margins, every
      year lands inside the plot area, the scale never decreases, and
      everything up to 1700 or from 3000 on sits on the matching edge. */
  lemma LinearModeClamps(w: real, ln: real -> real, y: real, z: real)
    requires w >= MarginLeft + MarginRight && y <= z
    ensures var s := Scale(false, w);
      MarginLeft <= ScaleX(s, ln, y) <= ScaleX(s, ln, z) <= RightEdge(w) &&
      (y <= AxisMin ==> ScaleX(s, ln, y) == MarginLeft) &&
      (y >= AxisMaxLin ==> ScaleX(s, ln, y) == RightEdge(w))
  {
    var cy := Max(AxisMin, Min(y, AxisMaxLin));
    var cz := Max(AxisMin, Min(z, AxisMaxLin));
    LinearBetween(AxisMin, AxisMaxLin, MarginLeft, RightEdge(w), cy, cz);
    LinearEnds(AxisMin, AxisMaxLin, MarginLeft, RightEdge(w));
  }

  // ---------------------------------------------------------------------
  // Log mode
  // ---------------------------------------------------------------------

  /** The split lies inside the plot area when the chart is at least as
      wide as its margins. */
  lemma SplitInside(w: real)
    requires w >= MarginLeft + MarginRight
    ensures MarginLeft <= SplitX(w) <= RightEdge(w)
  {
    MulMonotone(0.0, w - MarginLeft - MarginRight, LogSplitFrac);
  }

  /** With an increasing `ln`, the log part maps (3000, 1e13] into
      [SplitX, RightEdge], keeps the order, and sends 1e13 to the edge. */
  lemma {:induction false} LogPart(ln: real -> real, w: real, y: real, z: real)
    requires Increasing(ln) && w >= MarginLeft + MarginRight
    requires LogCutoff < y <= z <= LogMax
    ensures SplitX(w) <= LogS(ln, w, y) <= LogS(ln, w, z) <= RightEdge(w)
    ensures LogS(ln, w, LogMax) == RightEdge(w)
  {
    var a := ln(LogCutoff);
    var den := ln(LogMax) - a;
    assert ln(LogCutoff) < ln(y) && (y == z || ln(y) < ln(z)) && (z == LogMax || ln(z) < ln(LogMax));
    assert den > 0.0;
    var ty := (ln(y) - a) / den;
    var tz := (ln(z) - a) / den;
    Fractions(ln(y) - a, ln(z) - a, den);
    SplitInside(w);
    var width := RightEdge(w) - SplitX(w);
    FractionsOf(ty, tz, width);
    assert LogS(ln, w, y) == SplitX(w) + ty * width;
    assert LogS(ln, w, z) == SplitX(w) + tz * width;
    assert (ln(LogMax) - a) / den == 1.0;
  }

  /** In log mode years up to 3000 go through the linear part, onto
      [MarginLeft, SplitX]; no year ever passes the right edge. */
  lemma LogModeBounds(w: real, ln: real -> real, y: real)
    requires w >= MarginLeft + MarginRight
    ensures var s := Scale(true, w);
      ScaleX(s, ln, y) <= RightEdge(w) &&
      (y <= LogCutoff ==> ScaleX(s, ln, y) == Linear(AxisMin, LogCutoff, MarginLeft, SplitX(w), Max(AxisMin, y))) &&
      (y <= LogCutoff ==> MarginLeft <= ScaleX(s, ln, y) <= SplitX(w))
  {
    SplitInside(w);
    if y <= LogCutoff {
      LinearBetween(AxisMin, LogCutoff, MarginLeft, SplitX(w), Max(AxisMin, y), LogCutoff);
    }
  }

  /** With an increasing `ln`, the log-mode scale never decreases, and
      every year from 1e13 on sits on the right edge. */
  lemma {:induction false} LogModeMonotone(w: real, ln: real -> real, y: real, z: real)
    requires Increasing(ln) && w >= MarginLeft + MarginRight && y <= z
    ensures var s := Scale(true, w);
      MarginLeft <= ScaleX(s, ln, y) <= ScaleX(s, ln, z) <= RightEdge(w) &&
      (z >= LogMax ==> ScaleX(s, ln, z) == RightEdge(w))
  {
    SplitInside(w);
    var s := Scale(true, w);
    LogPart(ln, w, LogMax, LogMax);
    if z <= LogCutoff {
      LinearBetween(AxisMin, LogCutoff, MarginLeft, SplitX(w), Max(AxisMin, y), Max(AxisMin, z));
    } else if y <= LogCutoff {
      LinearBetween(AxisMin, LogCutoff, MarginLeft, SplitX(w), Max(AxisMin, y), LogCutoff);
      LogPart(ln, w, Min(z, LogMax), Min(z, LogMax));
    } else {
      LogPart(ln, w, Min(y, LogMax), Min(z, LogMax));
    }
  }

  // ---------------------------------------------------------------------
  // The far-future pin (getX2)
  // ---------------------------------------------------------------------

  /** getX2: a far-future record's right end is drawn at the axis's
      right bound (the set year capped at 1e13 in log mode, 3000 in
      linear mode); any other record's at its set year. */
  function GetX2(s: Scale, ln: real -> real, d: Record): real
  {
    if d.isFarFuture then ScaleX(s, ln, if s.isLog then Min(d.yearSet, LogMax) else AxisMaxLin)
    else ScaleX(s, ln, d.yearSet)
  }

  /** When the record's flag was computed by this scale, the pin is the
      scale's own clamp: the right end is simply the set year's pixel. */
  lemma GetX2IsScaleX(s: Scale, ln: real -> real, d: Record)
    requires d.isFarFuture == IsFarFuture(s, d.yearSet)
    ensures GetX2(s, ln, d) == ScaleX(s, ln, d.yearSet)
  {
  }

  /** A far-future arc (flagged by the scale it is drawn with) ends on
      the right edge of the plot area: at scaleX(3000) in linear mode,
      and, with an increasing `ln`, in log mode too. */
  lemma FarFuturePinned(s: Scale, ln: real -> real, d: Record)
    requires d.isFarFuture && d.isFarFuture == IsFarFuture(s, d.yearSet)
    requires s.w >= MarginLeft + MarginRight
    requires s.isLog ==> Increasing(ln)
    ensures !s.isLog ==> GetX2(s, ln, d) == ScaleX(s, ln, AxisMaxLin)
    ensures GetX2(s, ln, d) == RightEdge(s.w)
  {
    if s.isLog {
      LogPart(ln, s.w, LogMax, LogMax);
    } else {
      LinearEnds(AxisMin, AxisMaxLin, MarginLeft, RightEdge(s.w));
    }
  }

  // ---------------------------------------------------------------------
  // Arc geometry (makeArcPath)
  // ---------------------------------------------------------------------

  /** The vertical layout a draw computes from the chart height. */
  datatype Layout = Layout(yMid: real, maxArcH: real)

  /** yMid and maxArcH for a chart `h` pixels high: the baseline sits
      midway between the top and bottom margins and arcs are at most
      46% of the inner height, and never over 480 pixels. */
  function LayoutFor(h: real): (l: Layout)
    ensures l.yMid - MarginTop == (h - MarginBottom) - l.yMid
    ensures l.maxArcH <= 480.0
    ensures l.maxArcH <= (h - MarginTop - MarginBottom) * 0.46
    ensures l.maxArcH == 480.0 || l.maxArcH == (h - MarginTop - MarginBottom) * 0.46
  {
    var iH := h - MarginTop - MarginBottom;
    Layout(MarginTop + iH * 0.5, Min(iH * 0.46, 480.0))
  }

  /** A quadratic arc: from (x1, baseline) to (x2, baseline) with control
      point (cx, cy). */
  datatype Arc = Arc(x1: real, x2: real, baseline: real, cx: real, cy: real)

  /** The height of an arc: how far its control point is off the baseline. */
  function Height(a: Arc): real
  {
    Abs(a.cy - a.baseline)
  }

  /** makeArcPath: the arc a record is drawn as. */
  function MakeArc(s: Scale, ln: real -> real, l: Layout, d: Record): Arc
  {
    var x1 := ScaleX(s, ln, d.released);
    var x2 := GetX2(s, ln, d);
    var span := Abs(x2 - x1);
    var h := Max(ArcMinH, Min(span * ArcHeightRatio, l.maxArcH));
    var xm := (x1 + x2) / 2.0;
    var yc := if d.above then l.yMid - h else l.yMid + h;
    Arc(x1, x2, l.yMid, xm, yc)
  }

  /** The arc runs from the release year to the set year, its control
      point at the horizontal midpoint, above the baseline for `above`
      records and below for the others, at a height proportional to the
      pixel span, clamped to at least ArcMinH and at most maxArcH (a
      long span saturates at maxArcH, a short one at ArcMinH). */
  lemma MakeArcShape(s: Scale, ln: real -> real, l: Layout, d: Record)
    ensures var a := MakeArc(s, ln, l, d);
      a.x1 == ScaleX(s, ln, d.released) && a.x2 == GetX2(s, ln, d) &&
      a.baseline == l.yMid && 2.0 * a.cx == a.x1 + a.x2 &&
      (d.above <==> a.cy < a.baseline) &&
      ArcMinH <= Height(a) <= Max(ArcMinH, l.maxArcH) &&
      (a.x1 == a.x2 ==> Height(a) == ArcMinH) &&
      (ArcMinH <= Abs(a.x2 - a.x1) * ArcHeightRatio <= l.maxArcH ==>
        Height(a) == Abs(a.x2 - a.x1) * ArcHeightRatio) &&
      (Abs(a.x2 - a.x1) * ArcHeightRatio >= l.maxArcH ==> Height(a) == Max(ArcMinH, l.maxArcH)) &&
      (Abs(a.x2 - a.x1) * ArcHeightRatio <= ArcMinH ==> Height(a) == ArcMinH)
  {
  }

  /** The band drawn on the axis for a record's broader setting: from the
      start year (at least 1700) to the end year (at most the axis's right
      bound), as a left edge and a width. */
  function SpanBand(s: Scale, ln: real -> real, first: real, last: real): (band: (real, real))
    ensures band.1 >= 0.0
    ensures var xa := ScaleX(s, ln, Max(AxisMin, first));
      var xb := ScaleX(s, ln, Min(if s.isLog then LogMax else AxisMaxLin, last));
      band.0 == Min(xa, xb) && band.0 + band.1 == Max(xa, xb)
  {
    var xa := ScaleX(s, ln, Max(AxisMin, first));
    var xb := ScaleX(s, ln, Min(if s.isLog then LogMax else AxisMaxLin, last));
    (Min(xa, xb), Abs(xb - xa))
  }

  /** The band of a multi-year setting stays on the axis: for a chart at
      least MarginLeft + MarginRight wide it lies between the left margin
      and the right edge. */
  lemma SpanBandInPlot(s: Scale, ln: real -> real, first: real, last: real)
    requires s.w >= MarginLeft + MarginRight
    requires s.isLog ==> Increasing(ln)
    ensures var band := SpanBand(s, ln, first, last);
      MarginLeft <= band.0 && band.0 + band.1 <= RightEdge(s.w)
  {
    var ya := Max(AxisMin, first);
    var yb := Min(if s.isLog then LogMax else AxisMaxLin, last);
    if s.isLog {
      LogModeMonotone(s.w, ln, ya, ya);
      LogModeMonotone(s.w, ln, yb, yb);
    } else {
      LinearModeClamps(s.w, ln, ya, ya);
      LinearModeClamps(s.w, ln, yb, yb);
    }
  }
}

/**
 * The drawing of `CALineGraphLayer` (the `trs-system` tree): the guards,
 * the normalisation of the data into the layer's bounds, and the
 * sequence of path elements handed to the context. The bounds and the
 * line width are parameters; the stroke itself is host drawing.
 */
module LineGraph {
  import opened Wrappers
  import Arith

  datatype Point = Point(x: real, y: real)

  /** A standardised rectangle: an origin and a non-negative size. */
  datatype Rect = Rect(minX: real, minY: real, width: real, height: real)

  predicate Standard(r: Rect) {
    r.width >= 0.0 && r.height >= 0.0
  }

  /**
   * `insetBy(dx:dy:)` with equal insets; a rectangle too small to inset
   * becomes the null rectangle (`None`).
   */
  function InsetBy(r: Rect, d: real): (s: Option<Rect>)
    requires Standard(r)
    ensures s.Some? <==> r.width >= 2.0 * d && r.height >= 2.0 * d
    ensures s.Some? ==> Standard(s.value)
    ensures s.Some? ==> s.value.minX == r.minX + d && s.value.minX + s.value.width == r.minX + r.width - d
    ensures s.Some? ==> s.value.minY == r.minY + d && s.value.minY + s.value.height == r.minY + r.height - d
  {
    if r.width < 2.0 * d || r.height < 2.0 * d then None
    else Some(Rect(r.minX + d, r.minY + d, r.width - 2.0 * d, r.height - 2.0 * d))
  }

  /** The smallest value (`min()`, which is nil for no values). */
  function Minimum(s: seq<real>): (m: real)
    requires |s| > 0
    ensures m in s && forall v | v in s :: m <= v
  {
    if |s| == 1 then s[0]
    else
      var rest := Minimum(s[1..]);
      assert forall v | v in s :: v == s[0] || v in s[1..];
      if s[0] <= rest then s[0] else rest
  }

  /** The largest value (`max()`). */
  function Maximum(s: seq<real>): (m: real)
    requires |s| > 0
    ensures m in s && forall v | v in s :: v <= m
  {
    if |s| == 1 then s[0]
    else
      var rest := Maximum(s[1..]);
      assert forall v | v in s :: v == s[0] || v in s[1..];
      if s[0] >= rest then s[0] else rest
  }

  /** All values equal: the second guard's `min == max`. */
  predicate Flat(s: seq<real>) {
    forall i, j | 0 <= i < |s| && 0 <= j < |s| :: s[i] == s[j]
  }

  lemma FlatIffMinIsMax(s: seq<real>)
    requires |s| > 0
    ensures Flat(s) <==> Minimum(s) == Maximum(s)
  {
    if Minimum(s) == Maximum(s) {
      forall i, j | 0 <= i < |s| && 0 <= j < |s| ensures s[i] == s[j] {
        assert Minimum(s) <= s[i] <= Maximum(s);
        assert Minimum(s) <= s[j] <= Maximum(s);
      }
    }
  }

  /** The `i`-th of `n` evenly spread abscissae runs from `x0` to `x0 + w`. */
  lemma XEnds(i: nat, n: nat, w: real, x0: real)
    requires n > 1 && i < n
    ensures i == 0 ==> (i as real) / ((n - 1) as real) * w + x0 == x0
    ensures i == n - 1 ==> (i as real) / ((n - 1) as real) * w + x0 == x0 + w
  {
    if i == n - 1 {
      assert (i as real) / ((n - 1) as real) == 1.0;
    }
  }

  /** A value scaled from [lo, hi] into [y0, y0 + h]. */
  lemma YBounds(v: real, lo: real, hi: real, h: real, y0: real)
    requires lo <= v <= hi && lo < hi && h >= 0.0
    ensures y0 <= (v - lo) / (hi - lo) * h + y0 <= y0 + h
    ensures v == lo ==> (v - lo) / (hi - lo) * h + y0 == y0
    ensures v == hi ==> (v - lo) / (hi - lo) * h + y0 == y0 + h
  {
    var t := (v - lo) / (hi - lo);
    Arith.DivUnit(v - lo, hi - lo);
    Arith.MulUnit(h, t);
    assert h * t == t * h;
    if v == hi {
      assert t == 1.0;
    }
  }

  /** The `i`-th of `n` values `v`, spread evenly across `rect` and scaled from [lo, hi] into its height. */
  function PlotPoint(i: nat, n: nat, v: real, lo: real, hi: real, rect: Rect): (p: Point)
    requires n > 1 && i < n && lo <= v <= hi && lo < hi && Standard(rect)
    ensures i == 0 ==> p.x == rect.minX
    ensures i == n - 1 ==> p.x == rect.minX + rect.width
    ensures rect.minY <= p.y <= rect.minY + rect.height
    ensures v == lo ==> p.y == rect.minY
    ensures v == hi ==> p.y == rect.minY + rect.height
  {
    XEnds(i, n, rect.width, rect.minX);
    YBounds(v, lo, hi, rect.height, rect.minY);
    Point((i as real) / ((n - 1) as real) * rect.width + rect.minX, (v - lo) / (hi - lo) * rect.height + rect.minY)
  }

  /** The point for the `i`-th value of the data. */
  function PointAt(data: seq<real>, rect: Rect, i: nat): (p: Point)
    requires |data| > 1 && i < |data| && Minimum(data) < Maximum(data) && Standard(rect)
    ensures i == 0 ==> p.x == rect.minX
    ensures i == |data| - 1 ==> p.x == rect.minX + rect.width
    ensures rect.minY <= p.y <= rect.minY + rect.height
    ensures data[i] == Minimum(data) ==> p.y == rect.minY
    ensures data[i] == Maximum(data) ==> p.y == rect.minY + rect.height
  {
    assert data[i] in data;
    PlotPoint(i, |data|, data[i], Minimum(data), Maximum(data), rect)
  }

  /** The points of the graph, one per value, in the order of the values. */
  function Points(data: seq<real>, rect: Rect): (pts: seq<Point>)
    requires |data| > 1 && Minimum(data) < Maximum(data) && Standard(rect)
    ensures |pts| == |data|
    ensures forall i | 0 <= i < |pts| :: pts[i] == PointAt(data, rect, i)
  {
    seq(|data|, i requires 0 <= i < |data| => PointAt(data, rect, i))
  }

  /** Evenly spread abscissae rise with the index when there is width. */
  lemma XIncreasing(n: nat, w: real, i: nat, j: nat)
    requires n > 1 && i < j < n && w > 0.0
    ensures (i as real) / ((n - 1) as real) * w < (j as real) / ((n - 1) as real) * w
  {
    var d := (n - 1) as real;
    assert (i as real) / d < (j as real) / d;
    Arith.MulStrict((i as real) / d, (j as real) / d, w);
  }

  /**
   * The normalised points: the first at the left edge and the last at the
   * right edge, all within the height, the smallest value at the bottom
   * edge and the largest at the top.
   */
  lemma PointsInRect(data: seq<real>, rect: Rect, i: nat)
    requires |data| > 1 && Minimum(data) < Maximum(data) && Standard(rect)
    requires i < |data|
    ensures var pts := Points(data, rect);
      pts[0].x == rect.minX && pts[|pts| - 1].x == rect.minX + rect.width
      && rect.minY <= pts[i].y <= rect.minY + rect.height
      && (data[i] == Minimum(data) ==> pts[i].y == rect.minY)
      && (data[i] == Maximum(data) ==> pts[i].y == rect.minY + rect.height)
  {
  }

  /** Two plotted points keep the order of their indices when there is width. */
  lemma PlotPointsOrdered(i: nat, j: nat, n: nat, v: real, w: real, lo: real, hi: real, rect: Rect)
    requires n > 1 && i < j < n && lo <= v <= hi && lo <= w <= hi && lo < hi && Standard(rect)
    requires rect.width > 0.0
    ensures PlotPoint(i, n, v, lo, hi, rect).x < PlotPoint(j, n, w, lo, hi, rect).x
  {
    XIncreasing(n, rect.width, i, j);
    var xi := (i as real) / ((n - 1) as real) * rect.width;
    var xj := (j as real) / ((n - 1) as real) * rect.width;
    assert xi + rect.minX < xj + rect.minX;
    assert PlotPoint(i, n, v, lo, hi, rect).x == xi + rect.minX;
    assert PlotPoint(j, n, w, lo, hi, rect).x == xj + rect.minX;
  }

  /** With width, the points run strictly left to right. */
  lemma PointsLeftToRight(data: seq<real>, rect: Rect, i: nat, j: nat)
    requires |data| > 1 && Minimum(data) < Maximum(data) && Standard(rect) && rect.width > 0.0
    requires i < j < |data|
    ensures Points(data, rect)[i].x < Points(data, rect)[j].x
  {
    assert data[i] in data && data[j] in data;
    PlotPointsOrdered(i, j, |data|, data[i], data[j], Minimum(data), Maximum(data), rect);
  }

  /** `addQuadCurve(to:control:)` */
  datatype Curve = Curve(to: Point, control: Point)

  /** A `move(to:)` followed by quadratic curves. */
  datatype Path = Path(start: Point, curves: seq<Curve>)

  function Midpoint(p: Point, q: Point): Point {
    Point((p.x + q.x) / 2.0, (p.y + q.y) / 2.0)
  }

  /**
   * The smoothing loop: for each consecutive pair, a curve to their
   * midpoint controlled by the first, then a curve to the second
   * controlled by the midpoint.
   */
  method Smooth(points: seq<Point>) returns (path: Path)
    requires |points| > 0
    ensures path.start == points[0]
    ensures |path.curves| == 2 * (|points| - 1)
    ensures forall i | 1 <= i < |points| ::
      path.curves[2 * i - 2] == Curve(Midpoint(points[i - 1], points[i]), points[i - 1])
      && path.curves[2 * i - 1] == Curve(points[i], Midpoint(points[i - 1], points[i]))
    ensures |points| > 1 ==> path.curves[|path.curves| - 1].to == points[|points| - 1]
  {
    var curves: seq<Curve> := [];
    var i := 1;
    while i < |points|
      invariant 1 <= i <= |points|
      invariant |curves| == 2 * (i - 1)
      invariant forall k | 1 <= k < i ::
        curves[2 * k - 2] == Curve(Midpoint(points[k - 1], points[k]), points[k - 1])
        && curves[2 * k - 1] == Curve(points[k], Midpoint(points[k - 1], points[k]))
    {
      var previous, current := points[i - 1], points[i];
      var mid := Midpoint(previous, current);
      curves := curves + [Curve(mid, previous), Curve(current, mid)];
      i := i + 1;
    }
    path := Path(points[0], curves);
    if |points| > 1 {
      var k := |points| - 1;
      assert path.curves[2 * k - 1] == Curve(points[k], Midpoint(points[k - 1], points[k]));
    }
  }

  /**
   * `draw(in:)`: nothing for fewer than two values, for values that are
   * all equal, or for bounds too small for the line width; otherwise the
   * smoothed path through the normalised points.
   */
  method Draw(data: seq<real>, bounds: Rect, lineWidth: real) returns (r: Option<Path>)
    requires Standard(bounds)
    ensures r.None? <==> |data| < 2 || Flat(data) || InsetBy(bounds, lineWidth / 2.0).None?
    ensures r.Some? ==> |r.value.curves| == 2 * (|data| - 1)
    ensures r.Some? ==> r.value.start.x == bounds.minX + lineWidth / 2.0
    ensures r.Some? ==> r.value.curves[|r.value.curves| - 1].to.x == bounds.minX + bounds.width - lineWidth / 2.0
    ensures r.Some? ==> |data| > 1 && Minimum(data) < Maximum(data) && InsetBy(bounds, lineWidth / 2.0).Some?
    ensures r.Some? ==> r.value.start == PointAt(data, InsetBy(bounds, lineWidth / 2.0).value, 0)
    ensures r.Some? ==> forall i | 1 <= i < |data| ::
      var rect := InsetBy(bounds, lineWidth / 2.0).value;
      var p, q := PointAt(data, rect, i - 1), PointAt(data, rect, i);
      r.value.curves[2 * i - 2] == Curve(Midpoint(p, q), p)
      && r.value.curves[2 * i - 1] == Curve(q, Midpoint(p, q))
  {
    if |data| < 2 {
      return None;
    }
    FlatIffMinIsMax(data);
    if Minimum(data) == Maximum(data) {
      return None;
    }
    var rect := InsetBy(bounds, lineWidth / 2.0);
    if rect.None? {
      return None;
    }
    var points := Points(data, rect.value);
    var path := Smooth(points);
    r := Some(path);
  }
}

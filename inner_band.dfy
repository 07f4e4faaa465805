/** The inner band: a strip of the block width offset to one side of a line, with one polygon
    per span. */
module InnerBand {
  import opened Wrappers
  import opened Numeric
  import opened Types

  const NEAR_ZERO: real := 0.000001

  /** `magnitude` is `Math.hypot(v.x, v.y)`. */
  predicate IsMagnitude(v: Point, magnitude: real) {
    magnitude >= 0.0 && magnitude * magnitude == v.x * v.x + v.y * v.y
  }

  predicate IsUnit(v: Point) {
    v.x * v.x + v.y * v.y == 1.0
  }

  /** Dividing both coordinates by the magnitude gives a vector of length one. */
  lemma ScaledIsUnit(v: Point, magnitude: real)
    requires IsMagnitude(v, magnitude) && magnitude > 0.0
    ensures IsUnit(Point(v.x / magnitude, v.y / magnitude))
  {
    var a := v.x / magnitude;
    var b := v.y / magnitude;
    var mm := magnitude * magnitude;
    assert a * magnitude == v.x && b * magnitude == v.y;
    assert (a * a) * mm == v.x * v.x by {
      assert (a * a) * mm == (a * magnitude) * (a * magnitude);
    }
    assert (b * b) * mm == v.y * v.y by {
      assert (b * b) * mm == (b * magnitude) * (b * magnitude);
    }
    assert mm == v.x * v.x + v.y * v.y;
    assert (a * a + b * b) * mm == (a * a) * mm + (b * b) * mm;
    SquareLess(0.0, magnitude);
    var q := a * a + b * b;
    if q < 1.0 {
      MulStrict(q, 1.0, mm);
    } else if q > 1.0 {
      MulStrict(1.0, q, mm);
    }
  }

  /** `normalize`: the vector scaled to length one, or an error when it is shorter than
      `NEAR_ZERO`. */
  function Normalize(v: Point, magnitude: real): (r: Result<Point, Thrown>)
    requires IsMagnitude(v, magnitude)
    ensures r.Success? <==> magnitude >= NEAR_ZERO
    ensures r.Failure? ==> r.error == ZeroLengthVector
    ensures r.Success? ==> IsUnit(r.value) && r.value.x * magnitude == v.x && r.value.y * magnitude == v.y
  {
    if magnitude < NEAR_ZERO then Failure(ZeroLengthVector)
    else
      ScaledIsUnit(v, magnitude);
      Success(Point(v.x / magnitude, v.y / magnitude))
  }

  /** A unit vector normalizes to itself. */
  lemma NormalizeUnit(v: Point)
    requires IsUnit(v)
    ensures IsMagnitude(v, 1.0)
    ensures Normalize(v, 1.0) == Success(v)
  {
  }

  predicate IsNearlyZero(value: real) {
    Abs(value) < NEAR_ZERO
  }

  /** `computeInwardNormal`, with `m` the line's Euclidean length. */
  function ComputeInwardNormal(line: Line, m: real): (r: Result<Point, Thrown>)
    requires line.MeasuredBy(m)
    ensures r.Success? ==> IsUnit(r.value)
  {
    var dx := line.Dx();
    var dy := line.Dy();
    if Abs(dx) < NEAR_ZERO && Abs(dy) < NEAR_ZERO then Failure(ZeroLengthNormal)
    else if IsNearlyZero(dy) then Success(Point(0.0, if dx >= 0.0 then -1.0 else 1.0))
    else if IsNearlyZero(dx) then Success(Point(if dy < 0.0 then 1.0 else -1.0, 0.0))
    else
      assert IsMagnitude(Point(-dy, dx), m);
      Normalize(Point(-dy, dx), m)
  }

  /** The line's length is at least its extent along either axis. */
  lemma LengthDominatesAxes(line: Line, m: real)
    requires line.MeasuredBy(m)
    ensures Abs(line.Dx()) >= NEAR_ZERO || Abs(line.Dy()) >= NEAR_ZERO ==> m >= NEAR_ZERO
  {
    var c := if Abs(line.Dx()) >= Abs(line.Dy()) then Abs(line.Dx()) else Abs(line.Dy());
    if c >= NEAR_ZERO && m < c {
      SquareLess(m, c);
    }
  }

  /** The normal exists exactly when the line is not shorter than `NEAR_ZERO` on both axes; along
      an axis it is the fixed unit vector of the code's table. */
  lemma NormalCases(line: Line, m: real)
    requires line.MeasuredBy(m)
    ensures ComputeInwardNormal(line, m).Failure? <==> IsNearlyZero(line.Dx()) && IsNearlyZero(line.Dy())
    ensures ComputeInwardNormal(line, m).Failure? ==> ComputeInwardNormal(line, m).error == ZeroLengthNormal
    ensures IsNearlyZero(line.Dy()) && !IsNearlyZero(line.Dx()) ==>
              ComputeInwardNormal(line, m) == Success(Point(0.0, if line.Dx() >= 0.0 then -1.0 else 1.0))
    ensures !IsNearlyZero(line.Dy()) && IsNearlyZero(line.Dx()) ==>
              ComputeInwardNormal(line, m) == Success(Point(if line.Dy() < 0.0 then 1.0 else -1.0, 0.0))
  {
    LengthDominatesAxes(line, m);
  }

  /** Off the axes the normal is the direction turned a quarter, `(-dy, dx)`, scaled to length
      one, and so perpendicular to the line. */
  lemma NormalOffAxis(line: Line, m: real)
    requires line.MeasuredBy(m)
    requires !IsNearlyZero(line.Dx()) && !IsNearlyZero(line.Dy())
    ensures ComputeInwardNormal(line, m).Success?
    ensures var n := ComputeInwardNormal(line, m).value;
            && n.x * line.Dx() + n.y * line.Dy() == 0.0
            && n.x * m == -line.Dy() && n.y * m == line.Dx()
  {
    LengthDominatesAxes(line, m);
    var n := ComputeInwardNormal(line, m).value;
    assert n.x * m == -line.Dy() && n.y * m == line.Dx();
    assert (n.x * line.Dx() + n.y * line.Dy()) * m == -line.Dy() * line.Dx() + line.Dx() * line.Dy();
  }

  /** Against the quarter turn `(-dy, dx)` used off the axes, the axis rule agrees on vertical
      lines but points the opposite way on horizontal ones. */
  lemma AxisRuleVersusQuarterTurn(line: Line, m: real)
    requires line.MeasuredBy(m)
    ensures line.Dy() == 0.0 && !IsNearlyZero(line.Dx()) ==>
              ComputeInwardNormal(line, m).Success? && ComputeInwardNormal(line, m).value.x == 0.0
              && ComputeInwardNormal(line, m).value.y * m == -line.Dx()
    ensures line.Dx() == 0.0 && !IsNearlyZero(line.Dy()) ==>
              ComputeInwardNormal(line, m).Success? && ComputeInwardNormal(line, m).value.y == 0.0
              && ComputeInwardNormal(line, m).value.x * m == -line.Dy()
  {
    LengthDominatesAxes(line, m);
    if line.Dy() == 0.0 && !IsNearlyZero(line.Dx()) {
      SquareRootUnique(m, Abs(line.Dx()));
      var n := ComputeInwardNormal(line, m).value;
      if line.Dx() > 0.0 {
        assert n.y == -1.0 && m == line.Dx();
      } else {
        assert n.y == 1.0 && m == -line.Dx();
      }
    }
    if line.Dx() == 0.0 && !IsNearlyZero(line.Dy()) {
      SquareRootUnique(m, Abs(line.Dy()));
      var n := ComputeInwardNormal(line, m).value;
      if line.Dy() > 0.0 {
        assert n.x == -1.0 && m == line.Dy();
      } else {
        assert n.x == 1.0 && m == -line.Dy();
      }
    }
  }

  datatype InnerBandGeometry = InnerBandGeometry(
    outer: seq<Point>,
    inner: seq<Point>,
    outline: seq<Point>,
    offsetVector: Point,
    spanPolygons: seq<SpanPolygon>)

  function Offset(p: Point, offset: Point): Point {
    Point(p.x + offset.x, p.y + offset.y)
  }

  /** The polygon of one span: its outer edge and the same edge moved by the offset. */
  function SpanPolygonOf(span: Span, offset: Point): SpanPolygon {
    SpanPolygon(span.id, [span.start, span.end, Offset(span.end, offset), Offset(span.start, offset)])
  }

  /** The offset the band uses: the custom vector when one is given, otherwise the unit normal
      times the width, on the side the polarity picks. */
  function OffsetVectorFor(unitNormal: Point, width: real, polarity: Polarity, customOffsetVector: Option<Point>): (r: Point)
    ensures customOffsetVector.Some? ==> r == customOffsetVector.value
    ensures customOffsetVector.None? ==> r.x * polarity as real == unitNormal.x * width && r.y * polarity as real == unitNormal.y * width
  {
    if customOffsetVector.Some? then customOffsetVector.value
    else Point(unitNormal.x * width * polarity as real, unitNormal.y * width * polarity as real)
  }

  /** Without a custom vector the offset is as long as the band is wide. */
  lemma OffsetLength(unitNormal: Point, width: real, polarity: Polarity)
    requires IsUnit(unitNormal)
    ensures var r := OffsetVectorFor(unitNormal, width, polarity, None);
            r.x * r.x + r.y * r.y == width * width
  {
    var p := polarity as real;
    var r := Point(unitNormal.x * width * p, unitNormal.y * width * p);
    assert p * p == 1.0;
    assert r.x * r.x == (unitNormal.x * unitNormal.x) * (width * width) * (p * p);
    assert r.y * r.y == (unitNormal.y * unitNormal.y) * (width * width) * (p * p);
    assert r.x * r.x + r.y * r.y == (unitNormal.x * unitNormal.x + unitNormal.y * unitNormal.y) * (width * width);
  }

  /** The geometry of a band once its offset is known: the inner edge is the outer edge moved by
      the offset, the outline runs outer start, outer end, inner end, inner start, and there is one
      polygon per span, in order, carrying the span's id. */
  function GeometryFor(line: Line, spans: seq<Span>, offsetVector: Point): (g: InnerBandGeometry)
    ensures g.outer == [line.Start(), line.End()]
    ensures g.inner == [Offset(line.Start(), offsetVector), Offset(line.End(), offsetVector)]
    ensures g.outline == [g.outer[0], g.outer[1], g.inner[1], g.inner[0]]
    ensures g.offsetVector == offsetVector
    ensures |g.spanPolygons| == |spans|
    ensures forall i :: 0 <= i < |spans| ==>
              && g.spanPolygons[i].spanId == spans[i].id
              && g.spanPolygons[i].points
                 == [spans[i].start, spans[i].end, Offset(spans[i].end, offsetVector), Offset(spans[i].start, offsetVector)]
  {
    var outer := [line.Start(), line.End()];
    var innerStart := Offset(line.Start(), offsetVector);
    var innerEnd := Offset(line.End(), offsetVector);
    var spanPolygons := seq(|spans|, i requires 0 <= i < |spans| => SpanPolygonOf(spans[i], offsetVector));
    InnerBandGeometry(outer, [innerStart, innerEnd], [outer[0], outer[1], innerEnd, innerStart], offsetVector, spanPolygons)
  }

  /** `buildInnerBandGeometry`, with `m` the line's Euclidean length. */
  function BuildInnerBandGeometry(line: Line, m: real, spans: seq<Span>, width: real, polarity: Polarity,
                                  customOffsetVector: Option<Point>): (r: Result<InnerBandGeometry, Thrown>)
    requires line.MeasuredBy(m)
  {
    if width <= 0.0 then Failure(NonPositiveBandWidth)
    else
      match ComputeInwardNormal(line, m)
      case Failure(e) => Failure(e)
      case Success(normal) =>
        NormalizeUnit(normal);
        var unitNormal := Normalize(normal, 1.0).value;
        Success(GeometryFor(line, spans, OffsetVectorFor(unitNormal, width, polarity, customOffsetVector)))
  }

  /** The band fails exactly for a non-positive width or a line without a normal; otherwise it is
      the geometry for the offset chosen from the normal. */
  lemma BandGeometryFacts(line: Line, m: real, spans: seq<Span>, width: real, polarity: Polarity, custom: Option<Point>)
    requires line.MeasuredBy(m)
    ensures width <= 0.0 ==> BuildInnerBandGeometry(line, m, spans, width, polarity, custom) == Failure(NonPositiveBandWidth)
    ensures width > 0.0 && ComputeInwardNormal(line, m).Failure? ==>
              BuildInnerBandGeometry(line, m, spans, width, polarity, custom) == Failure(ComputeInwardNormal(line, m).error)
    ensures width > 0.0 && ComputeInwardNormal(line, m).Success? ==>
              var offset := OffsetVectorFor(ComputeInwardNormal(line, m).value, width, polarity, custom);
              BuildInnerBandGeometry(line, m, spans, width, polarity, custom) == Success(GeometryFor(line, spans, offset))
  {
    if width > 0.0 {
      var normal := ComputeInwardNormal(line, m);
      if normal.Success? {
        NormalizeUnit(normal.value);
        var offset := OffsetVectorFor(normal.value, width, polarity, custom);
        assert BuildInnerBandGeometry(line, m, spans, width, polarity, custom) == Success(GeometryFor(line, spans, offset));
      }
    }
  }

  /** `flattenPoints`: the coordinates of the points, x before y, point after point. */
  function FlattenPoints(points: seq<Point>): (r: seq<real>)
    ensures |r| == 2 * |points|
    ensures forall i :: 0 <= i < |points| ==> r[2 * i] == points[i].x && r[2 * i + 1] == points[i].y
  {
    if |points| == 0 then []
    else
      var rest := FlattenPoints(points[1..]);
      assert forall i :: 1 <= i < |points| ==> rest[2 * (i - 1)] == points[i].x && rest[2 * (i - 1) + 1] == points[i].y;
      [points[0].x, points[0].y] + rest
  }

  /** Reading the flat list two at a time gives the points back. */
  function PairUp(flat: seq<real>): (r: seq<Point>)
    requires |flat| % 2 == 0
  {
    if |flat| == 0 then [] else [Point(flat[0], flat[1])] + PairUp(flat[2..])
  }

  lemma {:induction false} FlattenRoundTrip(points: seq<Point>)
    ensures PairUp(FlattenPoints(points)) == points
  {
    if |points| > 0 {
      FlattenRoundTrip(points[1..]);
      assert FlattenPoints(points)[2..] == FlattenPoints(points[1..]);
    }
  }

  /** The offsets of a 600 mm band on the axis normals. */
  lemma AxisOffsets()
    ensures OffsetVectorFor(Point(0.0, -1.0), 600.0, 1, None) == Point(0.0, -600.0)
    ensures OffsetVectorFor(Point(1.0, 0.0), 600.0, 1, None) == Point(600.0, 0.0)
  {
  }

  predicate IsHorizontalLeftToRight(line: Line) {
    line.startX == 0.0 && line.startY == 0.0 && line.endX == 3600.0 && line.endY == 0.0
  }

  /** A left-to-right horizontal line with a 600 mm band has its inner edge at y = -600. */
  lemma HorizontalBandExample(line: Line, m: real, spans: seq<Span>)
    requires IsHorizontalLeftToRight(line) && line.MeasuredBy(m)
    ensures BuildInnerBandGeometry(line, m, spans, 600.0, 1, None) == Success(GeometryFor(line, spans, Point(0.0, -600.0)))
    ensures var g := GeometryFor(line, spans, Point(0.0, -600.0));
            && g.inner == [Point(0.0, -600.0), Point(3600.0, -600.0)]
            && forall i :: 0 <= i < |spans| ==> g.spanPolygons[i].points[3] == Point(spans[i].start.x, spans[i].start.y - 600.0)
  {
    assert ComputeInwardNormal(line, m) == Success(Point(0.0, -1.0)) by {
      NormalCases(line, m);
    }
    AxisOffsets();
    BandGeometryFacts(line, m, spans, 600.0, 1, None);
  }

  /** A vertical line drawn from y = 1200 up to y = 0 gets its band 600 mm to the right. */
  lemma VerticalUpBandExample(line: Line, m: real, spans: seq<Span>)
    requires line.startX == 0.0 && line.startY == 1200.0 && line.endX == 0.0 && line.endY == 0.0
    requires line.MeasuredBy(m)
    ensures BuildInnerBandGeometry(line, m, spans, 600.0, 1, None) == Success(GeometryFor(line, spans, Point(600.0, 0.0)))
    ensures GeometryFor(line, spans, Point(600.0, 0.0)).inner[0] == Point(600.0, 1200.0)
  {
    assert ComputeInwardNormal(line, m) == Success(Point(1.0, 0.0)) by {
      NormalCases(line, m);
    }
    AxisOffsets();
    BandGeometryFacts(line, m, spans, 600.0, 1, None);
  }

  /** On a 45-degree line the offset is perpendicular: its x is minus its y, and its length is the width. */
  lemma DiagonalBandExample(line: Line, m: real, spans: seq<Span>)
    requires line.startX == 0.0 && line.startY == 0.0 && line.endX == 3000.0 && line.endY == 3000.0
    requires line.MeasuredBy(m)
    ensures BuildInnerBandGeometry(line, m, spans, 355.0, 1, None).Success?
    ensures var o := BuildInnerBandGeometry(line, m, spans, 355.0, 1, None).value.offsetVector;
            o.x == -o.y && o.x * o.x + o.y * o.y == 355.0 * 355.0
  {
    NormalOffAxis(line, m);
    BandGeometryFacts(line, m, spans, 355.0, 1, None);
    LengthDominatesAxes(line, m);
    var n := ComputeInwardNormal(line, m).value;
    assert n.x * m == -3000.0 && n.y * m == 3000.0;
    var q := n.x + n.y;
    assert q * m == 0.0;
    if q < 0.0 {
      MulStrict(q, 0.0, m);
    } else if q > 0.0 {
      MulStrict(0.0, q, m);
    }
    assert n.x == -n.y;
    OffsetLength(n, 355.0, 1);
  }
}

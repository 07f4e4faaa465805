/** `projectSegmentsOntoLine`: the end points of consecutive spans laid along a line. */
module LineProjection {
  import opened Wrappers
  import opened Numeric
  import opened Seqs
  import opened Types

  const TOLERANCE_MM: real := 1.0

  datatype ProjectedSegment = ProjectedSegment(start: Point, end: Point)

  /** `clampToTolerance`: an offset within the tolerance of zero becomes zero, any other offset
      is kept, so no offset that survives is within the tolerance unless it is zero. */
  function ClampToTolerance(value: real): (r: real)
    ensures r == 0.0 || r == value
    ensures Abs(r - value) <= TOLERANCE_MM
    ensures Abs(r) <= TOLERANCE_MM ==> r == 0.0
  {
    if Abs(value) <= TOLERANCE_MM then 0.0 else value
  }

  /** `clampToTolerance(position - origin) + origin`: a coordinate within the tolerance of the
      origin's lands on it exactly, any other coordinate is kept. */
  function SnapToOrigin(origin: real, position: real): (r: real)
    ensures r == origin || r == position
    ensures Abs(r - origin) <= TOLERANCE_MM ==> r == origin
  {
    ClampToTolerance(position - origin) + origin
  }

  /** The point `distance` along the line's unit direction, snapped coordinate by coordinate onto
      the line's start. */
  function Location(line: Line, m: real, distance: real): Point
    requires m > 0.0
  {
    var directionX := line.Dx() / m;
    var directionY := line.Dy() / m;
    Point(SnapToOrigin(line.startX, line.startX + directionX * distance),
          SnapToOrigin(line.startY, line.startY + directionY * distance))
  }

  /** Span `index`, which starts `startDistance` along the line; the last span ends at the
      measured length. (The source also asks that the length difference be within the tolerance,
      which always holds once the mismatch check has passed.) */
  function Piece(line: Line, m: real, segments: seq<real>, index: nat, startDistance: real): ProjectedSegment
    requires m > 0.0 && index < |segments|
  {
    var endDistance := if index == |segments| - 1 then m else startDistance + segments[index];
    ProjectedSegment(Location(line, m, startDistance), Location(line, m, endDistance))
  }

  /** The `map` callback applied from `index` on, with `travelled` the distance covered so far. */
  function ProjectFrom(line: Line, m: real, segments: seq<real>, index: nat, travelled: real): seq<ProjectedSegment>
    requires m > 0.0 && index <= |segments|
    decreases |segments| - index
  {
    if index == |segments| then []
    else [Piece(line, m, segments, index, travelled)] + ProjectFrom(line, m, segments, index + 1, travelled + segments[index])
  }

  /** `projectSegmentsOntoLine`, with `m` the line's Euclidean length. */
  function ProjectSpec(line: Line, m: real, segments: seq<real>): Result<seq<ProjectedSegment>, Thrown>
    requires line.MeasuredBy(m)
  {
    if |segments| == 0 then Failure(NoSegments)
    else if m <= 0.0 then Failure(NonPositiveLineLength)
    else if Abs(m - Sum(segments)) > TOLERANCE_MM then Failure(SegmentsMismatch)
    else Success(ProjectFrom(line, m, segments, 0, 0.0))
  }

  method ProjectSegmentsOntoLine(line: Line, m: real, segments: seq<real>) returns (r: Result<seq<ProjectedSegment>, Thrown>)
    requires line.MeasuredBy(m)
    ensures r == ProjectSpec(line, m, segments)
  {
    if |segments| == 0 {
      return Failure(NoSegments);
    }
    var measuredLength := m;
    if measuredLength <= 0.0 {
      return Failure(NonPositiveLineLength);
    }
    var lengthDelta := measuredLength - Sum(segments);
    if Abs(lengthDelta) > TOLERANCE_MM {
      return Failure(SegmentsMismatch);
    }
    var distanceTravelled := 0.0;
    var projected: seq<ProjectedSegment> := [];
    var index := 0;
    while index < |segments|
      invariant 0 <= index <= |segments|
      invariant projected + ProjectFrom(line, m, segments, index, distanceTravelled) == ProjectFrom(line, m, segments, 0, 0.0)
    {
      var startDistance := distanceTravelled;
      distanceTravelled := distanceTravelled + segments[index];
      var endDistance := distanceTravelled;
      if index == |segments| - 1 && Abs(lengthDelta) <= TOLERANCE_MM {
        endDistance := measuredLength;
      }
      var piece := ProjectedSegment(Location(line, m, startDistance), Location(line, m, endDistance));
      assert ProjectFrom(line, m, segments, index, startDistance)
          == [piece] + ProjectFrom(line, m, segments, index + 1, distanceTravelled);
      projected := projected + [piece];
      index := index + 1;
    }
    assert ProjectFrom(line, m, segments, index, distanceTravelled) == [];
    assert projected == ProjectFrom(line, m, segments, 0, 0.0);
    return Success(projected);
  }

  /** Projection fails exactly for an empty list, a zero-length line, or lengths that miss the
      measured length by more than the tolerance, and reports which. */
  lemma ProjectFailures(line: Line, m: real, segments: seq<real>)
    requires line.MeasuredBy(m)
    ensures ProjectSpec(line, m, segments).Success? <==> |segments| > 0 && m > 0.0 && Abs(m - Sum(segments)) <= TOLERANCE_MM
    ensures |segments| == 0 ==> ProjectSpec(line, m, segments) == Failure(NoSegments)
    ensures |segments| > 0 && line.Dx() == 0.0 && line.Dy() == 0.0 ==> ProjectSpec(line, m, segments) == Failure(NonPositiveLineLength)
    ensures |segments| > 0 && m > 0.0 && Abs(m - Sum(segments)) > TOLERANCE_MM ==> ProjectSpec(line, m, segments) == Failure(SegmentsMismatch)
  {
    if line.Dx() == 0.0 && line.Dy() == 0.0 {
      SquareRootUnique(m, 0.0);
    }
  }

  /** Span `index + k` of the projection from `index` starts at the sum of the lengths before it. */
  lemma {:induction false} ProjectFromAt(line: Line, m: real, segments: seq<real>, index: nat, k: nat)
    requires m > 0.0 && index + k < |segments|
    ensures |ProjectFrom(line, m, segments, index, Sum(segments[..index]))| == |segments| - index
    ensures ProjectFrom(line, m, segments, index, Sum(segments[..index]))[k]
         == Piece(line, m, segments, index + k, Sum(segments[..index + k]))
    decreases k
  {
    var travelled := Sum(segments[..index]);
    PrefixSumStep(segments, index);
    ProjectLength(line, m, segments, index + 1, travelled + segments[index]);
    if k > 0 {
      ProjectFromAt(line, m, segments, index + 1, k - 1);
    }
  }

  /** The sum of the lengths up to and including `index`. */
  lemma PrefixSumStep(segments: seq<real>, index: nat)
    requires index < |segments|
    ensures Sum(segments[..index + 1]) == Sum(segments[..index]) + segments[index]
  {
    assert segments[..index + 1][..index] == segments[..index];
  }

  lemma {:induction false} ProjectLength(line: Line, m: real, segments: seq<real>, index: nat, travelled: real)
    requires m > 0.0 && index <= |segments|
    ensures |ProjectFrom(line, m, segments, index, travelled)| == |segments| - index
    decreases |segments| - index
  {
    if index < |segments| {
      ProjectLength(line, m, segments, index + 1, travelled + segments[index]);
    }
  }

  /** Span `i` of the whole projection, its distances written as sums of the lengths. */
  lemma PieceAt(line: Line, m: real, segments: seq<real>, i: nat)
    requires m > 0.0 && i < |segments|
    ensures Piece(line, m, segments, i, Sum(segments[..i]))
         == ProjectedSegment(Location(line, m, Sum(segments[..i])),
                             Location(line, m, if i == |segments| - 1 then m else Sum(segments[..i + 1])))
  {
    assert segments[..i + 1][..i] == segments[..i];
  }

  /** Span `i` of the projection from the line's start. */
  lemma ProjectedAt(line: Line, m: real, segments: seq<real>, i: nat)
    requires m > 0.0 && i < |segments|
    ensures |ProjectFrom(line, m, segments, 0, 0.0)| == |segments|
    ensures ProjectFrom(line, m, segments, 0, 0.0)[i]
         == ProjectedSegment(Location(line, m, Sum(segments[..i])),
                             Location(line, m, if i == |segments| - 1 then m else Sum(segments[..i + 1])))
  {
    assert segments[..0] == [];
    ProjectFromAt(line, m, segments, 0, i);
    PieceAt(line, m, segments, i);
  }

  /** On success there is one span per length, in order: span `i` starts at the sum of the
      lengths before it and ends at the sum up to and including it, except that the last one
      ends at the measured length. */
  lemma ProjectShape(line: Line, m: real, segments: seq<real>)
    requires line.MeasuredBy(m) && ProjectSpec(line, m, segments).Success?
    ensures m > 0.0
    ensures var spans := ProjectSpec(line, m, segments).value;
            && |spans| == |segments|
            && (forall i :: 0 <= i < |spans| ==> spans[i].start == Location(line, m, Sum(segments[..i])))
            && (forall i :: 0 <= i < |spans| - 1 ==> spans[i].end == Location(line, m, Sum(segments[..i + 1])))
            && spans[|spans| - 1].end == Location(line, m, m)
  {
    var spans := ProjectFrom(line, m, segments, 0, 0.0);
    ProjectLength(line, m, segments, 0, 0.0);
    forall i | 0 <= i < |spans|
      ensures spans[i].start == Location(line, m, Sum(segments[..i]))
      ensures i < |spans| - 1 ==> spans[i].end == Location(line, m, Sum(segments[..i + 1]))
      ensures i == |spans| - 1 ==> spans[i].end == Location(line, m, m)
    {
      ProjectedAt(line, m, segments, i);
    }
  }

  /** A successful projection has one span per length. */
  lemma ProjectCount(line: Line, m: real, segments: seq<real>)
    requires line.MeasuredBy(m) && ProjectSpec(line, m, segments).Success?
    ensures m > 0.0 && |ProjectSpec(line, m, segments).value| == |segments|
  {
    ProjectLength(line, m, segments, 0, 0.0);
  }

  /** The first span starts exactly at the line's start. */
  lemma FirstStartIsLineStart(line: Line, m: real, segments: seq<real>)
    requires line.MeasuredBy(m) && ProjectSpec(line, m, segments).Success?
    ensures ProjectSpec(line, m, segments).value[0].start == line.Start()
  {
    ProjectShape(line, m, segments);
    assert segments[..0] == [];
  }

  /** Consecutive spans meet: each span ends where the next one starts. */
  lemma SpansAreContinuous(line: Line, m: real, segments: seq<real>)
    requires line.MeasuredBy(m) && ProjectSpec(line, m, segments).Success?
    ensures var spans := ProjectSpec(line, m, segments).value;
            forall i :: 0 <= i < |spans| - 1 ==> spans[i].end == spans[i + 1].start
  {
    ProjectShape(line, m, segments);
  }

  /** Distance 0 is the line's start; the measured length is the line's end, up to the snapping. */
  lemma LocationAtEnds(line: Line, m: real)
    requires m > 0.0
    ensures Location(line, m, 0.0) == line.Start()
    ensures Location(line, m, m).x == (if Abs(line.Dx()) <= TOLERANCE_MM then line.startX else line.endX)
    ensures Location(line, m, m).y == (if Abs(line.Dy()) <= TOLERANCE_MM then line.startY else line.endY)
  {
    var directionX := line.Dx() / m;
    var directionY := line.Dy() / m;
    assert directionX * m == line.Dx();
    assert directionY * m == line.Dy();
  }

  /** The last span ends on the line's end along every axis on which the line moves more than the
      tolerance; along an axis it moves less, the coordinate is the start's. */
  lemma LastEndIsLineEnd(line: Line, m: real, segments: seq<real>)
    requires line.MeasuredBy(m) && ProjectSpec(line, m, segments).Success?
    ensures var spans := ProjectSpec(line, m, segments).value;
            && spans[|spans| - 1].end.x == (if Abs(line.Dx()) <= TOLERANCE_MM then line.startX else line.endX)
            && spans[|spans| - 1].end.y == (if Abs(line.Dy()) <= TOLERANCE_MM then line.startY else line.endY)
  {
    ProjectShape(line, m, segments);
    LocationAtEnds(line, m);
  }

  /** Every projected coordinate within the tolerance of the line's start coordinate equals it. */
  lemma ProjectSnapsNearStart(line: Line, m: real, segments: seq<real>)
    requires line.MeasuredBy(m) && ProjectSpec(line, m, segments).Success?
    ensures var spans := ProjectSpec(line, m, segments).value;
            forall i :: 0 <= i < |spans| ==>
              && (Abs(spans[i].start.x - line.startX) <= TOLERANCE_MM ==> spans[i].start.x == line.startX)
              && (Abs(spans[i].start.y - line.startY) <= TOLERANCE_MM ==> spans[i].start.y == line.startY)
              && (Abs(spans[i].end.x - line.startX) <= TOLERANCE_MM ==> spans[i].end.x == line.startX)
              && (Abs(spans[i].end.y - line.startY) <= TOLERANCE_MM ==> spans[i].end.y == line.startY)
  {
    var spans := ProjectSpec(line, m, segments).value;
    ProjectShape(line, m, segments);
    forall i | 0 <= i < |spans|
      ensures Abs(spans[i].start.x - line.startX) <= TOLERANCE_MM ==> spans[i].start.x == line.startX
      ensures Abs(spans[i].start.y - line.startY) <= TOLERANCE_MM ==> spans[i].start.y == line.startY
      ensures Abs(spans[i].end.x - line.startX) <= TOLERANCE_MM ==> spans[i].end.x == line.startX
      ensures Abs(spans[i].end.y - line.startY) <= TOLERANCE_MM ==> spans[i].end.y == line.startY
    {
    }
  }

  predicate IsHorizontal3600(line: Line) {
    line.startX == 0.0 && line.startY == 0.0 && line.endX == 3600.0 && line.endY == 0.0
  }

  predicate IsVertical1800(line: Line) {
    line.startX == 600.0 && line.startY == 0.0 && line.endX == 600.0 && line.endY == 1800.0
  }

  /** One 1000 mm span on a 3600 mm line is rejected. */
  lemma MismatchExample(line: Line, m: real)
    requires IsHorizontal3600(line) && line.MeasuredBy(m)
    ensures ProjectSpec(line, m, [1000.0]) == Failure(SegmentsMismatch)
  {
    SquareRootUnique(m, 3600.0);
    SumPair(1000.0, 0.0);
  }

  /** The two spans of a successful projection of two lengths. */
  lemma TwoSpans(line: Line, m: real, a: real, b: real)
    requires line.MeasuredBy(m) && ProjectSpec(line, m, [a, b]).Success?
    ensures m > 0.0
    ensures ProjectSpec(line, m, [a, b]).value
         == [ProjectedSegment(Location(line, m, 0.0), Location(line, m, a)),
             ProjectedSegment(Location(line, m, a), Location(line, m, m))]
  {
    ProjectShape(line, m, [a, b]);
    SumPair(a, b);
    assert [a, b][..0] == [];
    assert [a, b][..1] == [a];
  }

  /** The span of a successful projection of one length. */
  lemma OneSpan(line: Line, m: real, a: real)
    requires line.MeasuredBy(m) && ProjectSpec(line, m, [a]).Success?
    ensures m > 0.0
    ensures ProjectSpec(line, m, [a]).value == [ProjectedSegment(Location(line, m, 0.0), Location(line, m, m))]
  {
    ProjectShape(line, m, [a]);
    assert [a][..0] == [];
  }

  /** Two 1800 mm spans on a 3600 mm horizontal line run 0..1800 and 1800..3600. */
  lemma HorizontalExample(line: Line, m: real)
    requires IsHorizontal3600(line) && line.MeasuredBy(m)
    ensures ProjectSpec(line, m, [1800.0, 1800.0])
         == Success([ProjectedSegment(Point(0.0, 0.0), Point(1800.0, 0.0)), ProjectedSegment(Point(1800.0, 0.0), Point(3600.0, 0.0))])
  {
    SquareRootUnique(m, 3600.0);
    SumPair(1800.0, 1800.0);
    TwoSpans(line, m, 1800.0, 1800.0);
    assert Location(line, m, 0.0) == Point(0.0, 0.0);
    assert Location(line, m, 1800.0) == Point(1800.0, 0.0);
    assert Location(line, m, m) == Point(3600.0, 0.0);
  }

  /** A 1799 mm span on an 1800 mm vertical line is stretched to end at y = 1800. */
  lemma StretchExample(line: Line, m: real)
    requires IsVertical1800(line) && line.MeasuredBy(m)
    ensures ProjectSpec(line, m, [1799.0]) == Success([ProjectedSegment(Point(600.0, 0.0), Point(600.0, 1800.0))])
  {
    SquareRootUnique(m, 1800.0);
    SumPair(1799.0, 0.0);
    OneSpan(line, m, 1799.0);
    LocationAtEnds(line, m);
  }

  /** On the diagonal from (0, 0) to (1800, 1800), half the length is (900, 900) and the whole
      length is the line's end. */
  lemma DiagonalLocations(line: Line, m: real)
    requires line.startX == 0.0 && line.startY == 0.0 && line.endX == 1800.0 && line.endY == 1800.0
    requires m > 0.0
    ensures Location(line, m, m / 2.0) == Point(900.0, 900.0)
    ensures Location(line, m, m) == Point(1800.0, 1800.0)
  {
    var direction := 1800.0 / m;
    assert direction * (m / 2.0) == 900.0;
    assert direction * m == 1800.0;
  }

  /** Two half-length spans on the diagonal from (0, 0) to (1800, 1800) meet at (900, 900). */
  lemma DiagonalExample(line: Line, m: real)
    requires line.startX == 0.0 && line.startY == 0.0 && line.endX == 1800.0 && line.endY == 1800.0
    requires line.MeasuredBy(m) && m > 0.0
    ensures ProjectSpec(line, m, [m / 2.0, m / 2.0]).Success? && |ProjectSpec(line, m, [m / 2.0, m / 2.0]).value| == 2
    ensures ProjectSpec(line, m, [m / 2.0, m / 2.0]).value[0].end == Point(900.0, 900.0)
    ensures ProjectSpec(line, m, [m / 2.0, m / 2.0]).value[1].end == Point(1800.0, 1800.0)
  {
    SumPair(m / 2.0, m / 2.0);
    TwoSpans(line, m, m / 2.0, m / 2.0);
    DiagonalLocations(line, m);
  }
}

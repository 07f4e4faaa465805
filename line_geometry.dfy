/** Orientation inference and resizing a line to a typed length (src/utils/lineGeometry.ts). */
module LineGeometry {
  import opened Wrappers
  import opened Numeric
  import opened Types
  import opened Validation
  import Snap

  const EPSILON: real := 0.000001

  /** Horizontal when the vertical extent is within `EPSILON` (tested first, so a point is
      horizontal), otherwise vertical when the horizontal extent is, otherwise diagonal. */
  function InferOrientation(line: Line): (r: Orientation)
    ensures r == Horizontal <==> Abs(line.Dy()) <= EPSILON
    ensures r == Vertical <==> Abs(line.Dy()) > EPSILON && Abs(line.Dx()) <= EPSILON
    ensures r == Diagonal <==> Abs(line.Dy()) > EPSILON && Abs(line.Dx()) > EPSILON
  {
    if Abs(line.Dy()) <= EPSILON then Horizontal
    else if Abs(line.Dx()) <= EPSILON then Vertical
    else Diagonal
  }

  /** The same segment drawn the other way round. */
  function Reversed(line: Line): Line {
    line.(startX := line.endX, startY := line.endY, endX := line.startX, endY := line.startY)
  }

  /** Orientation depends only on the segment, not on its drawing direction or position. */
  lemma InferOrientationInvariant(line: Line, tx: real, ty: real)
    ensures InferOrientation(Reversed(line)) == InferOrientation(line)
    ensures InferOrientation(line.(startX := line.startX + tx, startY := line.startY + ty,
                                   endX := line.endX + tx, endY := line.endY + ty))
            == InferOrientation(line)
  {
    var moved := line.(startX := line.startX + tx, startY := line.startY + ty,
                       endX := line.endX + tx, endY := line.endY + ty);
    assert moved.Dx() == line.Dx() && moved.Dy() == line.Dy();
  }

  /** The error `ensurePositiveLength` throws, if any. */
  function EnsurePositiveLength(lengthMm: Num): (r: Option<Thrown>)
    ensures r.None? <==> lengthMm.Finite? && lengthMm.value > 0.0
    ensures r.Some? ==> r.value == NonPositiveLength
  {
    if IsPositiveFinite(lengthMm) then None else Some(NonPositiveLength)
  }

  /** `ensureNonZeroDelta` throws when the two values are within `EPSILON` of each other. */
  function EnsureNonZeroDelta(valueA: real, valueB: real, error: Thrown): (r: Option<Thrown>)
    ensures r.Some? <==> -EPSILON <= valueA - valueB <= EPSILON
    ensures r.Some? ==> r.value == error
  {
    if Abs(valueA - valueB) <= EPSILON then Some(error) else None
  }

  /** The collapse test of the diagonal branch: the coordinate-sum comparison the source
      makes, or a test of the new length, which is what a collapse means. */
  datatype CollapseTest = CoordinateSum | SegmentLength

  /** The orientation the resize uses: the stored one, inferred only when absent. */
  function ResizeOrientation(line: Line): (r: Orientation)
    ensures line.orientation.Some? ==> r == line.orientation.value
    ensures line.orientation.None? ==> r == InferOrientation(line)
  {
    if line.orientation.Some? then line.orientation.value else InferOrientation(line)
  }

  /** What the resize validates: `String(Math.round(next))` read back as a number. */
  function RoundedLengthInput(next: real): LengthInput {
    TextInput(Finite(JsRound(next) as real))
  }

  /** The horizontal branch: the X midpoint and the drawing direction are kept, the line
      becomes `n` long, and both ends take the snapped Y midpoint. */
  function ResizeHorizontal(line: Line, n: real, snapSize: real): (r: Result<Line, Thrown>)
    requires n > EPSILON
    ensures r.Success?
    ensures r.value.startX + r.value.endX == line.startX + line.endX
    ensures r.value.endX - r.value.startX == (if line.Dx() >= 0.0 then n else -n)
    ensures r.value.startY == r.value.endY == Snap.SnapToGrid((line.startY + line.endY) / 2.0, snapSize)
    ensures r.value.length == JsRound(n) as real && r.value.orientation == Some(Horizontal)
    ensures r.value == line.(startX := r.value.startX, startY := r.value.startY, endX := r.value.endX,
                             endY := r.value.endY, length := r.value.length, orientation := r.value.orientation)
  {
    var midX := (line.startX + line.endX) / 2.0;
    var half := n / 2.0;
    var forward := DirectionOf(line.Dx()) >= 0;
    var startX := if forward then midX - half else midX + half;
    var endX := if forward then midX + half else midX - half;
    var y := Snap.SnapToGrid((line.startY + line.endY) / 2.0, snapSize);
    if EnsureNonZeroDelta(startX, endX, EndpointsCollapse).Some? then Failure(EndpointsCollapse)
    else
      Success(line.(startX := startX, startY := y, endX := endX, endY := y,
                    length := JsRound(Abs(endX - startX)) as real, orientation := Some(Horizontal)))
  }

  /** The vertical branch, mirroring the horizontal one with the axes exchanged. */
  function ResizeVertical(line: Line, n: real, snapSize: real): (r: Result<Line, Thrown>)
    requires n > EPSILON
    ensures r.Success?
    ensures r.value.startY + r.value.endY == line.startY + line.endY
    ensures r.value.endY - r.value.startY == (if line.Dy() >= 0.0 then n else -n)
    ensures r.value.startX == r.value.endX == Snap.SnapToGrid((line.startX + line.endX) / 2.0, snapSize)
    ensures r.value.length == JsRound(n) as real && r.value.orientation == Some(Vertical)
    ensures r.value == line.(startX := r.value.startX, startY := r.value.startY, endX := r.value.endX,
                             endY := r.value.endY, length := r.value.length, orientation := r.value.orientation)
  {
    var midY := (line.startY + line.endY) / 2.0;
    var half := n / 2.0;
    var forward := DirectionOf(line.Dy()) >= 0;
    var startY := if forward then midY - half else midY + half;
    var endY := if forward then midY + half else midY - half;
    var x := Snap.SnapToGrid((line.startX + line.endX) / 2.0, snapSize);
    if EnsureNonZeroDelta(startY, endY, EndpointsCollapse).Some? then Failure(EndpointsCollapse)
    else
      Success(line.(startX := x, startY := startY, endX := x, endY := endY,
                    length := JsRound(Abs(endY - startY)) as real, orientation := Some(Vertical)))
  }

  /** The diagonal endpoints: both ends moved along the current unit direction, `n/2` either
      side of the midpoint. */
  function DiagonalEnds(line: Line, n: real, m: real): (r: Line)
    requires m > 0.0
    ensures r.startX + r.endX == line.startX + line.endX && r.startY + r.endY == line.startY + line.endY
    ensures r.Dx() == (line.Dx() / m) * n && r.Dy() == (line.Dy() / m) * n
    ensures r == line.(startX := r.startX, startY := r.startY, endX := r.endX, endY := r.endY)
  {
    var midX := (line.startX + line.endX) / 2.0;
    var midY := (line.startY + line.endY) / 2.0;
    var half := n / 2.0;
    var unitX := line.Dx() / m;
    var unitY := line.Dy() / m;
    line.(startX := midX - unitX * half, startY := midY - unitY * half,
          endX := midX + unitX * half, endY := midY + unitY * half)
  }

  /** The diagonal branch: a zero-length line is refused; otherwise the ends are moved along
      the unit direction and the collapse test is applied. */
  function ResizeDiagonal(line: Line, n: real, m: real, test: CollapseTest): (r: Result<Line, Thrown>)
    requires m >= 0.0 && n > EPSILON
    ensures r == Failure(ZeroLengthLine) <==> m <= EPSILON
    ensures r.Failure? ==> r.error == ZeroLengthLine || r.error == DiagonalCollapse
    ensures r.Success? ==> r.value == DiagonalEnds(line, n, m).(length := JsRound(n) as real,
                                        orientation := Some(InferOrientation(DiagonalEnds(line, n, m))))
    ensures test == SegmentLength ==> (r.Success? <==> m > EPSILON)
    // the coordinate sums of the new ends differ by the new extent's `dx + dy`
    ensures test == CoordinateSum && m > EPSILON ==>
              (r == Failure(DiagonalCollapse) <==> Abs((line.Dx() + line.Dy()) * n / m) <= EPSILON)
  {
    if m <= EPSILON then Failure(ZeroLengthLine)
    else
      var resized := DiagonalEnds(line, n, m);
      assert (resized.endX + resized.endY) - (resized.startX + resized.startY) == (line.Dx() + line.Dy()) * n / m by {
        assert resized.Dx() + resized.Dy() == (line.Dx() / m) * n + (line.Dy() / m) * n;
        assert (line.Dx() / m) * n + (line.Dy() / m) * n == (line.Dx() + line.Dy()) * n / m;
      }
      var collapse :=
        match test
        case CoordinateSum =>
          EnsureNonZeroDelta(resized.startX + resized.startY, resized.endX + resized.endY, DiagonalCollapse)
        case SegmentLength =>
          if n <= EPSILON then Some(DiagonalCollapse) else None;
      if collapse.Some? then Failure(DiagonalCollapse)
      else Success(resized.(length := JsRound(n) as real, orientation := Some(InferOrientation(resized))))
  }

  /** A target length the resize accepts: positive and finite, and its rounded value passes
      the popup's validation. */
  predicate AcceptedTarget(next: Num, snapSize: real) {
    IsPositiveFinite(next) && ValidateLineLengthValue(RoundedLengthInput(next.value), snapSize).None?
  }

  /** `recalculateLineWithLength` with the diagonal collapse test as a parameter. The line's
      current length is `m`, the square root of its squared extent. */
  function Recalculate(line: Line, next: Num, snapSize: real, m: real, test: CollapseTest): (r: Result<Line, Thrown>)
    requires line.MeasuredBy(m)
    ensures r == Failure(NonPositiveLength) <==> !IsPositiveFinite(next)
    ensures IsPositiveFinite(next) && ValidateLineLengthValue(RoundedLengthInput(next.value), snapSize).Some? ==>
              r == Failure(InvalidLength(ValidateLineLengthValue(RoundedLengthInput(next.value), snapSize).value))
    ensures r.Success? ==> AcceptedTarget(next, snapSize)
    ensures r != Failure(EndpointsCollapse)
    ensures r == Failure(ZeroLengthLine) <==>
              AcceptedTarget(next, snapSize) && ResizeOrientation(line) == Diagonal && m <= EPSILON
    ensures r == Failure(DiagonalCollapse) ==> test == CoordinateSum
    // every other field is kept
    ensures r.Success? ==>
              r.value == line.(startX := r.value.startX, startY := r.value.startY, endX := r.value.endX,
                               endY := r.value.endY, length := r.value.length, orientation := r.value.orientation)
  {
    if EnsurePositiveLength(next).Some? then Failure(EnsurePositiveLength(next).value)
    else
      var n := next.value;
      var validationError := ValidateLineLengthValue(RoundedLengthInput(n), snapSize);
      if validationError.Some? then Failure(InvalidLength(validationError.value))
      else
        AcceptedLengthIsLarge(n, snapSize);
        match ResizeOrientation(line)
        case Horizontal => ResizeHorizontal(line, n, snapSize)
        case Vertical => ResizeVertical(line, n, snapSize)
        case Diagonal => ResizeDiagonal(line, n, m, test)
  }

  /** On a horizontal line an accepted target always succeeds: the X midpoint and the drawing
      direction are kept, the ends are `next` apart, and both take the snapped Y midpoint. */
  lemma {:induction false} RecalculateHorizontal(line: Line, next: Num, snapSize: real, m: real, test: CollapseTest)
    requires line.MeasuredBy(m) && AcceptedTarget(next, snapSize) && ResizeOrientation(line) == Horizontal
    ensures var r := Recalculate(line, next, snapSize, m, test);
            && r.Success?
            && r.value.startX + r.value.endX == line.startX + line.endX
            && r.value.endX - r.value.startX == (if line.Dx() >= 0.0 then next.value else -next.value)
            && r.value.startY == r.value.endY == Snap.SnapToGrid((line.startY + line.endY) / 2.0, snapSize)
            && r.value.length == JsRound(next.value) as real
            && r.value.orientation == Some(Horizontal)
  {
    AcceptedLengthIsLarge(next.value, snapSize);
    assert Recalculate(line, next, snapSize, m, test) == ResizeHorizontal(line, next.value, snapSize);
  }

  /** The vertical counterpart of `RecalculateHorizontal`. */
  lemma {:induction false} RecalculateVertical(line: Line, next: Num, snapSize: real, m: real, test: CollapseTest)
    requires line.MeasuredBy(m) && AcceptedTarget(next, snapSize) && ResizeOrientation(line) == Vertical
    ensures var r := Recalculate(line, next, snapSize, m, test);
            && r.Success?
            && r.value.startY + r.value.endY == line.startY + line.endY
            && r.value.endY - r.value.startY == (if line.Dy() >= 0.0 then next.value else -next.value)
            && r.value.startX == r.value.endX == Snap.SnapToGrid((line.startX + line.endX) / 2.0, snapSize)
            && r.value.length == JsRound(next.value) as real
            && r.value.orientation == Some(Vertical)
  {
    AcceptedLengthIsLarge(next.value, snapSize);
    assert Recalculate(line, next, snapSize, m, test) == ResizeVertical(line, next.value, snapSize);
  }

  /** On a diagonal line an accepted target goes to the diagonal resize. */
  lemma RecalculateDiagonal(line: Line, next: Num, snapSize: real, m: real, test: CollapseTest)
    requires line.MeasuredBy(m) && AcceptedTarget(next, snapSize) && ResizeOrientation(line) == Diagonal
    ensures next.value > EPSILON
    ensures Recalculate(line, next, snapSize, m, test) == ResizeDiagonal(line, next.value, m, test)
  {
    AcceptedLengthIsLarge(next.value, snapSize);
  }

  /** A diagonal resize that succeeds keeps the midpoint and moves the ends `n` times the unit
      direction apart; the length is rounded and the orientation inferred again from the new ends. */
  lemma DiagonalSuccess(line: Line, n: real, m: real, test: CollapseTest)
    requires m >= 0.0 && n > EPSILON && ResizeDiagonal(line, n, m, test).Success?
    ensures var r := ResizeDiagonal(line, n, m, test).value;
            && m > EPSILON
            && r.startX + r.endX == line.startX + line.endX
            && r.startY + r.endY == line.startY + line.endY
            && r.Dx() == (line.Dx() / m) * n
            && r.Dy() == (line.Dy() / m) * n
            && r.length == JsRound(n) as real
            && r.orientation == Some(InferOrientation(r))
  {
    var rd := ResizeDiagonal(line, n, m, test);
    assert m > EPSILON;
    var ends := DiagonalEnds(line, n, m);
    assert rd.value == ends.(length := JsRound(n) as real, orientation := Some(InferOrientation(ends)));
    assert rd.value.Dx() == ends.Dx() && rd.value.Dy() == ends.Dy();
    SameExtentSameOrientation(rd.value, ends);
  }

  /** Orientation depends only on the extent. */
  lemma SameExtentSameOrientation(a: Line, b: Line)
    requires a.Dx() == b.Dx() && a.Dy() == b.Dy()
    ensures InferOrientation(a) == InferOrientation(b)
  {
  }

  /** A length that passes validation is at least 150 mm, so its unrounded form exceeds 149. */
  lemma AcceptedLengthIsLarge(n: real, snapSize: real)
    requires ValidateLineLengthValue(RoundedLengthInput(n), snapSize).None?
    ensures n > 149.0
  {
    var k := JsRound(n);
    assert k > 0 && k % 150 == 0;
    assert k >= 150;
  }

  /** `recalculateLineWithLength` as the source writes it. */
  function RecalculateLineWithLength(line: Line, next: Num, snapSize: real, m: real): (r: Result<Line, Thrown>)
    requires line.MeasuredBy(m)
    ensures r == Recalculate(line, next, snapSize, m, CoordinateSum)
  {
    Recalculate(line, next, snapSize, m, CoordinateSum)
  }

  /** The resize with the diagonal collapse test on the new length. */
  function RecalculateLineWithLengthCorrected(line: Line, next: Num, snapSize: real, m: real): (r: Result<Line, Thrown>)
    requires line.MeasuredBy(m)
    ensures r == Recalculate(line, next, snapSize, m, SegmentLength)
  {
    Recalculate(line, next, snapSize, m, SegmentLength)
  }

  /** The horizontal test line: 0..1800 on the X axis, stored as horizontal. */
  predicate IsHorizontalBase(line: Line) {
    line.startX == 0.0 && line.startY == 0.0 && line.endX == 1800.0 && line.endY == 0.0
    && line.orientation == Some(Horizontal)
  }

  /** The vertical test line: 0..1800 at x = 600, stored as vertical. */
  predicate IsVerticalBase(line: Line) {
    line.startX == 600.0 && line.startY == 0.0 && line.endX == 600.0 && line.endY == 1800.0
    && line.orientation == Some(Vertical)
  }

  /** Resizing the horizontal line to 2400 mm at snap size 300 keeps its midpoint. */
  lemma HorizontalResizeExample(line: Line, m: real)
    requires IsHorizontalBase(line) && line.MeasuredBy(m)
    ensures RecalculateLineWithLength(line, Finite(2400.0), 300.0, m)
            == Success(line.(startX := -300.0, endX := 2100.0, length := 2400.0))
  {
    JsRoundUnique(2400.0, 2400);
    JsRoundUnique(0.0, 0);
    assert Snap.SnapToGrid(0.0, 300.0) == 0.0;
    RecalculateHorizontal(line, Finite(2400.0), 300.0, m, CoordinateSum);
  }

  /** Shortening the vertical line to 600 mm keeps it centred on y = 900. */
  lemma VerticalShortenExample(line: Line, m: real)
    requires IsVerticalBase(line) && line.MeasuredBy(m)
    ensures RecalculateLineWithLength(line, Finite(600.0), 300.0, m)
            == Success(line.(startY := 600.0, endY := 1200.0, length := 600.0))
  {
    JsRoundUnique(600.0, 600);
    JsRoundUnique(2.0, 2);
    assert Snap.SnapToGrid(600.0, 300.0) == 600.0;
    RecalculateVertical(line, Finite(600.0), 300.0, m, CoordinateSum);
  }

  /** 900 mm, a multiple of 150 but not of 300, is accepted at snap size 300. */
  lemma VerticalOddMultipleExample(line: Line, m: real)
    requires IsVerticalBase(line) && line.MeasuredBy(m)
    ensures RecalculateLineWithLength(line, Finite(900.0), 300.0, m)
            == Success(line.(startY := 450.0, endY := 1350.0, length := 900.0))
  {
    JsRoundUnique(900.0, 900);
    JsRoundUnique(2.0, 2);
    assert Snap.SnapToGrid(600.0, 300.0) == 600.0;
    RecalculateVertical(line, Finite(900.0), 300.0, m, CoordinateSum);
  }

  /** A zero target throws before anything else is looked at. */
  lemma ZeroTargetExample(line: Line, m: real)
    requires line.MeasuredBy(m)
    ensures RecalculateLineWithLength(line, Finite(0.0), 300.0, m) == Failure(NonPositiveLength)
  {
  }

  /** Along a line of slope -1 the sum x + y is constant, so the source's collapse test on
      coordinate sums refuses every such line, however long. */
  lemma {:induction false} AntiDiagonalRejected(line: Line, next: Num, snapSize: real, m: real)
    requires line.MeasuredBy(m) && m > EPSILON && line.Dy() == -line.Dx()
    requires ResizeOrientation(line) == Diagonal && AcceptedTarget(next, snapSize)
    ensures RecalculateLineWithLength(line, next, snapSize, m) == Failure(DiagonalCollapse)
  {
    AcceptedLengthIsLarge(next.value, snapSize);
    var ends := DiagonalEnds(line, next.value, m);
    assert line.Dy() / m == -(line.Dx() / m);
    assert ends.Dx() + ends.Dy() == 0.0;
    assert Recalculate(line, next, snapSize, m, CoordinateSum) == ResizeDiagonal(line, next.value, m, CoordinateSum);
  }

  /** An 1800 mm by 1800 mm diagonal drawn from the origin down to the right, with no stored
      orientation. */
  predicate IsAntiDiagonal(line: Line) {
    line.startX == 0.0 && line.startY == 0.0 && line.endX == 1800.0 && line.endY == -1800.0
    && line.orientation.None?
  }

  /** Its length is greater than the zero-length threshold. */
  lemma AntiDiagonalIsLong(line: Line, m: real)
    requires IsAntiDiagonal(line) && line.MeasuredBy(m)
    ensures m > EPSILON && ResizeOrientation(line) == Diagonal
  {
    assert line.Dx() == 1800.0 && line.Dy() == -1800.0;
    assert m * m == 6480000.0;
    if 0.0 < m <= 1.0 {
      MulWeak(m, 1.0, m);
    }
  }

  /** Asking for 1200 mm on that diagonal throws "collapsed" although nothing collapses. */
  lemma AntiDiagonalExample(line: Line, m: real)
    requires IsAntiDiagonal(line) && line.MeasuredBy(m)
    ensures RecalculateLineWithLength(line, Finite(1200.0), 300.0, m) == Failure(DiagonalCollapse)
  {
    AntiDiagonalIsLong(line, m);
    JsRoundUnique(1200.0, 1200);
    AntiDiagonalRejected(line, Finite(1200.0), 300.0, m);
  }

  /** With the collapse test on the new length, every accepted target on a diagonal line of
      non-zero length succeeds, keeping the midpoint and the direction. */
  lemma {:induction false} CorrectedDiagonalSucceeds(line: Line, next: Num, snapSize: real, m: real)
    requires line.MeasuredBy(m) && m > EPSILON
    requires ResizeOrientation(line) == Diagonal && AcceptedTarget(next, snapSize)
    ensures var r := RecalculateLineWithLengthCorrected(line, next, snapSize, m);
            && r.Success?
            && r.value.startX + r.value.endX == line.startX + line.endX
            && r.value.startY + r.value.endY == line.startY + line.endY
            && r.value.Dx() == (line.Dx() / m) * next.value
            && r.value.Dy() == (line.Dy() / m) * next.value
  {
    RecalculateDiagonal(line, next, snapSize, m, SegmentLength);
    DiagonalSuccess(line, next.value, m, SegmentLength);
  }

  /** The corrected resize of the same diagonal succeeds and stays centred on (900, -900). */
  lemma CorrectedAntiDiagonalExample(line: Line, m: real)
    requires IsAntiDiagonal(line) && line.MeasuredBy(m)
    ensures var r := RecalculateLineWithLengthCorrected(line, Finite(1200.0), 300.0, m);
            r.Success? && r.value.startX + r.value.endX == 1800.0 && r.value.startY + r.value.endY == -1800.0
            && r.value.length == 1200.0
  {
    AntiDiagonalIsLong(line, m);
    JsRoundUnique(1200.0, 1200);
    CorrectedDiagonalSucceeds(line, Finite(1200.0), 300.0, m);
    RecalculateDiagonal(line, Finite(1200.0), 300.0, m, SegmentLength);
    DiagonalSuccess(line, 1200.0, m, SegmentLength);
  }
}

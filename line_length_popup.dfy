/** The line-length popup's band-side picker: which side is shown as current, which buttons are
    offered, and what a click on one of them asks for. */
module LineLengthPopup {
  import opened Wrappers
  import opened Numeric
  import opened Types
  import InnerBand
  import BandOffset
  import BandGeneration

  /** `EPSILON` of the popup: below it a coordinate difference counts as none. */
  const EPSILON: real := 0.000001

  predicate IsHorizontal(line: Line) {
    Abs(line.Dy()) < EPSILON
  }

  predicate IsVertical(line: Line) {
    Abs(line.Dx()) < EPSILON
  }

  /** The stored polarity, `1` when none is stored. */
  function PopupPolarity(line: Line): (r: Polarity)
    ensures var s := BandGeneration.Settings(line);
            r == (if s.Some? && s.value.polarity.Some? then s.value.polarity.value else 1)
  {
    var s := BandGeneration.Settings(line);
    if s.Some? && s.value.polarity.Some? then s.value.polarity.value else 1
  }

  /** The stored orientation, if any. */
  function StoredOrientation(line: Line): Option<BandChoice> {
    var s := BandGeneration.Settings(line);
    if s.Some? then s.value.orientation else None
  }

  /** `currentOrientation` for a given base normal: the stored orientation, else a screen side for
      a line along an axis, read off the normal turned by the polarity, else the normal's side. */
  function DeriveOrientation(line: Line, normal: Point): BandChoice {
    var p := PopupPolarity(line) as real;
    if StoredOrientation(line).Some? then StoredOrientation(line).value
    else if IsHorizontal(line) then (if normal.y * p <= 0.0 then Up else Down)
    else if IsVertical(line) then (if normal.x * p >= 0.0 then Right else Left)
    else if PopupPolarity(line) == 1 then Standard
    else Reverse
  }

  /** `currentOrientation`, with `m` the line's Euclidean length: the popup makes the base normal
      first, which throws for a line shorter than `NEAR_ZERO` on both axes. */
  function CurrentOrientation(line: Line, m: real): (r: Result<BandChoice, Thrown>)
    requires line.MeasuredBy(m)
    ensures r.Failure? <==> InnerBand.ComputeInwardNormal(line, m).Failure?
    ensures r.Failure? ==> r.error == ZeroLengthNormal
    ensures r.Success? && StoredOrientation(line).Some? ==> r.value == StoredOrientation(line).value
  {
    InnerBand.NormalCases(line, m);
    match InnerBand.ComputeInwardNormal(line, m)
    case Failure(e) => Failure(e)
    case Success(normal) => Success(DeriveOrientation(line, normal))
  }

  /** `orientationButtons`: two screen sides along an axis, the two normal sides otherwise. */
  function OrientationButtons(line: Line): (r: seq<BandChoice>)
    ensures |r| == 2 && r[0] != r[1]
    ensures IsHorizontal(line) ==> r == [Up, Down]
    ensures !IsHorizontal(line) && IsVertical(line) ==> r == [Right, Left]
    ensures !IsHorizontal(line) && !IsVertical(line) ==> r == [Standard, Reverse]
  {
    if IsHorizontal(line) then [Up, Down]
    else if IsVertical(line) then [Right, Left]
    else [Standard, Reverse]
  }

  /** A click on a button: `None` when it is already the current orientation, else the
      orientation change it asks for. */
  function ClickOrientation(current: BandChoice, option: BandChoice): (r: Option<BandChoice>)
    ensures r.None? <==> option == current
    ensures r.Some? ==> r.value == option
  {
    if option == current then None else Some(option)
  }

  /** With no stored orientation, the current orientation is one of the buttons, so exactly one
      button is active and a click on the other asks for it. */
  lemma DerivedAmongButtons(line: Line, m: real)
    requires line.MeasuredBy(m)
    requires StoredOrientation(line).None?
    requires CurrentOrientation(line, m).Success?
    ensures var current := CurrentOrientation(line, m).value;
            var buttons := OrientationButtons(line);
            && current in buttons
            && (forall i :: 0 <= i < |buttons| ==> (ClickOrientation(current, buttons[i]).None? <==> buttons[i] == current))
  {
  }

  /** With no stored orientation, the current orientation names the side the band generation puts
      the band on: its orientation vector is the offset made from the same normal, width and
      stored polarity. */
  lemma CurrentIsBandSide(line: Line, m: real, width: real)
    requires line.MeasuredBy(m)
    requires StoredOrientation(line).None?
    requires CurrentOrientation(line, m).Success?
    ensures var normal := InnerBand.ComputeInwardNormal(line, m).value;
            BandOffset.OrientationVector(CurrentOrientation(line, m).value, normal, width)
            == BandOffset.RawOffset(normal, width, BandGeneration.Settings(line))
  {
    InnerBand.NormalCases(line, m);
    var normal := InnerBand.ComputeInwardNormal(line, m).value;
    var p := PopupPolarity(line) as real;
    var raw := BandOffset.RawOffset(normal, width, BandGeneration.Settings(line));
    assert raw == Point(normal.x * width * p, normal.y * width * p);
    if IsHorizontal(line) {
      assert normal.x == 0.0 && (normal.y == 1.0 || normal.y == -1.0);
    } else if IsVertical(line) {
      assert normal.y == 0.0 && (normal.x == 1.0 || normal.x == -1.0);
    }
  }

  /** A generation that remembers `Reverse` for a horizontal line (stored polarity `-1`, no stored
      orientation) leaves the popup with a current orientation that is not one of its buttons. */
  lemma ReverseOnHorizontalNotAButton(line: Line, m: real)
    requires line.MeasuredBy(m)
    requires IsHorizontal(line) && !InnerBand.IsNearlyZero(line.Dx())
    requires StoredOrientation(line) == Some(Reverse)
    ensures CurrentOrientation(line, m) == Success(Reverse)
    ensures Reverse !in OrientationButtons(line)
  {
    InnerBand.NormalCases(line, m);
  }

  /** A horizontal line drawn left to right with no stored settings shows `Up`; drawn right to
      left it shows `Down`: the band sits on the side of the normal. */
  lemma HorizontalExample(line: Line, m: real)
    requires line.MeasuredBy(m)
    requires line.startY == line.endY && line.endX - line.startX >= 1.0
    requires BandGeneration.Settings(line).None?
    ensures CurrentOrientation(line, m) == Success(Up)
    ensures CurrentOrientation(line.(startX := line.endX, endX := line.startX), m) == Success(Down)
  {
    var back := line.(startX := line.endX, endX := line.startX);
    assert back.MeasuredBy(m) by {
      assert back.Dx() == -line.Dx() && back.Dy() == line.Dy();
    }
    InnerBand.NormalCases(line, m);
    InnerBand.NormalCases(back, m);
  }
}

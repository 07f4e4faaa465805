/** The side of a line its inner band goes to (`computeAbsoluteOffset`): an offset vector as long as
    the band is wide, the polarity of that side against the line's normal, and the orientation to
    remember for it. */
module BandOffset {
  import opened Wrappers
  import opened Numeric
  import opened Types
  import InnerBand

  /** What `computeAbsoluteOffset` hands back. */
  datatype AbsoluteOffset = AbsoluteOffset(offset: Point, polarity: Polarity, orientation: Option<BandChoice>)

  function Scaled(v: Point, factor: real): Point {
    Point(v.x * factor, v.y * factor)
  }

  function Dot(a: Point, b: Point): real {
    a.x * b.x + a.y * b.y
  }

  /** The offset for an explicit orientation: a fixed screen direction, or the normal itself or
      turned round. */
  function OrientationVector(choice: BandChoice, normal: Point, width: real): (r: Point)
    ensures choice == Up ==> r == Point(0.0, -width)
    ensures choice == Down ==> r == Point(0.0, width)
    ensures choice == Left ==> r == Point(-width, 0.0)
    ensures choice == Right ==> r == Point(width, 0.0)
    ensures choice == Standard ==> r == Scaled(normal, width)
    ensures choice == Reverse ==> r == Scaled(normal, -width)
  {
    match choice
    case Up => Point(0.0, -width)
    case Down => Point(0.0, width)
    case Left => Point(-width, 0.0)
    case Right => Point(width, 0.0)
    case Reverse => Point(-normal.x * width, -normal.y * width)
    case Standard => Point(normal.x * width, normal.y * width)
  }

  /** The offset before normalisation: the stored orientation wins over the stored polarity, and
      with neither the band goes along the normal. */
  function RawOffset(normal: Point, width: real, settings: Option<BandSettings>): Point {
    if settings.Some? && settings.value.orientation.Some? then
      OrientationVector(settings.value.orientation.value, normal, width)
    else if settings.Some? && settings.value.polarity.Some? then
      var p := settings.value.polarity.value as real;
      Point(normal.x * width * p, normal.y * width * p)
    else
      Point(normal.x * width, normal.y * width)
  }

  /** The side of the offset against the normal. */
  function SideOf(normal: Point, offset: Point): (r: Polarity)
    ensures r == 1 <==> Dot(normal, offset) >= 0.0
  {
    if Dot(normal, offset) >= 0.0 then 1 else -1
  }

  /** The offset, side and orientation for a unit normal. The code rescales the raw offset to
      `width` by its `Math.hypot`; `RescaleIsIdentity` shows that this gives the raw offset back,
      so the raw offset is what is handed back. */
  function OffsetFor(normal: Point, width: BlockWidth, settings: Option<BandSettings>): AbsoluteOffset {
    var offset := RawOffset(normal, width, settings);
    var polarity := SideOf(normal, offset);
    var stored := if settings.Some? then settings.value.orientation else None;
    var orientation := if stored.None? && polarity == -1 then Some(Reverse) else stored;
    AbsoluteOffset(offset, polarity, orientation)
  }

  /** `computeAbsoluteOffset`, with `m` the line's Euclidean length: it throws exactly when the
      line has no normal. */
  function ComputeAbsoluteOffset(line: Line, m: real, width: BlockWidth, settings: Option<BandSettings>): (r: Result<AbsoluteOffset, Thrown>)
    requires line.MeasuredBy(m)
    ensures r.Failure? <==> InnerBand.ComputeInwardNormal(line, m).Failure?
    ensures r.Failure? ==> r.error == InnerBand.ComputeInwardNormal(line, m).error
    ensures r.Success? ==> r.value == OffsetFor(InnerBand.ComputeInwardNormal(line, m).value, width, settings)
  {
    match InnerBand.ComputeInwardNormal(line, m)
    case Failure(e) => Failure(e)
    case Success(normal) => Success(OffsetFor(normal, width, settings))
  }

  /** Whatever the settings, the raw offset, which is the offset handed back, is exactly `width`
      long. */
  lemma RawOffsetLength(normal: Point, width: real, settings: Option<BandSettings>)
    requires InnerBand.IsUnit(normal)
    ensures var o := RawOffset(normal, width, settings); o.x * o.x + o.y * o.y == width * width
  {
    var o := RawOffset(normal, width, settings);
    var s := if settings.Some? && settings.value.orientation.Some? then
               (match settings.value.orientation.value
                case Standard => 1.0
                case Reverse => -1.0
                case _ => 0.0)
             else if settings.Some? && settings.value.polarity.Some? then settings.value.polarity.value as real
             else 1.0;
    if s != 0.0 {
      assert o == Point(normal.x * (width * s), normal.y * (width * s));
      assert s * s == 1.0;
      assert o.x * o.x + o.y * o.y == (normal.x * normal.x + normal.y * normal.y) * ((width * width) * (s * s));
    }
  }

  /** `Math.hypot` of the raw offset is the band width: the only non-negative root of its square. */
  lemma OffsetHypot(normal: Point, width: BlockWidth, settings: Option<BandSettings>, magnitude: real)
    requires InnerBand.IsUnit(normal)
    requires InnerBand.IsMagnitude(RawOffset(normal, width, settings), magnitude)
    ensures magnitude == width as real
  {
    RawOffsetLength(normal, width, settings);
    SquareRootUnique(magnitude, width as real);
  }

  /** `(offset / magnitude) * width` with the magnitude `Math.hypot` of the raw offset (never
      zero, so `|| 1` never applies) is the raw offset itself. */
  lemma RescaleIsIdentity(normal: Point, width: BlockWidth, settings: Option<BandSettings>, magnitude: real)
    requires InnerBand.IsUnit(normal)
    requires InnerBand.IsMagnitude(RawOffset(normal, width, settings), magnitude)
    ensures magnitude != 0.0
    ensures var o := RawOffset(normal, width, settings);
            Point(o.x / magnitude * width as real, o.y / magnitude * width as real) == o
  {
    OffsetHypot(normal, width, settings, magnitude);
  }

  /** A stored orientation decides the offset and is handed back unchanged. */
  lemma OrientationWins(normal: Point, width: BlockWidth, polarity: Option<Polarity>, choice: BandChoice)
    ensures var r := OffsetFor(normal, width, Some(BandSettings(polarity, Some(choice))));
            && r.offset == OrientationVector(choice, normal, width)
            && r.orientation == Some(choice)
  {
  }

  /** The dot product of a unit normal with itself scaled by `k` is `k`. */
  lemma DotScaled(normal: Point, k: real)
    requires InnerBand.IsUnit(normal)
    ensures Dot(normal, Scaled(normal, k)) == k
  {
    assert Dot(normal, Scaled(normal, k)) == (normal.x * normal.x + normal.y * normal.y) * k;
  }

  /** Without a stored orientation a stored polarity is kept: the offset is the normal times the
      width on that side, and the side `-1` is remembered as `Reverse`. */
  lemma PolarityKept(normal: Point, width: BlockWidth, polarity: Polarity)
    requires InnerBand.IsUnit(normal)
    ensures var r := OffsetFor(normal, width, Some(BandSettings(Some(polarity), None)));
            && r.offset == Scaled(normal, width as real * polarity as real)
            && r.polarity == polarity
            && r.orientation == (if polarity == -1 then Some(Reverse) else None)
  {
    var settings := Some(BandSettings(Some(polarity), None));
    var k := width as real * polarity as real;
    assert RawOffset(normal, width, settings) == Scaled(normal, k);
    DotScaled(normal, k);
  }

  /** With no settings, or settings that store neither side nor orientation, the band goes along
      the normal, with polarity 1 and no orientation. */
  lemma DefaultAlongNormal(normal: Point, width: BlockWidth, settings: Option<BandSettings>)
    requires InnerBand.IsUnit(normal)
    requires settings.None? || (settings.value.polarity.None? && settings.value.orientation.None?)
    ensures var r := OffsetFor(normal, width, settings);
            && r.offset == Scaled(normal, width as real)
            && r.polarity == 1
            && r.orientation.None?
  {
    DotScaled(normal, width as real);
  }

  /** The polarity handed back is the side of the offset against the normal, and a remembered
      `Standard` or `Reverse` agrees with it. */
  lemma PolarityIsSide(normal: Point, width: BlockWidth, settings: Option<BandSettings>)
    requires InnerBand.IsUnit(normal)
    ensures var r := OffsetFor(normal, width, settings);
            && (r.polarity == 1 <==> Dot(normal, r.offset) >= 0.0)
            && (r.orientation == Some(Standard) ==> r.polarity == 1)
            && (r.orientation == Some(Reverse) ==> r.polarity == -1)
  {
    DotScaled(normal, width as real);
    DotScaled(normal, -(width as real));
  }

  /** Without a stored orientation, the offset is the one the band geometry would pick by itself
      from the normal and the polarity handed back. */
  lemma AgreesWithBandGeometry(normal: Point, width: BlockWidth, settings: Option<BandSettings>)
    requires InnerBand.IsUnit(normal)
    requires settings.None? || settings.value.orientation.None?
    ensures var r := OffsetFor(normal, width, settings);
            r.offset == InnerBand.OffsetVectorFor(normal, width, r.polarity, None)
  {
    var w := width as real;
    if settings.Some? && settings.value.polarity.Some? {
      var p := settings.value.polarity.value;
      assert settings == Some(BandSettings(Some(p), None));
      PolarityKept(normal, width, p);
      assert normal.x * (w * p as real) == normal.x * w * p as real;
      assert normal.y * (w * p as real) == normal.y * w * p as real;
    } else {
      DefaultAlongNormal(normal, width, settings);
      assert normal.x * w * 1.0 == normal.x * w && normal.y * w * 1.0 == normal.y * w;
    }
  }

  /** A left-to-right horizontal line has the normal `(0, -1)`, so `Down` puts the band on the
      side against the normal and is handed back with polarity `-1`. */
  lemma DownOnHorizontalExample(line: Line, m: real)
    requires line.startX == 0.0 && line.startY == 0.0 && line.endX == 1800.0 && line.endY == 0.0
    requires line.MeasuredBy(m)
    ensures var r := ComputeAbsoluteOffset(line, m, 600.0, Some(BandSettings(None, Some(Down))));
            && r.Success?
            && r.value.offset == Point(0.0, 600.0)
            && r.value.polarity == -1
            && r.value.orientation == Some(Down)
  {
    InnerBand.NormalCases(line, m);
  }
}

/** The entities the allocation engine reads and produces: lines, spans, markers, blocks and the
    stored inner-band record. Every one of them is an immutable value in the source. */
module Types {
  import opened Wrappers

  datatype Point = Point(x: real, y: real) {
    function Plus(v: Point): Point { Point(x + v.x, y + v.y) }
  }

  datatype Orientation = Horizontal | Vertical | Diagonal

  datatype LineColor = Black | Red | Blue | Green

  datatype LineStyle = Solid | Dashed

  datatype BlockType = SpanBlock | Stair | BeamFrame | NoteBlock

  /** A named side for the inner band. */
  datatype BandChoice = Up | Down | Left | Right | Standard | Reverse

  type Polarity = p: int | p == 1 || p == -1 witness 1

  /** The block widths the editor offers, in millimetres. */
  type BlockWidth = w: real | w == 600.0 || w == 355.0 witness 600.0

  /** The side settings a line remembers between regenerations. */
  datatype BandSettings = BandSettings(polarity: Option<Polarity>, orientation: Option<BandChoice>)

  datatype Span = Span(id: string, lineId: string, index: nat, length: real, start: Point, end: Point)

  datatype MarkerRole = Boundary | Corner

  /** A marker; an absent `generated` flag reads as false. */
  datatype Marker = Marker(
    id: string,
    blockId: Option<string>,
    x: real,
    y: real,
    note: Option<string>,
    lineId: Option<string>,
    color: Option<LineColor>,
    generated: bool,
    role: Option<MarkerRole>)

  /** A block of the block list; an absent `locked` or `autoInnerBand` flag reads as false. */
  datatype Block = Block(
    id: string,
    length: real,
    kind: BlockType,
    x: real,
    y: real,
    sourceLineId: Option<string>,
    locked: bool,
    autoInnerBand: bool,
    innerBandId: Option<string>)

  datatype SpanPolygon = SpanPolygon(spanId: string, points: seq<Point>)

  /** The inner band stored on a line after generation. */
  datatype InnerBand = InnerBand(
    id: string,
    auto: bool,
    width: real,
    outer: seq<Point>,
    inner: seq<Point>,
    outline: seq<Point>,
    spanPolygons: seq<SpanPolygon>,
    summary: string,
    polarity: Polarity,
    orientation: Option<BandChoice>)

  datatype Metadata = Metadata(
    blockId: Option<string>,
    spans: Option<seq<Span>>,
    spanChecksum: Option<string>,
    innerBandSettings: Option<BandSettings>,
    innerBand: Option<InnerBand>)

  /** A drawn scaffold line, coordinates in millimetres. */
  datatype Line = Line(
    id: string,
    startX: real,
    startY: real,
    endX: real,
    endY: real,
    length: real,
    orientation: Option<Orientation>,
    color: LineColor,
    style: LineStyle,
    blockWidth: Option<BlockWidth>,
    metadata: Option<Metadata>)
  {
    function Dx(): real { endX - startX }

    function Dy(): real { endY - startY }

    function Start(): Point { Point(startX, startY) }

    function End(): Point { Point(endX, endY) }

    /** `m` is the Euclidean length of the line, the value `Math.sqrt`/`Math.hypot` return. */
    predicate MeasuredBy(m: real) {
      m >= 0.0 && m * m == Dx() * Dx() + Dy() * Dy()
    }
  }

  /** The messages `validateLineLengthValue` returns, as codes. */
  datatype ValidationError =
    | EnterDimension
    | EnterNumber
    | EnterPositive
    | EnterInteger
    | BelowMinimum(minimum: real)
    | NotMultipleOfUnit(unit: int)

  /** The errors the core throws, as codes. */
  datatype Thrown =
    | NoSegments
    | NonPositiveLineLength
    | SegmentsMismatch
    | ZeroLengthNormal
    | ZeroLengthVector
    | NonPositiveBandWidth
    | NonPositiveLength
    | InvalidLength(reason: ValidationError)
    | EndpointsCollapse
    | ZeroLengthLine
    | DiagonalCollapse
}

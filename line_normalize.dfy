/** Default colour and style for lines stored before those fields existed
    (src/utils/lineNormalize.ts). */
module LineNormalize {
  import opened Wrappers
  import opened Types

  const DEFAULT_LINE_COLOR: LineColor := Black
  const DEFAULT_LINE_STYLE: LineStyle := Solid

  /** A line as older saves hold it: colour and style may be missing. */
  datatype LegacyLine = LegacyLine(
    id: string,
    startX: real,
    startY: real,
    endX: real,
    endY: real,
    length: real,
    orientation: Option<Orientation>,
    color: Option<LineColor>,
    style: Option<LineStyle>,
    blockWidth: Option<BlockWidth>,
    metadata: Option<Metadata>)

  function NormalizeScaffoldLine(line: LegacyLine): (r: Line)
    ensures r.color == (if line.color.Some? then line.color.value else DEFAULT_LINE_COLOR)
    ensures r.style == (if line.style.Some? then line.style.value else DEFAULT_LINE_STYLE)
    ensures r.id == line.id && r.length == line.length && r.orientation == line.orientation
    ensures r.startX == line.startX && r.startY == line.startY && r.endX == line.endX && r.endY == line.endY
    ensures r.blockWidth == line.blockWidth && r.metadata == line.metadata
  {
    Line(
      line.id, line.startX, line.startY, line.endX, line.endY, line.length, line.orientation,
      if line.color.Some? then line.color.value else DEFAULT_LINE_COLOR,
      if line.style.Some? then line.style.value else DEFAULT_LINE_STYLE,
      line.blockWidth, line.metadata)
  }

  /** The legacy form of a complete line: every field present. */
  function AsLegacy(line: Line): LegacyLine {
    LegacyLine(
      line.id, line.startX, line.startY, line.endX, line.endY, line.length, line.orientation,
      Some(line.color), Some(line.style), line.blockWidth, line.metadata)
  }

  /** Normalizing a line that already has colour and style returns it unchanged. */
  lemma NormalizeKeepsCompleteLine(line: Line)
    ensures NormalizeScaffoldLine(AsLegacy(line)) == line
  {
  }

  /** Normalizing is idempotent. */
  lemma NormalizeIdempotent(line: LegacyLine)
    ensures NormalizeScaffoldLine(AsLegacy(NormalizeScaffoldLine(line))) == NormalizeScaffoldLine(line)
  {
  }

  /** A legacy line with neither field gets black and solid. */
  lemma NormalizeDefaults(line: LegacyLine)
    requires line.color.None? && line.style.None?
    ensures NormalizeScaffoldLine(line).color == Black && NormalizeScaffoldLine(line).style == Solid
  {
  }
}

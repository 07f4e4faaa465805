/** Block-width classes and the minimum line length each needs (src/utils/lineWidth.ts). */
module LineWidth {
  import opened Types
  import opened Numeric
  import SpanPlanner

  const SUPPORTED_BLOCK_WIDTHS: seq<BlockWidth> := [600.0, 355.0]

  const DEFAULT_BLOCK_WIDTH: BlockWidth := SUPPORTED_BLOCK_WIDTHS[0]

  /** The smallest span the planner can place, in millimetres. */
  const MINIMUM_SPAN_LENGTH: real := 150.0

  predicate IsSupportedBlockWidth(value: real) {
    value in SUPPORTED_BLOCK_WIDTHS
  }

  /** The supported width itself, otherwise the narrowest width for values up to it and the
      default width above it. */
  function ClampSupportedWidth(value: real): (r: BlockWidth)
    ensures IsSupportedBlockWidth(r)
    ensures IsSupportedBlockWidth(value) ==> r == value
    ensures !IsSupportedBlockWidth(value) && value <= 355.0 ==> r == 355.0
    ensures !IsSupportedBlockWidth(value) && value > 355.0 ==> r == DEFAULT_BLOCK_WIDTH
  {
    if IsSupportedBlockWidth(value) then value
    else if value <= SUPPORTED_BLOCK_WIDTHS[|SUPPORTED_BLOCK_WIDTHS| - 1] then SUPPORTED_BLOCK_WIDTHS[|SUPPORTED_BLOCK_WIDTHS| - 1]
    else DEFAULT_BLOCK_WIDTH
  }

  /** The supported widths are exactly 600 and 355 mm, and 600 is the default. */
  lemma SupportedWidths()
    ensures forall v: real :: IsSupportedBlockWidth(v) <==> v == 600.0 || v == 355.0
    ensures DEFAULT_BLOCK_WIDTH == 600.0
  {
  }

  lemma ClampIdempotent(value: real)
    ensures ClampSupportedWidth(ClampSupportedWidth(value)) == ClampSupportedWidth(value)
  {
  }

  /** The width plus the planner's smallest span. */
  function GetMinimumLengthForWidth(width: BlockWidth): (r: real)
    ensures r == width + MINIMUM_SPAN_LENGTH
    ensures r > width
  {
    width + MINIMUM_SPAN_LENGTH
  }

  /** `MINIMUM_SPAN_LENGTH` is the planner's floor: it is the last fallback unit, no plan exists
      for a shorter length, and every span of a plan is at least that long. */
  lemma MinimumSpanIsPlannerFloor(length: real)
    ensures MINIMUM_SPAN_LENGTH == SpanPlanner.FALLBACK_SPANS[|SpanPlanner.FALLBACK_SPANS| - 1]
    ensures length < MINIMUM_SPAN_LENGTH ==> SpanPlanner.PlanSpec(Finite(length)) == SpanPlanner.InsufficientLength
    ensures var plan := SpanPlanner.PlanSpec(Finite(length));
            plan.Planned? ==> forall j :: 0 <= j < |plan.segments| ==> plan.segments[j] >= MINIMUM_SPAN_LENGTH
  {
    SpanPlanner.FallbackSpansDescending();
    SpanPlanner.PlanSpansFailure(Finite(length));
    var plan := SpanPlanner.PlanSpec(Finite(length));
    if plan.Planned? {
      SpanPlanner.PlanSpansShape(Finite(length));
      forall j | 0 <= j < |plan.segments|
        ensures plan.segments[j] >= MINIMUM_SPAN_LENGTH
      {
        assert SpanPlanner.IsSpanLength(plan.segments[j]);
      }
    }
  }

  /** A width may be applied when the line's stored length reaches the width plus 150 mm. */
  predicate CanApplyWidthToLine(line: Line, width: BlockWidth) {
    line.length >= GetMinimumLengthForWidth(width)
  }

  lemma CanApplyWidthExactly(line: Line, width: BlockWidth)
    ensures CanApplyWidthToLine(line, width) <==> line.length >= width + 150.0
  {
  }

  /** A line long enough for the wide class is long enough for the narrow one. */
  lemma WideImpliesNarrow(line: Line)
    ensures CanApplyWidthToLine(line, 600.0) ==> CanApplyWidthToLine(line, 355.0)
  {
  }
}

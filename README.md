# scaff-draw core in Dafny

scaff-draw is a drawing editor for scaffolding plans. The user draws scaffold lines. For every
line the editor plans its spans, lays them along the line and derives the span records. It also
derives boundary and corner markers, locked span blocks and an "inner band". The inner band is a
strip as wide as the line's blocks, offset to one side of the line. This project models the
logic behind that:

- the span planner, planning and summarising (`src/utils/spanPlanner.ts`);
- the projection of spans onto a line (`src/utils/lineProjection.ts`);
- the inward normal and the band geometry (`src/utils/innerBand.ts`);
- the allocation that ties planning and projection together (`src/utils/lineAllocation.ts`);
- orientation inference and resizing a line to a typed length (`src/utils/lineGeometry.ts`);
- grid snapping, length validation, block widths and legacy-line defaults (`src/utils/snap.ts`,
  `validation.ts`, `lineWidth.ts`, `lineNormalize.ts`);
- the pure logic inside `src/App.tsx`: choosing the band's side (`computeAbsoluteOffset`),
  sanitising metadata, deduplicating markers, generating a band for a line, the block list's
  repack, delete, split and move updaters, and `applyInnerBandUpdate`;
- the band-side picker of `src/components/LineLengthPopup.tsx`.

Each source file becomes one module. `types.dfy` holds the records of `src/types.ts` as
datatypes. `wrappers.dfy`, `numeric.dfy` and `seqs.dfy` hold the option and result types,
JavaScript number operations and generic sequence facts.

Modelling conventions:

- Numbers are exact reals. `Math.round` is `Numeric.JsRound`, the floor of `x + 0.5`.
  `Math.round(x * 1000) / 1000` is `Numeric.Round3`. `NaN` and the infinities appear only where
  the code tests for them: `planSpans`, `ensurePositiveLength` and the parsed validation input.
- `Math.sqrt` and `Math.hypot` are not computed. A line's Euclidean length is a parameter `m`
  with `Line.MeasuredBy(m)`: `m >= 0` and `m * m` equal to the squared extent. The other
  magnitudes the code takes are shown to be `1`, the band width or `m` again.
- Exceptions are `Failure` values of a `Result` over a `Thrown` code. Messages are codes.
- The text JavaScript gives a non-integer number is a parameter `fracText`. Whole numbers print
  as their decimal digits (`Numeric.NatToString`).
- Each loop of the source is a method with invariants. Each method is proved equal to a
  function, and the lemmas are stated about that function.
- React state updaters are functions from the old list to the new one.

`src/utils/innerBand.ts:35-37` gives `(1, 0)` for a vertical line drawn upwards (`dy < 0`); so do
`InnerBand.NormalCases` and the model.

One consequence worth knowing is proved, not flagged as a bug. Suppose a generation stores
polarity `-1` without an orientation. Then `computeAbsoluteOffset` remembers `Reverse`. On a
horizontal or vertical line, the popup then shows `Reverse` as current, and `Reverse` is not
one of its two buttons (`LineLengthPopup.ReverseOnHorizontalNotAButton`).

## Model

| member | source | states |
|---|---|---|
| Numeric.JsRound | src/utils/snap.ts:8 | `Math.round`: the integer in the half-open window `(x - 0.5, x + 0.5]` |
| Numeric.JsRoundUnique | src/utils/snap.ts:8 | that integer is the only one in the window |
| Numeric.Round3 | src/utils/lineAllocation.ts:28-30 | rounding to three decimals moves a value by at most 0.0005 and lands on a whole number of thousandths |
| Numeric.Round3OfInteger | src/utils/lineAllocation.ts:36-38 | a whole number of millimetres is unchanged by it |
| Numeric.Round3Idempotent | src/utils/lineAllocation.ts:28-30 | rounding twice is rounding once |
| Numeric.DirectionOf | src/utils/lineGeometry.ts:52 | `Math.sign(x) or 1` is 1 exactly when `x >= 0`, else -1 |
| Numeric.NatToString | src/utils/lineAllocation.ts:25 | a template literal prints a non-negative integer as one or more decimal digits |
| Numeric.NatToStringRoundTrip | src/utils/lineAllocation.ts:25 | reading the digits back gives the number |
| Numeric.NatToStringInjective | src/utils/lineAllocation.ts:25 | distinct numbers are written differently |
| Numeric.NumberText | src/utils/lineAllocation.ts:32 | a whole number prints as its digits, led by `-` when negative; other numbers use `fracText` |
| Snap.SnapToGrid | src/utils/snap.ts:4-9 | a non-positive size leaves the value; otherwise the result is a multiple of the size within half a size of the value, with halves rounding up |
| Snap.SnapIsMultiple | src/utils/snap.ts:8 | the grid point is the rounded quotient times the size |
| Snap.SnapIdempotent | src/utils/snap.ts:4-9 | snapping a snapped value returns it |
| Snap.ScaledWindow | src/utils/snap.ts:8 | scaling the rounding window by the size gives the half-size window |
| Snap.SnapExamples | tests/snap.test.ts:21-36 | the tested values: 149 to 150, 225 to 300, 299 to 300, 451 to 600, sizes 0 and -100 keep 123, -74 to 0, -226 to -300 |
| Snap.SnapPointToGrid | src/utils/snap.ts:16-21 | both coordinates snapped with the same size |
| Snap.SnapPointExample | tests/snap.test.ts:38-42 | (212, -148) at 150 snaps to (150, -150) |
| Validation.ValidateLineLengthValue | src/utils/validation.ts:5-26 | each message holds exactly when its guard is the first that fails: blank, NaN, not positive and finite, not an integer, below the snap size (naming it), not a multiple of 150; no message exactly for an acceptable length |
| Validation.ValidationExamples | tests/popup-validation.test.ts:21-58 | the tested inputs and their messages at snap size 300 |
| LineWidth.ClampSupportedWidth | src/utils/lineWidth.ts:12-19 | the result is a supported width: the value itself when supported, 355 for values up to 355, else 600 |
| LineWidth.SupportedWidths | src/utils/lineWidth.ts:3-5 | the supported widths are exactly 600 and 355, and 600 is the default |
| LineWidth.ClampIdempotent | src/utils/lineWidth.ts:12-19 | clamping twice is clamping once |
| LineWidth.GetMinimumLengthForWidth | src/utils/lineWidth.ts:21 | the minimum length is exactly the width plus `MINIMUM_SPAN_LENGTH` (150 mm) |
| LineWidth.MinimumSpanIsPlannerFloor | src/utils/lineWidth.ts:7 | 150 mm is the planner's floor: it is the last fallback unit, every length below it has no plan, and every span of a plan is at least that long |
| LineWidth.CanApplyWidthExactly | src/utils/lineWidth.ts:23-24 | a width applies exactly when the stored length reaches width + 150 |
| LineWidth.WideImpliesNarrow | src/utils/lineWidth.ts:23-24 | a line long enough for 600 mm is long enough for 355 mm |
| LineNormalize.NormalizeScaffoldLine | src/utils/lineNormalize.ts:9-15 | a missing colour becomes black and a missing style solid; every other field is kept |
| LineNormalize.NormalizeKeepsCompleteLine | src/utils/lineNormalize.ts:9-15 | a line with both fields is returned unchanged |
| LineNormalize.NormalizeIdempotent | src/utils/lineNormalize.ts:9-15 | normalising twice is normalising once |
| LineNormalize.NormalizeDefaults | tests/line-normalize.test.ts:22-44 | a line with neither field gets black and solid |
| SpanPlanner.FallbackSpansDescending | src/utils/spanPlanner.ts:1-2 | the fallback units are strictly descending, at least 150 mm and shorter than a primary, and end with 150 |
| SpanPlanner.FloorBounds | src/utils/spanPlanner.ts:30 | `Math.floor(rem / size)` copies fit into `rem` within one size, and at least one fits when `rem >= size` |
| SpanPlanner.FloorDivision | src/utils/spanPlanner.ts:30-37 | the leftover after pushing those copies lies in `[0, size)` |
| SpanPlanner.GreedyStep | src/utils/spanPlanner.ts:26-38 | one round of the loop over the units: a unit longer than the leftover is skipped, otherwise its copies are pushed |
| SpanPlanner.GreedyFacts | src/utils/spanPlanner.ts:18-45 | the greedy fill covers the length up to its remainder, which is non-negative and under 150; it uses only the units from the index on, longest first |
| SpanPlanner.FallbackFillIsGreedy | src/utils/spanPlanner.ts:18-45 | on a non-negative length, the early return agrees with the greedy fill, so the fill is accepted exactly when the greedy leftover is at most 1 mm |
| SpanPlanner.FillWithFallbacks | src/utils/spanPlanner.ts:18-45 | the loops of `fillWithFallbacks` compute the fill above |
| SpanPlanner.GreedyLoopIsGreedy | src/utils/spanPlanner.ts:26-38 | the loop from any state appends the recursive fill of its leftover |
| SpanPlanner.FallbackLoop | src/utils/spanPlanner.ts:23-38 | the loop over the units from the start computes the greedy fill |
| SpanPlanner.PushCopies | src/utils/spanPlanner.ts:34-36 | the push loop appends exactly `count` copies |
| SpanPlanner.WeightTable | src/utils/spanPlanner.ts:47-57 | a primary weighs 0, the fallback at index `j` weighs `j + 1`, any other length 10 |
| SpanPlanner.PenaltyConcat | src/utils/spanPlanner.ts:56-59 | the penalty of a concatenation is the sum of the penalties |
| SpanPlanner.PenaltyCopies | src/utils/spanPlanner.ts:56-59 | the penalty of `count` copies is `count` times the weight |
| SpanPlanner.BuildCandidate | src/utils/spanPlanner.ts:70-108 | the loop body builds the candidate with `primaryCount` primaries |
| SpanPlanner.PlanSpans | src/utils/spanPlanner.ts:61-131 | the loops of `planSpans` compute the plan specification |
| SpanPlanner.CandidateFacts | src/utils/spanPlanner.ts:69-108 | an accepted candidate covers the length up to a remainder in `[0, 1]`; its first `k` segments are primaries, the rest fallback units, longest first |
| SpanPlanner.PrimariesThenUnits | src/utils/spanPlanner.ts:103 | primaries in front of fallback units keep the list longest first |
| SpanPlanner.PickFacts | src/utils/spanPlanner.ts:83-94 | the replacement rule keeps a plan once one exists, and never keeps a plan that the candidate beats |
| SpanPlanner.ScanImproves | src/utils/spanPlanner.ts:69-124 | the scan never loses a plan and only ever trades it for a strictly better one |
| SpanPlanner.ScanAtLeastAsGood | src/utils/spanPlanner.ts:69-124 | the scan finds a plan exactly when some candidate is accepted, and no accepted candidate beats the result |
| SpanPlanner.ScanWinner | src/utils/spanPlanner.ts:69-124 | the result is a candidate strictly better than every accepted candidate scanned before it |
| SpanPlanner.PrimariesFit | src/utils/spanPlanner.ts:66 | up to `Math.floor(length / 1800)` primaries fit into the length |
| SpanPlanner.PlanSpansFailure | src/utils/spanPlanner.ts:61-131 | `INSUFFICIENT_LENGTH` exactly for a non-finite length, a length under 150, or no accepted candidate |
| SpanPlanner.PlanSpansOptimal | src/utils/spanPlanner.ts:61-131 | a plan is an accepted candidate that none beats (fewest segments, then smallest penalty), and it is strictly better than every candidate with more primaries |
| SpanPlanner.PlanSpansShape | src/utils/spanPlanner.ts:61-131 | every segment of a plan is a standard length, longest first; the remainder is the uncovered length, in `[0, 1]` |
| SpanPlanner.GreedyOf9300 | src/utils/spanPlanner.ts:18-45 | the greedy fill of 9300 mm is six 1500s and two 150s, penalty 16 |
| SpanPlanner.PlanSpans9300 | tests/spanPlanner.test.ts:32-39 | 9300 mm plans as four 1800s, 1500 and 600, remainder 0 |
| SpanPlanner.PlanSpans2100 | tests/spanPlanner.test.ts:41-48 | 2100 mm plans as 1500 and 600 |
| SpanPlanner.PlanSpans149 | tests/spanPlanner.test.ts:50-56 | 149 mm, NaN and infinity give `INSUFFICIENT_LENGTH` |
| SpanPlanner.PlanSpans3600 | tests/spanPlanner.test.ts:58-65 | 3600 mm plans as two 1800s |
| SpanPlanner.PlanSpans1801 | tests/spanPlanner.test.ts:67-74 | 1801 mm plans as one 1800 with remainder 1 |
| SpanPlanner.PlanSpans200 | src/utils/spanPlanner.ts:40-44 | 200 mm leaves 50 mm after one 150, beyond the tolerance, so nothing is planned |
| SpanSummary.Get | src/utils/spanPlanner.ts:136 | `map.get` finds nothing exactly when no entry has the key |
| SpanSummary.Put | src/utils/spanPlanner.ts:136 | `map.set` appends a new key and keeps the size for an existing one |
| SpanSummary.GetAfterPut | src/utils/spanPlanner.ts:136 | after a set, get reads the new value at that key and the old value elsewhere |
| SpanSummary.PutKeepsDistinct | src/utils/spanPlanner.ts:136 | a set never duplicates a key |
| SpanSummary.GetOrZero | src/utils/spanPlanner.ts:136 | `get(key) ?? 0` |
| SpanSummary.TallyDistinct | src/utils/spanPlanner.ts:134-137 | the count map never holds a key twice |
| SpanSummary.TallyGet | src/utils/spanPlanner.ts:134-137 | the count map gives each length its number of occurrences, and nothing for an absent length |
| SpanSummary.CountLengths | src/utils/spanPlanner.ts:134-137 | the count loop builds that map |
| SpanSummary.InsertDescending | src/utils/spanPlanner.ts:139 | insertion adds exactly the one entry |
| SpanSummary.SortDescending | src/utils/spanPlanner.ts:139 | the sort is a permutation of the entries |
| SpanSummary.SortIsDescending | src/utils/spanPlanner.ts:139 | with distinct keys the sorted list is strictly longest first |
| SpanSummary.DescendingIsUnique | src/utils/spanPlanner.ts:139 | two strictly descending lists with the same entries are equal |
| SpanSummary.SummaryOrderIsForced | src/utils/spanPlanner.ts:138-139 | any descending arrangement of the counts is the one modelled, whatever sort the engine runs |
| SpanSummary.EntryTexts | src/utils/spanPlanner.ts:140 | one text per entry, in order |
| SpanSummary.GetSpanSummary | src/utils/spanPlanner.ts:133-142 | the method computes the summary specification |
| SpanSummary.SummaryListsEachLengthOnce | src/utils/spanPlanner.ts:133-142 | the summary lists every distinct length once, longest first, with its number of occurrences |
| SpanSummary.SummaryMentions | src/utils/spanPlanner.ts:140-141 | a whole-millimetre length among the segments has its digits in the summary text |
| SpanSummary.SummaryExample | src/utils/spanPlanner.ts:140-141 | three 1800s and one 1500 read "1800 × 3, 1500", with the separator as the file stores it |
| LineProjection.ClampToTolerance | src/utils/lineProjection.ts:13 | an offset within 1 mm of zero becomes zero; any other is kept |
| LineProjection.SnapToOrigin | src/utils/lineProjection.ts:57-64 | a coordinate within 1 mm of the origin coordinate becomes it; any other is kept |
| LineProjection.ProjectSegmentsOntoLine | src/utils/lineProjection.ts:15-67 | the method with its running distance computes the projection specification |
| LineProjection.ProjectFailures | src/utils/lineProjection.ts:19-32 | success exactly for a non-empty list on a line of positive length whose lengths sum to within 1 mm of it; an empty list, a zero-extent line and a sum off by more than 1 mm each carry their own error |
| LineProjection.ProjectShape | src/utils/lineProjection.ts:37-66 | one span per length; span `i` starts at the sum of the lengths before it, and the last ends at the measured length |
| LineProjection.FirstStartIsLineStart | src/utils/lineProjection.ts:47-60 | the first span starts at the line's start |
| LineProjection.SpansAreContinuous | src/utils/lineProjection.ts:37-54 | each span ends where the next one starts |
| LineProjection.LocationAtEnds | src/utils/lineProjection.ts:43-64 | distance 0 is the start; the measured length reaches the end coordinate along every axis the line moves more than 1 mm on, and stays on the start's along the other |
| LineProjection.LastEndIsLineEnd | src/utils/lineProjection.ts:43-45 | the last span ends on the line's end coordinate along every axis the line moves more than 1 mm on, and on the start's coordinate along the other |
| LineProjection.ProjectSnapsNearStart | src/utils/lineProjection.ts:57-64 | every projected coordinate within 1 mm of the start's equals it |
| LineProjection.TwoSpans | src/utils/lineProjection.ts:37-66 | the two spans of a two-length projection |
| LineProjection.OneSpan | src/utils/lineProjection.ts:43-45 | one length gives a single span from start to end |
| LineProjection.HorizontalExample | tests/lineProjection.test.ts:35-42 | 1800 + 1800 on a 3600 mm horizontal line run 0..1800 and 1800..3600 |
| LineProjection.DiagonalExample | tests/lineProjection.test.ts:77-84 | two half lengths on the diagonal to (1800, 1800) meet at (900, 900) |
| LineProjection.MismatchExample | tests/lineProjection.test.ts:86-96 | 1000 mm on a 3600 mm line is rejected |
| LineProjection.StretchExample | tests/lineProjection.test.ts:98-101 | 1799 mm on an 1800 mm vertical line is stretched to end at y = 1800 |
| InnerBand.Normalize | src/utils/innerBand.ts:11-17 | throws exactly below `NEAR_ZERO`; otherwise a unit vector that times the magnitude gives the input back |
| InnerBand.NormalizeUnit | src/utils/innerBand.ts:62-63 | a unit vector has magnitude 1 and normalises to itself |
| InnerBand.ComputeInwardNormal | src/utils/innerBand.ts:21-41 | the normal, when there is one, has length one |
| InnerBand.NormalCases | src/utils/innerBand.ts:24-37 | it throws exactly when both extents are under `NEAR_ZERO`; along an axis it is the table's fixed unit vector |
| InnerBand.NormalOffAxis | src/utils/innerBand.ts:39-40 | off the axes it is `(-dy, dx) / m`, perpendicular to the line |
| InnerBand.AxisRuleVersusQuarterTurn | src/utils/innerBand.ts:31-40 | against the quarter turn, the axis rule agrees on vertical lines and is opposite on horizontal ones |
| InnerBand.OffsetVectorFor | src/utils/innerBand.ts:64-69 | the custom vector when given, else the unit normal times width and polarity |
| InnerBand.OffsetLength | src/utils/innerBand.ts:64-69 | that offset is as long as the band is wide |
| InnerBand.GeometryFor | src/utils/innerBand.ts:71-111 | outer edge, inner edge moved by the offset, outline in the code's order, and one polygon per span moved the same way |
| InnerBand.BandGeometryFacts | src/utils/innerBand.ts:51-112 | fails exactly for a non-positive width or a line without a normal, with those errors; otherwise it is the geometry for the chosen offset |
| InnerBand.FlattenPoints | src/utils/innerBand.ts:114-115 | twice as many numbers, x before y for each point |
| InnerBand.FlattenRoundTrip | src/utils/innerBand.ts:114-115 | pairing the flat list up gives the points back |
| InnerBand.HorizontalBandExample | tests/innerBandGeneration.test.ts:69-117 | a left-to-right horizontal line with a 600 mm band is offset by (0, -600): its inner edge and each span's inner corner sit at y = -600 |
| InnerBand.VerticalUpBandExample | tests/innerBandGeneration.test.ts:153-183 | a vertical line drawn upwards is offset by (600, 0): its band sits 600 mm to the right |
| InnerBand.DiagonalBandExample | tests/innerBandGeneration.test.ts:119-151 | on a 45-degree line the offset is perpendicular and as long as the width |
| LineAllocation.CreateSpanId | src/utils/lineAllocation.ts:25 | the line id, `-span-`, then digits |
| LineAllocation.SpanIdReadsBack | src/utils/lineAllocation.ts:25 | the digits read back as the one-based position, so one line's span ids are all different |
| LineAllocation.MarkerId | src/utils/lineAllocation.ts:70 | the line id, `-marker-`, then digits |
| LineAllocation.MarkerIdReadsBack | src/utils/lineAllocation.ts:70 | the digits read back as the one-based position, so one line's marker ids are all different |
| LineAllocation.ComputeSpanChecksum | src/utils/lineAllocation.ts:27-33 | the id, the rounded length and the signature, joined by colons |
| LineAllocation.SignatureReadsBack | src/utils/lineAllocation.ts:29-31 | for whole-millimetre segments, splitting the signature at `-` gives each segment's digits |
| LineAllocation.SignatureDeterminesSegments | src/utils/lineAllocation.ts:29-31 | whole-millimetre segment lists with the same signature are equal |
| LineAllocation.Folded | src/utils/lineAllocation.ts:45-48 | the remainder is added to the last segment only, so the total grows by the remainder |
| LineAllocation.FoldRemainder | src/utils/lineAllocation.ts:45-48 | the copy-and-update computes that fold |
| LineAllocation.AllocateLineResources | src/utils/lineAllocation.ts:35-98 | the method computes the allocation specification |
| LineAllocation.AssembleSpans | src/utils/lineAllocation.ts:59-67 | span `i` is projected segment `i`, with its id, the line's id, its index and its rounded length |
| LineAllocation.AssembleMarkers | src/utils/lineAllocation.ts:69-77 | marker `i` sits at the end of span `i`, with the line's id and colour, generated and unattached |
| LineAllocation.AssembleBlocks | src/utils/lineAllocation.ts:79-87 | block `i` is a locked span block with span `i`'s id, its rounded length and start, from the line |
| LineAllocation.PlanFitsLine | src/utils/lineAllocation.ts:36-48 | the plan for the rounded length is non-empty, whole-millimetre and within 1 mm of it |
| LineAllocation.PlanAllocation | src/utils/lineAllocation.ts:50-56 | the folded segments of a plan always project |
| LineAllocation.AllocationOutcome | src/utils/lineAllocation.ts:35-98 | the allocation fails exactly when the rounded length has no plan, always with `INSUFFICIENT_LENGTH`; `PROJECTION_FAILED` cannot happen |
| LineAllocation.AllocationSpanLengths | src/utils/lineAllocation.ts:59-67 | one span per segment and one marker fewer; each span is as long as its rounded segment, and the last one carries the folded-in remainder |
| LineAllocation.ProjectionCoversLine | src/utils/lineAllocation.ts:50-56 | a successful projection covers the line from its start, end to end |
| LineAllocation.AllocationCoversLine | src/utils/lineAllocation.ts:59-67 | the allocated spans cover the line in the same way |
| LineAllocation.AssembleEnds | src/utils/lineAllocation.ts:59-67 | the spans keep the projected ends, in order |
| LineAllocation.AllocationMarkersOnJoins | src/utils/lineAllocation.ts:69-77 | every marker sits where the next span starts |
| LineAllocation.AllocationRecords | src/utils/lineAllocation.ts:59-87 | one span and one block per segment, one marker fewer, all tagged with the line |
| LineAllocation.AllocationDigest | src/utils/lineAllocation.ts:95-96 | the summary and the checksum describe the folded segments of the rounded length |
| LineAllocation.Allocation3600Example | tests/allocateLineSpans.test.ts:35-48 | a 3600 mm line: two spans, one marker, locked blocks from the line, "1800" in the summary |
| LineAllocation.Allocation9300Example | tests/allocateLineSpans.test.ts:76-96 | a 9300 mm line: six spans, "1500" in the summary |
| LineAllocation.Allocation149Example | tests/allocateLineSpans.test.ts:62-74 | a 149 mm line is rejected with `INSUFFICIENT_LENGTH` |
| LineGeometry.InferOrientation | src/utils/lineGeometry.ts:13-24 | horizontal when the vertical extent is within `EPSILON`, else vertical when the horizontal one is, else diagonal; each as an if-and-only-if |
| LineGeometry.InferOrientationInvariant | src/utils/lineGeometry.ts:13-24 | orientation ignores drawing direction and position |
| LineGeometry.EnsurePositiveLength | src/utils/lineGeometry.ts:26-30 | throws exactly for a non-finite or non-positive length |
| LineGeometry.EnsureNonZeroDelta | src/utils/lineGeometry.ts:32-36 | throws exactly when the two values are within `EPSILON` |
| LineGeometry.ResizeOrientation | src/utils/lineGeometry.ts:44 | the stored orientation, inferred only when absent |
| LineGeometry.ResizeHorizontal | src/utils/lineGeometry.ts:49-69 | never fails; keeps the X midpoint and the drawing direction; `n` long; Y snapped from the midpoint; length rounded; marked horizontal; other fields kept |
| LineGeometry.ResizeVertical | src/utils/lineGeometry.ts:71-91 | the same with the axes exchanged |
| LineGeometry.DiagonalEnds | src/utils/lineGeometry.ts:102-113 | the midpoint is kept and the extent is the unit direction times `n` |
| LineGeometry.ResizeDiagonal | src/utils/lineGeometry.ts:93-126 | a zero-length line throws exactly below `EPSILON`; only that error or the collapse error can occur; with the source's coordinate-sum test the collapse error is thrown exactly when `|(dx + dy) · n / m| <= EPSILON`; success gives the moved ends with rounded length and inferred orientation |
| LineGeometry.Recalculate | src/utils/lineGeometry.ts:38-127 | the error cases in order: non-positive, invalid rounded length (with its message), zero-length diagonal; the endpoint-collapse error of the axis branches never occurs; success keeps every field but ends, length and orientation |
| LineGeometry.RecalculateHorizontal | src/utils/lineGeometry.ts:49-69 | an accepted target on a horizontal line always succeeds, as in `ResizeHorizontal` |
| LineGeometry.RecalculateVertical | src/utils/lineGeometry.ts:71-91 | the same for vertical lines |
| LineGeometry.RecalculateDiagonal | src/utils/lineGeometry.ts:93-126 | an accepted target on a diagonal line is above `EPSILON` and goes to the diagonal resize |
| LineGeometry.DiagonalSuccess | src/utils/lineGeometry.ts:93-126 | a successful diagonal resize needs a Euclidean length above `EPSILON`, keeps the midpoint, scales the extent to the target, rounds the length and infers the orientation again |
| LineGeometry.AcceptedLengthIsLarge | src/utils/lineGeometry.ts:40-43 | a length that passes validation exceeds 149 mm |
| LineGeometry.RecalculateLineWithLength | src/utils/lineGeometry.ts:38-127 | the resize with the coordinate-sum collapse test of line 116 |
| LineGeometry.RecalculateLineWithLengthCorrected | src/utils/lineGeometry.ts:115-116 | the resize with the collapse test on the new length |
| LineGeometry.HorizontalResizeExample | tests/line-geometry.test.ts:40-59 | 1800 to 2400 mm at snap 300 keeps the midpoint |
| LineGeometry.VerticalShortenExample | tests/line-geometry.test.ts:61-68 | shortening to 600 mm keeps the line centred on y = 900 |
| LineGeometry.ZeroTargetExample | tests/line-geometry.test.ts:70-78 | a zero target throws as non-positive |
| LineGeometry.VerticalOddMultipleExample | tests/line-geometry.test.ts:80-91 | 900 mm is accepted at snap 300 |
| LineGeometry.AntiDiagonalRejected | src/utils/lineGeometry.ts:116 | on every line of slope -1 an accepted target throws "collapsed" |
| LineGeometry.AntiDiagonalIsLong | src/utils/lineGeometry.ts:98-100 | the 1800 by 1800 down-right diagonal is long enough and diagonal |
| LineGeometry.AntiDiagonalExample | src/utils/lineGeometry.ts:116 | resizing it to 1200 mm throws "collapsed" |
| LineGeometry.CorrectedDiagonalSucceeds | src/utils/lineGeometry.ts:93-126 | with the corrected test every accepted target on a diagonal of non-zero length succeeds, keeping midpoint and direction |
| LineGeometry.CorrectedAntiDiagonalExample | src/utils/lineGeometry.ts:93-126 | the corrected resize of that diagonal succeeds, centred on (900, -900), 1200 mm long |
| BandOffset.OrientationVector | src/App.tsx:117-133 | up, down, left and right are fixed vectors as long as the width; standard and reverse are the normal scaled by plus or minus the width |
| BandOffset.SideOf | src/App.tsx:152-153 | polarity 1 exactly when the dot product with the normal is non-negative |
| BandOffset.ComputeAbsoluteOffset | src/App.tsx:109-167 | throws exactly when the normal does, with its error; otherwise the offset for the normal |
| BandOffset.RawOffsetLength | src/App.tsx:135-150 | whatever the settings, the offset is exactly `width` long |
| BandOffset.OffsetHypot | src/App.tsx:156 | `Math.hypot` of the offset is the width |
| BandOffset.RescaleIsIdentity | src/App.tsx:155-160 | the magnitude is never zero, so the fallback to 1 never applies, and the rescaled offset is the offset itself |
| BandOffset.OrientationWins | src/App.tsx:138-139 | a stored orientation decides the offset and is handed back unchanged |
| BandOffset.PolarityKept | src/App.tsx:140-164 | a stored polarity without an orientation is kept; `-1` is remembered as reverse |
| BandOffset.DefaultAlongNormal | src/App.tsx:145-153 | without settings the band goes along the normal, polarity 1, no orientation |
| BandOffset.PolarityIsSide | src/App.tsx:152-164 | the polarity is the side of the offset, and a remembered standard or reverse agrees with it |
| BandOffset.AgreesWithBandGeometry | src/App.tsx:138-153 | without an orientation the offset is the one the band geometry picks from the normal and that polarity |
| BandOffset.DownOnHorizontalExample | src/App.tsx:117-153 | "down" on a left-to-right horizontal line gives (0, 600) and polarity -1 |
| BandGeneration.CreateInnerBandId | src/App.tsx:91 | the line id followed by `-inner-band` |
| BandGeneration.KeptBlockId | src/App.tsx:174-177 | a block id is kept exactly when present and non-empty |
| BandGeneration.SanitizeKeeps | src/App.tsx:169-185 | only the metadata changes; it keeps the non-empty block id and the settings, drops spans, checksum and band, and is absent when nothing is kept |
| BandGeneration.SanitizeIdempotent | src/App.tsx:169-185 | sanitising twice is sanitising once |
| BandGeneration.DedupeMarkersByPosition | src/App.tsx:201-213 | the loop with its `seen` set computes the keep-first pass |
| BandGeneration.DedupedFacts | src/App.tsx:201-213 | the result is a subsequence, has no repeated key, keeps every key, and keeps the first marker of each key |
| BandGeneration.DedupedIdempotent | src/App.tsx:201-213 | deduplicating twice is deduplicating once |
| BandGeneration.BoundaryMarkers | src/App.tsx:275-281 | one marker per allocated marker, tagged generated, with the line's id and colour and the boundary role |
| BandGeneration.BandBlocks | src/App.tsx:308-312 | one block per allocated block, tagged with the band |
| BandGeneration.GenerationThrows | src/App.tsx:215-224 | generation throws exactly for a line without a normal, because the side is resolved before the allocation |
| BandGeneration.GenerationDelegates | src/App.tsx:215-224 | otherwise it works on the line with its width filled in (600 by default), from the resolved side and the allocation |
| BandGeneration.NotGeneratedOutcome | src/App.tsx:226-232 | a failed allocation hands back the sanitised line and the reason |
| BandGeneration.GeneratedLine | src/App.tsx:234-273 | the enriched line: the measured length, the kept block id, the resolved side, the spans, the checksum and a band of the line's width built with the resolved offset |
| BandGeneration.GeneratedMarkersAre | src/App.tsx:283-306 | the generated markers are the deduplicated boundaries and corners |
| BandGeneration.GeneratedMarkersTagged | src/App.tsx:275-306 | every generated marker belongs to the line in its colour, and no two share a rounded position and role |
| BandGeneration.GeneratedCorners | src/App.tsx:283-306 | both corner positions of the line are among the generated markers' keys |
| BandGeneration.GeneratedBlocks | src/App.tsx:308-312 | the generated blocks are the allocated ones tagged with the band id |
| BlockList.RepositionShape | src/App.tsx:42-52 | only the `x` of unlocked blocks changes, and each starts where the unlocked blocks before it end |
| BlockList.RepositionBlocks | src/App.tsx:42-52 | the loop with its running offset computes that |
| BlockList.UnlockedLengthAgrees | src/App.tsx:48-49 | lists that differ only in placement have the same unlocked total |
| BlockList.RepositionIgnoresPlacement | src/App.tsx:42-52 | repacking ignores where unlocked blocks were |
| BlockList.RepositionIdempotent | src/App.tsx:42-52 | repacking twice is repacking once |
| BlockList.LockedRunAddsNothing | src/App.tsx:45-47 | locked blocks do not advance the offset |
| BlockList.RepositionPacked | src/App.tsx:42-52 | unlocked blocks are packed end to end from 0 |
| BlockList.LengthsAgree | src/App.tsx:48 | repacking keeps the lengths |
| BlockList.FindIndex | src/App.tsx:529 | the first block with the id, or none carries it |
| BlockList.FindUnique | src/App.tsx:529 | with unique ids, the block found for an id is the one carrying it |
| BlockList.DeleteBlock | src/App.tsx:528-534 | the method computes the delete updater |
| BlockList.FilterOutTarget | src/App.tsx:533 | with unique ids, filtering out one id removes exactly that block |
| BlockList.RepositionKeepsIds | src/App.tsx:42-52 | repacking keeps every id in place |
| BlockList.DeleteRefused | src/App.tsx:530-532 | a missing or locked block leaves the list unchanged |
| BlockList.DeleteLeavesNoId | src/App.tsx:533 | after a delete no block has the id |
| BlockList.DeleteExactly | src/App.tsx:533 | with unique ids, deleting an unlocked block removes it and repacks the rest |
| BlockList.DeleteBlockMarkers | src/App.tsx:535 | the kept markers are exactly those not attached to the block |
| BlockList.Splice | src/App.tsx:556 | `splice` replaces `deleteCount` elements at `start` by the items and keeps the rest |
| BlockList.SplitFirstLength | src/App.tsx:547 | the first half is on the 300 mm grid and at least 600 mm |
| BlockList.SplitRemainderPositive | src/App.tsx:548-551 | a block over 600 mm always leaves a positive second half, so the second guard never fires |
| BlockList.SplitBlock | src/App.tsx:542-558 | the method computes the split updater |
| BlockList.HalvesFacts | src/App.tsx:553-554 | the halves are named `-a` and `-b`, have the grid half and the rest, and sum to the block |
| BlockList.SplitRefused | src/App.tsx:544-546 | a missing or locked block, or one of 600 mm or less, leaves the list unchanged |
| BlockList.SplitPlaces | src/App.tsx:552-557 | a split puts the halves where the block was and repacks |
| BlockList.SplitOutcome | src/App.tsx:552-557 | the blocks before and after keep their order, differing at most in placement, with the halves between |
| BlockList.SplitKeepsTotal | src/App.tsx:547-557 | a split keeps the total length |
| BlockList.MoveBlock | src/App.tsx:562-577 | the method computes the move updater |
| BlockList.Swapped | src/App.tsx:573-575 | two places exchanged, a permutation, everything else in place |
| BlockList.SpliceNextDoorIsSwap | src/App.tsx:573-575 | taking an element out and putting it back next door swaps it with its neighbour |
| BlockList.MoveRefused | src/App.tsx:563-572 | a missing or locked block, a move past either end, or onto a locked neighbour leaves the list unchanged |
| BlockList.MoveSwaps | src/App.tsx:573-576 | a move swaps the block with its neighbour and repacks |
| BlockList.SwappedUnique | src/App.tsx:573-575 | swapping keeps ids unique |
| BlockList.RepositionUnique | src/App.tsx:42-52 | repacking keeps ids unique |
| BlockList.MoveUpFacts | src/App.tsx:561-578 | after moving up, ids are unique and the block is one place up |
| BlockList.MoveBackDown | src/App.tsx:561-578 | moving it back down gives the repacked original |
| BlockList.MoveRoundTrip | src/App.tsx:561-578 | moving a block up and then down gives back the repacked list |
| BandUpdate.UpdateLines | src/App.tsx:776-782 | append adds the line at the end; replace puts it in place of every line with its id and keeps the others |
| BandUpdate.ApplyInnerBandUpdate | src/App.tsx:757-811 | the update fails exactly when generation throws |
| BandUpdate.GenerationKeepsId | src/App.tsx:215-273 | the generated line keeps the given id |
| BandUpdate.OthersUntouched | src/App.tsx:786-803 | other markers and blocks stay in order ahead of the new ones, and none of the line's old ones remain |
| BandUpdate.UpdateContents | src/App.tsx:784-803 | the new markers and blocks follow the kept ones; a failed generation writes only the filtered lists; replace leaves other lines alone |
| BandUpdate.OwnDropped | src/App.tsx:787-791 | the filters drop every marker and block that already belongs to the line |
| BandUpdate.FilterTwice | src/App.tsx:787-803 | filtering twice is filtering once |
| BandUpdate.ReplacePlacesLine | src/App.tsx:780 | replace puts the line where its namesake was, and leaves a list without that id unchanged |
| BandUpdate.UpdateLinesIdempotent | src/App.tsx:780 | replacing twice is replacing once |
| BandUpdate.ApplyIdempotent | src/App.tsx:784-803 | applying the same owned result twice in replace mode is applying it once |
| BandUpdate.AllocationBlocksFromLine | src/utils/lineAllocation.ts:79-87 | every allocated block comes from the line |
| BandUpdate.GenerateFromOwned | src/App.tsx:269-312 | a generated band's line keeps the id, and its markers and blocks belong to it |
| BandUpdate.GeneratedResultOwned | src/App.tsx:215-320 | every generated result meets the condition of `ApplyIdempotent`, so regenerating and applying again changes nothing |
| LineLengthPopup.PopupPolarity | src/components/LineLengthPopup.tsx:112 | the stored polarity, 1 when none |
| LineLengthPopup.CurrentOrientation | src/components/LineLengthPopup.tsx:113-139 | fails exactly when the base normal does, with its error; a stored orientation wins |
| LineLengthPopup.OrientationButtons | src/components/LineLengthPopup.tsx:141-158 | two distinct buttons: up and down for horizontal, right and left for vertical, standard and reverse otherwise |
| LineLengthPopup.ClickOrientation | src/components/LineLengthPopup.tsx:277-281 | a click on the current choice asks for nothing; any other asks for that choice |
| LineLengthPopup.DerivedAmongButtons | src/components/LineLengthPopup.tsx:127-158 | without a stored orientation the current choice is one of the buttons, and only that button's click is ignored |
| LineLengthPopup.CurrentIsBandSide | src/components/LineLengthPopup.tsx:117-139 | without a stored orientation the current choice's vector is the offset band generation uses for the same normal, width and polarity |
| LineLengthPopup.ReverseOnHorizontalNotAButton | src/components/LineLengthPopup.tsx:127-147 | a stored reverse on a horizontal line is shown as current but is not a button |
| LineLengthPopup.HorizontalExample | src/components/LineLengthPopup.tsx:132-133 | with no settings, a left-to-right horizontal line shows up and a right-to-left one shows down |

## Left out

- User interface, rendering, export, notes, and the popup's messages and labels: not logic that
  computes state.
- Ids from `src/utils/lineId.ts`, `Date.now()` timestamps (`createdAt`, `generatedAt`),
  `console.error`, and the `announce`, `suppressWarningState` and live-message effects of
  `applyInnerBandUpdate`: clocks, randomness and display side effects.
- IEEE-754 rounding: numbers are exact reals, so drift that the code's rescaling and tolerance
  checks guard against does not exist in the model.
- `Math.sqrt` and `Math.hypot` are parameters pinned down by their squares. The text of a
  non-integer number is a parameter (`fracText`).
- `snapToGrid`'s `NaN` size guard: snap sizes are finite reals here.
- `BandOffset.OffsetFor` hands back the raw offset and not the rescaled one. `RescaleIsIdentity`
  proves that the two are equal, and that the `|| 1` fallback never applies.
- `BlockList.SplitBlock` keeps the source's second guard (`remainder <= 0`), but
  `SplitRemainderPositive` shows that it never fires.
- `LineAllocation.Allocation3600Example`, `Allocation9300Example`: stated over the allocation
  for the already-known plan (`SpanPlanner.PlanSpans3600`, `PlanSpans9300` prove those plans)
  rather than over the whole allocation from the line.
- `LineLengthPopup`: the `onOrientationChange` handler that a click calls is not modelled, only
  the choice it is given.
- The width-propagation test (`tests/allocateLineSpans.test.ts:50-60`) depends on a block-width
  field of allocated blocks that `src/utils/lineAllocation.ts` does not set. It is not modelled.
- `src/utils/geometry.ts`, the other components and `line-id` tests are not part of this model.

## Findings

| source | as written | input that shows it | evidently intended | confidence | as-written member | corrected member |
|---|---|---|---|---|---|---|
| src/utils/lineGeometry.ts:116 | The diagonal branch rejects a resize when `startX + startY` and `endX + endY` are within `EPSILON`. Along a line of slope -1 these sums are always equal, so every resize of such a line throws "Snapped diagonal line collapsed." | line (0, 0) to (1800, -1800), no stored orientation, new length 1200, snap size 300 | reject only a resized segment that really collapses, i.e. one whose new length is within `EPSILON` of zero | not executed | LineGeometry.AntiDiagonalRejected, LineGeometry.AntiDiagonalExample | LineGeometry.RecalculateLineWithLengthCorrected, LineGeometry.CorrectedDiagonalSucceeds, LineGeometry.CorrectedAntiDiagonalExample |

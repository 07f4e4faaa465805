/** `allocateLineResources`: plan the spans of a drawn line, lay them along it, and derive the
    span records, the boundary markers, the locked span blocks, the summary and the checksum. */
module LineAllocation {
  import opened Wrappers
  import opened Numeric
  import opened Seqs
  import opened Types
  import SpanPlanner
  import LineProjection
  import SpanSummary

  datatype AllocationFailureReason = InsufficientLength | ProjectionFailed

  datatype AllocationResult =
    | AllocationFailure(reason: AllocationFailureReason)
    | AllocationSuccess(
        measuredLength: real,
        spans: seq<Span>,
        markers: seq<Marker>,
        blocks: seq<Block>,
        summary: string,
        checksum: string)

  const SPAN_INFIX: string := "-span-"
  const MARKER_INFIX: string := "-marker-"

  /** `createSpanId`: the line id, `-span-` and the one-based position. */
  function CreateSpanId(lineId: string, index: nat): (r: string)
    ensures |r| > |lineId| + |SPAN_INFIX|
    ensures r[..|lineId|] == lineId && r[|lineId|..|lineId| + |SPAN_INFIX|] == SPAN_INFIX
    ensures IsDigits(r[|lineId| + |SPAN_INFIX|..])
  {
    var digits := NatToString(index + 1);
    assert (lineId + SPAN_INFIX + digits)[|lineId| + |SPAN_INFIX|..] == digits;
    lineId + SPAN_INFIX + digits
  }

  /** The id of the marker after span `index`. */
  function MarkerId(lineId: string, index: nat): (r: string)
    ensures |r| > |lineId| + |MARKER_INFIX|
    ensures r[..|lineId|] == lineId && r[|lineId|..|lineId| + |MARKER_INFIX|] == MARKER_INFIX
    ensures IsDigits(r[|lineId| + |MARKER_INFIX|..])
  {
    var digits := NatToString(index + 1);
    assert (lineId + MARKER_INFIX + digits)[|lineId| + |MARKER_INFIX|..] == digits;
    lineId + MARKER_INFIX + digits
  }

  /** The digits after the infix read back as the one-based position, so ids of one line are
      equal exactly when their positions are. */
  lemma SpanIdReadsBack(lineId: string, i: nat, j: nat)
    ensures DigitsValue(CreateSpanId(lineId, i)[|lineId| + |SPAN_INFIX|..]) == i + 1
    ensures CreateSpanId(lineId, i) == CreateSpanId(lineId, j) <==> i == j
  {
    var k := |lineId| + |SPAN_INFIX|;
    assert (lineId + SPAN_INFIX + NatToString(i + 1))[k..] == NatToString(i + 1);
    assert (lineId + SPAN_INFIX + NatToString(j + 1))[k..] == NatToString(j + 1);
    NatToStringRoundTrip(i + 1);
    NatToStringRoundTrip(j + 1);
  }

  lemma MarkerIdReadsBack(lineId: string, i: nat, j: nat)
    ensures DigitsValue(MarkerId(lineId, i)[|lineId| + |MARKER_INFIX|..]) == i + 1
    ensures MarkerId(lineId, i) == MarkerId(lineId, j) <==> i == j
  {
    var k := |lineId| + |MARKER_INFIX|;
    assert (lineId + MARKER_INFIX + NatToString(i + 1))[k..] == NatToString(i + 1);
    assert (lineId + MARKER_INFIX + NatToString(j + 1))[k..] == NatToString(j + 1);
    NatToStringRoundTrip(i + 1);
    NatToStringRoundTrip(j + 1);
  }

  /** The segment lengths rounded to three decimals and joined by `-`. */
  function SegmentSignature(segments: seq<real>, fracText: real -> string): string {
    Join(seq(|segments|, i requires 0 <= i < |segments| => NumberText(Round3(segments[i]), fracText)), "-")
  }

  /** `computeSpanChecksum`: the line id, its rounded length and the segment signature, separated
      by colons. */
  function ComputeSpanChecksum(line: Line, segments: seq<real>, fracText: real -> string): (r: string)
    ensures var head := line.id + ":" + NumberText(Round3(line.length), fracText) + ":";
            var signature := SegmentSignature(segments, fracText);
            |r| == |head| + |signature| && r[..|head|] == head && r[|head|..] == signature
  {
    var head := line.id + ":" + NumberText(Round3(line.length), fracText) + ":";
    var signature := SegmentSignature(segments, fracText);
    assert (head + signature)[|head|..] == signature;
    head + signature
  }

  predicate IsWholeMillimetres(segments: seq<real>) {
    forall i :: 0 <= i < |segments| ==> IsInteger(segments[i]) && segments[i] >= 0.0
  }

  /** For whole-millimetre lengths the signature reads back: split at `-`, each piece is the
      digits of its length. */
  lemma SignatureReadsBack(segments: seq<real>, fracText: real -> string)
    requires |segments| >= 1 && IsWholeMillimetres(segments)
    ensures var pieces := SplitOn(SegmentSignature(segments, fracText), '-');
            && |pieces| == |segments|
            && forall i :: 0 <= i < |segments| ==> IsDigits(pieces[i]) && DigitsValue(pieces[i]) as real == segments[i]
  {
    var texts := seq(|segments|, i requires 0 <= i < |segments| => NumberText(Round3(segments[i]), fracText));
    forall i | 0 <= i < |segments|
      ensures IsDigits(texts[i]) && DigitsValue(texts[i]) as real == segments[i] && '-' !in texts[i]
    {
      Round3OfInteger(segments[i].Floor);
    }
    SplitJoin(texts, '-');
  }

  /** Two whole-millimetre segment lists with the same signature are the same list. */
  lemma SignatureDeterminesSegments(a: seq<real>, b: seq<real>, fracText: real -> string)
    requires |a| >= 1 && |b| >= 1 && IsWholeMillimetres(a) && IsWholeMillimetres(b)
    requires SegmentSignature(a, fracText) == SegmentSignature(b, fracText)
    ensures a == b
  {
    SignatureReadsBack(a, fracText);
    SignatureReadsBack(b, fracText);
  }

  /** The remainder added onto the last segment of a copy, when it is not zero. */
  function Folded(segments: seq<real>, remainder: real): (r: seq<real>)
    ensures |r| == |segments|
    ensures forall i :: 0 <= i < |segments| - 1 ==> r[i] == segments[i]
    ensures |segments| > 0 ==> r[|r| - 1] == segments[|segments| - 1] + remainder
    ensures |segments| > 0 ==> Sum(r) == Sum(segments) + remainder
  {
    if Abs(remainder) > 0.0 && |segments| > 0 then
      var r := segments[..|segments| - 1] + [segments[|segments| - 1] + remainder];
      assert r[..|r| - 1] == segments[..|segments| - 1];
      r
    else
      assert |segments| > 0 ==> segments[..|segments| - 1] + [segments[|segments| - 1]] == segments;
      segments
  }

  /** `const plannedSegments = [...segments]; plannedSegments[length - 1] += remainder`. */
  method FoldRemainder(segments: seq<real>, remainder: real) returns (folded: seq<real>)
    ensures folded == Folded(segments, remainder)
  {
    var planned := new real[|segments|](i requires 0 <= i < |segments| => segments[i]);
    assert planned[..] == segments;
    if Abs(remainder) > 0.0 && planned.Length > 0 {
      planned[planned.Length - 1] := planned[planned.Length - 1] + remainder;
      assert planned[..] == segments[..|segments| - 1] + [segments[|segments| - 1] + remainder];
    }
    folded := planned[..];
  }

  function SpansFrom(lineId: string, segments: seq<real>, projected: seq<LineProjection.ProjectedSegment>): seq<Span>
    requires |projected| == |segments|
  {
    seq(|projected|, i requires 0 <= i < |projected| =>
      Span(CreateSpanId(lineId, i), lineId, i, Round3(segments[i]), projected[i].start, projected[i].end))
  }

  function MarkersFrom(line: Line, projected: seq<LineProjection.ProjectedSegment>): seq<Marker> {
    var count := if |projected| == 0 then 0 else |projected| - 1;
    seq(count, i requires 0 <= i < count =>
      Marker(MarkerId(line.id, i), None, projected[i].end.x, projected[i].end.y, None, Some(line.id), Some(line.color), true, None))
  }

  function BlocksFrom(lineId: string, spans: seq<Span>): seq<Block> {
    seq(|spans|, i requires 0 <= i < |spans| =>
      Block(spans[i].id, JsRound(spans[i].length) as real, SpanBlock, spans[i].start.x, spans[i].start.y, Some(lineId), true, false, None))
  }

  /** The records built from a successful projection. */
  function Assemble(line: Line, measuredLength: real, folded: seq<real>, projected: seq<LineProjection.ProjectedSegment>,
                    fracText: real -> string): AllocationResult
    requires |projected| == |folded|
  {
    var spans := SpansFrom(line.id, folded, projected);
    AllocationSuccess(measuredLength, spans, MarkersFrom(line, projected), BlocksFrom(line.id, spans),
                      SpanSummary.SummarySpec(folded, fracText),
                      ComputeSpanChecksum(line.(length := measuredLength), folded, fracText))
  }

  /** The allocation once the folded segments are known: project them, then assemble. The source
      projects a copy of the line whose `length` is the measured length; the projection reads only
      the coordinates, so the line itself is projected here (the checksum does get the copy). */
  function AllocateFolded(line: Line, m: real, measuredLength: real, folded: seq<real>, fracText: real -> string): AllocationResult
    requires line.MeasuredBy(m)
  {
    match LineProjection.ProjectSpec(line, m, folded)
    case Failure(_) => AllocationFailure(ProjectionFailed)
    case Success(projected) =>
      LineProjection.ProjectCount(line, m, folded);
      Assemble(line, measuredLength, folded, projected, fracText)
  }

  /** The allocation once the plan is known: reject a failed plan, else fold the remainder. */
  function AllocateFromPlan(line: Line, m: real, measuredLength: real, plan: SpanPlanner.PlanResult,
                            fracText: real -> string): AllocationResult
    requires line.MeasuredBy(m)
  {
    if plan.InsufficientLength? then AllocationFailure(InsufficientLength)
    else AllocateFolded(line, m, measuredLength, Folded(plan.segments, plan.remainder), fracText)
  }

  /** `allocateLineResources`, with `m` the line's Euclidean length. */
  function AllocateSpec(line: Line, m: real, fracText: real -> string): AllocationResult
    requires line.MeasuredBy(m)
  {
    var measuredLength := Round3(m);
    AllocateFromPlan(line, m, measuredLength, SpanPlanner.PlanSpec(Finite(measuredLength)), fracText)
  }

  method AllocateLineResources(line: Line, m: real, fracText: real -> string) returns (r: AllocationResult)
    requires line.MeasuredBy(m)
    ensures r == AllocateSpec(line, m, fracText)
  {
    var measuredLength := Round3(m);
    var planResult := SpanPlanner.PlanSpans(Finite(measuredLength));
    if !planResult.Planned? {
      return AllocationFailure(InsufficientLength);
    }
    var plannedSegments := FoldRemainder(planResult.segments, planResult.remainder);
    assert AllocateSpec(line, m, fracText) == AllocateFolded(line, m, measuredLength, plannedSegments, fracText);
    var projection := LineProjection.ProjectSegmentsOntoLine(line, m, plannedSegments);
    if projection.Failure? {
      return AllocationFailure(ProjectionFailed);
    }
    var projected := projection.value;
    LineProjection.ProjectCount(line, m, plannedSegments);
    var spans := SpansFrom(line.id, plannedSegments, projected);
    var markers := MarkersFrom(line, projected);
    var blocks := BlocksFrom(line.id, spans);
    var summary := SpanSummary.GetSpanSummary(plannedSegments, fracText);
    var checksum := ComputeSpanChecksum(line.(length := measuredLength), plannedSegments, fracText);
    r := AllocationSuccess(measuredLength, spans, markers, blocks, summary, checksum);
    assert r == Assemble(line, measuredLength, plannedSegments, projected, fracText);
  }

  /** Span `i` of the assembled records is projected segment `i` with its id, the line's id, its
      position and its rounded folded length. */
  lemma AssembleSpans(line: Line, measuredLength: real, folded: seq<real>, projected: seq<LineProjection.ProjectedSegment>,
                      fracText: real -> string)
    requires |projected| == |folded| >= 1
    ensures var r := Assemble(line, measuredLength, folded, projected, fracText);
            && r.AllocationSuccess?
            && r.measuredLength == measuredLength
            && |r.spans| == |folded|
            && (forall i :: 0 <= i < |r.spans| ==>
                  && r.spans[i].id == CreateSpanId(line.id, i)
                  && r.spans[i].lineId == line.id
                  && r.spans[i].index == i
                  && r.spans[i].length == Round3(folded[i])
                  && r.spans[i].start == projected[i].start
                  && r.spans[i].end == projected[i].end)
  {
  }

  /** Marker `i` sits at the end of span `i` with the line's id and colour, generated and
      without a block; there is one marker fewer than spans. */
  lemma AssembleMarkers(line: Line, measuredLength: real, folded: seq<real>, projected: seq<LineProjection.ProjectedSegment>,
                      fracText: real -> string)
    requires |projected| == |folded| >= 1
    ensures var r := Assemble(line, measuredLength, folded, projected, fracText);
            && r.AllocationSuccess?
            && |r.markers| == |r.spans| - 1
            && (forall i :: 0 <= i < |r.markers| ==>
                  && r.markers[i].id == MarkerId(line.id, i)
                  && r.markers[i].x == r.spans[i].end.x && r.markers[i].y == r.spans[i].end.y
                  && r.markers[i].lineId == Some(line.id)
                  && r.markers[i].color == Some(line.color)
                  && r.markers[i].generated
                  && r.markers[i].blockId.None?)
  {
  }

  /** Block `i` is a locked span block with span `i`'s id and whole-millimetre length, at the
      span's start, tagged with the line. */
  lemma AssembleBlocks(line: Line, measuredLength: real, folded: seq<real>, projected: seq<LineProjection.ProjectedSegment>,
                      fracText: real -> string)
    requires |projected| == |folded| >= 1
    ensures var r := Assemble(line, measuredLength, folded, projected, fracText);
            && r.AllocationSuccess?
            && |r.blocks| == |r.spans|
            && (forall i :: 0 <= i < |r.blocks| ==>
                  && r.blocks[i].id == r.spans[i].id
                  && r.blocks[i].length == JsRound(r.spans[i].length) as real
                  && r.blocks[i].kind == SpanBlock
                  && r.blocks[i].x == r.spans[i].start.x && r.blocks[i].y == r.spans[i].start.y
                  && r.blocks[i].sourceLineId == Some(line.id)
                  && r.blocks[i].locked)
  {
  }

  /** The plan for the rounded length is non-empty, made of standard whole-millimetre lengths,
      and with its remainder it adds up to the rounded length, which is within the projection's
      tolerance of the exact length. */
  lemma PlanFitsLine(m: real)
    requires m >= 0.0 && SpanPlanner.PlanSpec(Finite(Round3(m))).Planned?
    ensures var plan := SpanPlanner.PlanSpec(Finite(Round3(m)));
            && |plan.segments| >= 1
            && Sum(plan.segments) + plan.remainder == Round3(m)
            && m > 0.0
            && Abs(m - (Sum(plan.segments) + plan.remainder)) <= LineProjection.TOLERANCE_MM
            && (forall i :: 0 <= i < |plan.segments| ==> SpanPlanner.IsSpanLength(plan.segments[i]) && IsInteger(plan.segments[i]))
            && 0.0 <= plan.remainder <= 1.0
  {
    var plan := SpanPlanner.PlanSpec(Finite(Round3(m)));
    var w := SpanPlanner.PlanSpansOptimal(Finite(Round3(m)));
    SpanPlanner.PlanSpansShape(Finite(Round3(m)));
    forall i | 0 <= i < |plan.segments|
      ensures IsInteger(plan.segments[i])
    {
      StandardLengthIsInteger(plan.segments[i]);
    }
  }

  lemma StandardLengthIsInteger(x: real)
    requires SpanPlanner.IsSpanLength(x)
    ensures IsInteger(x)
  {
    assert x in [1800.0, 1500.0, 1200.0, 900.0, 600.0, 150.0];
  }

  /** Segments that, with the remainder, come within the tolerance of the line's length project
      without error once folded, and the allocation is the assembly of that projection. */
  lemma PlanAllocation(line: Line, m: real, measuredLength: real, segments: seq<real>, remainder: real, fracText: real -> string)
    requires line.MeasuredBy(m) && m > 0.0 && |segments| >= 1
    requires Abs(m - (Sum(segments) + remainder)) <= LineProjection.TOLERANCE_MM
    ensures var folded := Folded(segments, remainder);
            var projection := LineProjection.ProjectSpec(line, m, folded);
            && projection.Success?
            && |projection.value| == |folded|
            && AllocateFromPlan(line, m, measuredLength, SpanPlanner.Planned(segments, remainder), fracText)
               == Assemble(line, measuredLength, folded, projection.value, fracText)
  {
    var folded := Folded(segments, remainder);
    LineProjection.ProjectFailures(line, m, folded);
    LineProjection.ProjectCount(line, m, folded);
  }

  /** The allocation fails only when the rounded length has no plan, and then with
      `INSUFFICIENT_LENGTH`: once a plan exists, projecting it never fails. */
  lemma AllocationOutcome(line: Line, m: real, fracText: real -> string)
    requires line.MeasuredBy(m)
    ensures AllocateSpec(line, m, fracText).AllocationFailure? <==> SpanPlanner.PlanSpec(Finite(Round3(m))).InsufficientLength?
    ensures AllocateSpec(line, m, fracText).AllocationFailure? ==> AllocateSpec(line, m, fracText).reason == InsufficientLength
  {
    var plan := SpanPlanner.PlanSpec(Finite(Round3(m)));
    assert AllocateSpec(line, m, fracText) == AllocateFromPlan(line, m, Round3(m), plan, fracText);
    if plan.Planned? {
      PlanFitsLine(m);
      PlanAllocation(line, m, Round3(m), plan.segments, plan.remainder, fracText);
    }
  }

  /** An allocation from a fitting plan has one span per segment, each as long as its segment
      rounded to three decimals, the remainder going to the last one, and one marker fewer than
      spans. */
  lemma AllocationSpanLengths(line: Line, m: real, measuredLength: real, segments: seq<real>, remainder: real, fracText: real -> string)
    requires line.MeasuredBy(m) && m > 0.0 && |segments| >= 1
    requires Abs(m - (Sum(segments) + remainder)) <= LineProjection.TOLERANCE_MM
    ensures var r := AllocateFromPlan(line, m, measuredLength, SpanPlanner.Planned(segments, remainder), fracText);
            && r.AllocationSuccess?
            && r.measuredLength == measuredLength
            && |r.spans| == |segments|
            && |r.markers| == |r.spans| - 1
            && (forall i :: 0 <= i < |r.spans| - 1 ==> r.spans[i].length == Round3(segments[i]))
            && r.spans[|r.spans| - 1].length == Round3(segments[|segments| - 1] + remainder)
  {
    var folded := Folded(segments, remainder);
    PlanAllocation(line, m, measuredLength, segments, remainder, fracText);
    AssembledLengths(line, measuredLength, segments, remainder, LineProjection.ProjectSpec(line, m, folded).value, fracText);
  }

  /** The records assembled from the folded segments, one span per segment with its rounded
      folded length. */
  lemma AssembledLengths(line: Line, measuredLength: real, segments: seq<real>, remainder: real,
                         projected: seq<LineProjection.ProjectedSegment>, fracText: real -> string)
    requires |projected| == |segments| >= 1
    ensures var r := Assemble(line, measuredLength, Folded(segments, remainder), projected, fracText);
            && r.AllocationSuccess?
            && r.measuredLength == measuredLength
            && |r.spans| == |segments|
            && |r.markers| == |r.spans| - 1
            && (forall i :: 0 <= i < |r.spans| - 1 ==> r.spans[i].length == Round3(segments[i]))
            && r.spans[|r.spans| - 1].length == Round3(segments[|segments| - 1] + remainder)
  {
    var folded := Folded(segments, remainder);
    var spans := SpansFrom(line.id, folded, projected);
    assert Assemble(line, measuredLength, folded, projected, fracText).spans == spans;
    assert |MarkersFrom(line, projected)| == |spans| - 1;
    forall i | 0 <= i < |spans| - 1
      ensures spans[i].length == Round3(segments[i])
    {
      assert folded[i] == segments[i];
    }
    var last := |segments| - 1;
    assert folded[last] == segments[last] + remainder;
    assert spans[last].length == Round3(folded[last]);
    assert spans[last].length == Round3(segments[last] + remainder);
  }

  /** The projected segments cover the line: the first starts at the line's start, each ends
      where the next begins, segment `i` starts at the sum of the lengths before it, and the last
      ends on the line's end (snapped as the projection snaps). */
  predicate CoversLine(line: Line, m: real, folded: seq<real>, ends: seq<(Point, Point)>)
    requires m > 0.0 && |ends| == |folded| >= 1
  {
    && ends[0].0 == line.Start()
    && (forall i :: 0 <= i < |ends| - 1 ==> ends[i].1 == ends[i + 1].0)
    && (forall i :: 0 <= i < |ends| ==> ends[i].0 == LineProjection.Location(line, m, Sum(folded[..i])))
    && ends[|ends| - 1].1.x == (if Abs(line.Dx()) <= 1.0 then line.startX else line.endX)
    && ends[|ends| - 1].1.y == (if Abs(line.Dy()) <= 1.0 then line.startY else line.endY)
  }

  function SpanEnds(spans: seq<Span>): (r: seq<(Point, Point)>)
    ensures |r| == |spans|
  {
    seq(|spans|, i requires 0 <= i < |spans| => (spans[i].start, spans[i].end))
  }

  function ProjectedEnds(projected: seq<LineProjection.ProjectedSegment>): (r: seq<(Point, Point)>)
    ensures |r| == |projected|
  {
    seq(|projected|, i requires 0 <= i < |projected| => (projected[i].start, projected[i].end))
  }

  /** A successful projection covers the line. */
  lemma ProjectionCoversLine(line: Line, m: real, folded: seq<real>)
    requires line.MeasuredBy(m) && LineProjection.ProjectSpec(line, m, folded).Success?
    ensures m > 0.0 && |LineProjection.ProjectSpec(line, m, folded).value| == |folded| >= 1
    ensures CoversLine(line, m, folded, ProjectedEnds(LineProjection.ProjectSpec(line, m, folded).value))
  {
    LineProjection.ProjectFailures(line, m, folded);
    LineProjection.ProjectShape(line, m, folded);
    LineProjection.FirstStartIsLineStart(line, m, folded);
    LineProjection.SpansAreContinuous(line, m, folded);
    LineProjection.LastEndIsLineEnd(line, m, folded);
    EndsCover(line, m, folded, LineProjection.ProjectSpec(line, m, folded).value);
  }

  /** Projected segments laid as the projection lays them cover the line. */
  lemma EndsCover(line: Line, m: real, folded: seq<real>, spans: seq<LineProjection.ProjectedSegment>)
    requires m > 0.0 && |spans| == |folded| >= 1
    requires spans[0].start == line.Start()
    requires forall i :: 0 <= i < |spans| - 1 ==> spans[i].end == spans[i + 1].start
    requires forall i :: 0 <= i < |spans| ==> spans[i].start == LineProjection.Location(line, m, Sum(folded[..i]))
    requires spans[|spans| - 1].end.x == (if Abs(line.Dx()) <= LineProjection.TOLERANCE_MM then line.startX else line.endX)
    requires spans[|spans| - 1].end.y == (if Abs(line.Dy()) <= LineProjection.TOLERANCE_MM then line.startY else line.endY)
    ensures CoversLine(line, m, folded, ProjectedEnds(spans))
  {
    var ends := ProjectedEnds(spans);
    assert ends[0].0 == line.Start();
    assert forall i :: 0 <= i < |ends| - 1 ==> ends[i].1 == ends[i + 1].0;
    assert forall i :: 0 <= i < |ends| ==> ends[i].0 == LineProjection.Location(line, m, Sum(folded[..i]));
    assert ends[|ends| - 1].1 == spans[|spans| - 1].end;
  }

  /** The spans of an allocation from a fitting plan cover the line. */
  lemma AllocationCoversLine(line: Line, m: real, measuredLength: real, segments: seq<real>, remainder: real, fracText: real -> string)
    requires line.MeasuredBy(m) && m > 0.0 && |segments| >= 1
    requires Abs(m - (Sum(segments) + remainder)) <= LineProjection.TOLERANCE_MM
    ensures var r := AllocateFromPlan(line, m, measuredLength, SpanPlanner.Planned(segments, remainder), fracText);
            && r.AllocationSuccess? && |r.spans| == |segments|
            && CoversLine(line, m, Folded(segments, remainder), SpanEnds(r.spans))
  {
    var folded := Folded(segments, remainder);
    assert LineProjection.ProjectSpec(line, m, folded).Success? by {
      PlanAllocation(line, m, measuredLength, segments, remainder, fracText);
    }
    var projected := LineProjection.ProjectSpec(line, m, folded).value;
    assert |projected| == |folded|
        && AllocateFromPlan(line, m, measuredLength, SpanPlanner.Planned(segments, remainder), fracText)
           == Assemble(line, measuredLength, folded, projected, fracText) by {
      PlanAllocation(line, m, measuredLength, segments, remainder, fracText);
    }
    assert CoversLine(line, m, folded, ProjectedEnds(projected)) by {
      ProjectionCoversLine(line, m, folded);
    }
    assert SpanEnds(Assemble(line, measuredLength, folded, projected, fracText).spans) == ProjectedEnds(projected) by {
      AssembleEnds(line, measuredLength, folded, projected, fracText);
    }
  }

  /** The assembled spans keep the projected segments' ends, in order. */
  lemma AssembleEnds(line: Line, measuredLength: real, folded: seq<real>, projected: seq<LineProjection.ProjectedSegment>,
                     fracText: real -> string)
    requires |projected| == |folded| >= 1
    ensures |Assemble(line, measuredLength, folded, projected, fracText).spans| == |folded|
    ensures SpanEnds(Assemble(line, measuredLength, folded, projected, fracText).spans) == ProjectedEnds(projected)
  {
    var spans := Assemble(line, measuredLength, folded, projected, fracText).spans;
    assert spans == SpansFrom(line.id, folded, projected);
    forall i | 0 <= i < |spans|
      ensures SpanEnds(spans)[i] == ProjectedEnds(projected)[i]
    {
      assert spans[i].start == projected[i].start && spans[i].end == projected[i].end;
    }
  }

  /** Every marker of an allocation from a fitting plan sits on the join after its span: at the
      end of span `i`, which is the start of span `i + 1`. */
  lemma AllocationMarkersOnJoins(line: Line, m: real, measuredLength: real, segments: seq<real>, remainder: real, fracText: real -> string)
    requires line.MeasuredBy(m) && m > 0.0 && |segments| >= 1
    requires Abs(m - (Sum(segments) + remainder)) <= LineProjection.TOLERANCE_MM
    ensures var r := AllocateFromPlan(line, m, measuredLength, SpanPlanner.Planned(segments, remainder), fracText);
            && r.AllocationSuccess? && |r.markers| == |r.spans| - 1
            && (forall i :: 0 <= i < |r.markers| ==>
                  && r.markers[i].x == r.spans[i].end.x && r.markers[i].y == r.spans[i].end.y
                  && r.markers[i].x == r.spans[i + 1].start.x && r.markers[i].y == r.spans[i + 1].start.y)
  {
    var folded := Folded(segments, remainder);
    AllocationCoversLine(line, m, measuredLength, segments, remainder, fracText);
    PlanAllocation(line, m, measuredLength, segments, remainder, fracText);
    var projected := LineProjection.ProjectSpec(line, m, folded).value;
    var r := Assemble(line, measuredLength, folded, projected, fracText);
    AssembleMarkers(line, measuredLength, folded, projected, fracText);
    var ends := SpanEnds(r.spans);
    forall i | 0 <= i < |r.markers|
      ensures r.markers[i].x == r.spans[i + 1].start.x && r.markers[i].y == r.spans[i + 1].start.y
    {
      assert ends[i].1 == ends[i + 1].0;
    }
  }

  /** An allocation from a fitting plan has one span and one block per segment and one marker
      fewer; every marker is generated, has no block and carries the line's id and colour; every
      block is a locked span block with its span's id, tagged with the line. */
  lemma AllocationRecords(line: Line, m: real, measuredLength: real, segments: seq<real>, remainder: real, fracText: real -> string)
    requires line.MeasuredBy(m) && m > 0.0 && |segments| >= 1
    requires Abs(m - (Sum(segments) + remainder)) <= LineProjection.TOLERANCE_MM
    ensures var r := AllocateFromPlan(line, m, measuredLength, SpanPlanner.Planned(segments, remainder), fracText);
            && r.AllocationSuccess?
            && |r.spans| == |segments| && |r.markers| == |r.spans| - 1 && |r.blocks| == |r.spans|
            && (forall i :: 0 <= i < |r.markers| ==>
                  && r.markers[i].generated && r.markers[i].blockId.None?
                  && r.markers[i].lineId == Some(line.id) && r.markers[i].color == Some(line.color))
            && (forall i :: 0 <= i < |r.blocks| ==>
                  && r.blocks[i].locked && r.blocks[i].kind == SpanBlock && r.blocks[i].sourceLineId == Some(line.id)
                  && r.blocks[i].id == r.spans[i].id)
  {
    var folded := Folded(segments, remainder);
    assert LineProjection.ProjectSpec(line, m, folded).Success? by {
      PlanAllocation(line, m, measuredLength, segments, remainder, fracText);
    }
    var projected := LineProjection.ProjectSpec(line, m, folded).value;
    assert |projected| == |folded|
        && AllocateFromPlan(line, m, measuredLength, SpanPlanner.Planned(segments, remainder), fracText)
           == Assemble(line, measuredLength, folded, projected, fracText) by {
      PlanAllocation(line, m, measuredLength, segments, remainder, fracText);
    }
    AssembleMarkers(line, measuredLength, folded, projected, fracText);
    AssembleBlocks(line, measuredLength, folded, projected, fracText);
  }

  /** The summary and the checksum of an allocation from a fitting plan describe the folded
      segments, and the checksum starts with the line's id and the measured length. */
  lemma AllocationDigest(line: Line, m: real, segments: seq<real>, remainder: real, fracText: real -> string)
    requires line.MeasuredBy(m) && m > 0.0 && |segments| >= 1
    requires Abs(m - (Sum(segments) + remainder)) <= LineProjection.TOLERANCE_MM
    ensures var r := AllocateFromPlan(line, m, Round3(m), SpanPlanner.Planned(segments, remainder), fracText);
            var head := line.id + ":" + NumberText(Round3(m), fracText) + ":";
            && r.AllocationSuccess?
            && r.summary == SpanSummary.SummarySpec(Folded(segments, remainder), fracText)
            && |head| <= |r.checksum| && r.checksum[..|head|] == head
            && r.checksum[|head|..] == SegmentSignature(Folded(segments, remainder), fracText)
  {
    var folded := Folded(segments, remainder);
    PlanAllocation(line, m, Round3(m), segments, remainder, fracText);
    Round3Idempotent(m);
  }

  /** The horizontal 3600 mm line of the allocation tests. */
  predicate IsTestLine3600(line: Line) {
    line.startX == 0.0 && line.startY == 0.0 && line.endX == 3600.0 && line.endY == 0.0 && line.color == Red
  }

  lemma MeasuredExactly(line: Line, m: real, length: real)
    requires line.MeasuredBy(m) && length >= 0.0 && line.Dx() * line.Dx() + line.Dy() * line.Dy() == length * length
    requires IsInteger(length)
    ensures m == length && Round3(m) == length
  {
    SquareRootUnique(m, length);
    Round3OfInteger(length.Floor);
  }

  /** 3600 mm: two spans, one red marker, locked blocks from the line, "1800" in the summary.
      The rounded length is 3600 mm and `SpanPlanner.PlanSpans3600` shows that two 1800 mm
      segments are its plan, so the allocation below is `AllocateSpec(line, m, fracText)`. (The
      two are not joined in one lemma: a context holding the planner applied to a literal makes
      the solver evaluate the whole search.) */
  lemma Allocation3600Example(line: Line, m: real, fracText: real -> string) returns (at: nat)
    requires IsTestLine3600(line) && line.MeasuredBy(m)
    ensures Round3(m) == 3600.0
    ensures var r := AllocateFromPlan(line, m, Round3(m), SpanPlanner.Planned([1800.0, 1800.0], 0.0), fracText);
            && r.AllocationSuccess?
            && |r.spans| == 2 && |r.markers| == 1 && r.markers[0].color == Some(Red)
            && (forall i :: 0 <= i < |r.blocks| ==> r.blocks[i].locked && r.blocks[i].sourceLineId == Some(line.id))
            && at + 4 <= |r.summary| && r.summary[at..at + 4] == "1800"
  {
    MeasuredExactly(line, m, 3600.0);
    Records3600(line, m, fracText);
    at := Summary3600(line, m, fracText);
  }

  lemma Records3600(line: Line, m: real, fracText: real -> string)
    requires line.color == Red && line.MeasuredBy(m) && Abs(m - 3600.0) <= LineProjection.TOLERANCE_MM
    ensures var r := AllocateFromPlan(line, m, Round3(m), SpanPlanner.Planned([1800.0, 1800.0], 0.0), fracText);
            && r.AllocationSuccess?
            && |r.spans| == 2 && |r.markers| == 1 && r.markers[0].color == Some(Red)
            && (forall i :: 0 <= i < |r.blocks| ==> r.blocks[i].locked && r.blocks[i].sourceLineId == Some(line.id))
  {
    SumPair(1800.0, 1800.0);
    AllocationRecords(line, m, Round3(m), [1800.0, 1800.0], 0.0, fracText);
  }

  lemma Summary3600(line: Line, m: real, fracText: real -> string) returns (at: nat)
    requires line.MeasuredBy(m) && Abs(m - 3600.0) <= LineProjection.TOLERANCE_MM
    ensures var r := AllocateFromPlan(line, m, Round3(m), SpanPlanner.Planned([1800.0, 1800.0], 0.0), fracText);
            && r.AllocationSuccess?
            && at + 4 <= |r.summary| && r.summary[at..at + 4] == "1800"
  {
    var segments := [1800.0, 1800.0];
    SumPair(1800.0, 1800.0);
    AllocationDigest(line, m, segments, 0.0, fracText);
    assert Folded(segments, 0.0) == segments;
    DigitsOf(1800);
    at := SpanSummary.SummaryMentions(segments, fracText, 1800.0);
  }

  /** The decimal text of 1800 and of 1500. */
  lemma DigitsOf(n: nat)
    requires n == 1800 || n == 1500
    ensures n == 1800 ==> NatToString(n) == "1800"
    ensures n == 1500 ==> NatToString(n) == "1500"
  {
  }

  /** 9300 mm upwards: six spans and "1500" in the summary; `SpanPlanner.PlanSpans9300` shows
      that the segments below are the plan for 9300 mm. */
  lemma Allocation9300Example(line: Line, m: real, fracText: real -> string) returns (at: nat)
    requires line.startX == 0.0 && line.startY == 0.0 && line.endX == 0.0 && line.endY == 9300.0
    requires line.MeasuredBy(m)
    ensures Round3(m) == 9300.0
    ensures var r := AllocateFromPlan(line, m, Round3(m), SpanPlanner.Planned(Plan9300(), 0.0), fracText);
            && r.AllocationSuccess?
            && |r.spans| == 6
            && at + 4 <= |r.summary| && r.summary[at..at + 4] == "1500"
  {
    MeasuredExactly(line, m, 9300.0);
    Records9300(line, m, fracText);
    at := Summary9300(line, m, fracText);
  }

  /** The plan for 9300 mm. */
  function Plan9300(): (r: seq<real>)
    ensures |r| == 6 && r[4] == 1500.0 && Sum(r) == 9300.0
  {
    var four := [1800.0, 1800.0, 1800.0, 1800.0];
    assert four == [1800.0, 1800.0] + [1800.0, 1800.0];
    SumPair(1800.0, 1800.0);
    SumConcat([1800.0, 1800.0], [1800.0, 1800.0]);
    SumPair(1500.0, 600.0);
    SumConcat(four, [1500.0, 600.0]);
    four + [1500.0, 600.0]
  }

  lemma Records9300(line: Line, m: real, fracText: real -> string)
    requires line.MeasuredBy(m) && Abs(m - 9300.0) <= LineProjection.TOLERANCE_MM
    ensures var r := AllocateFromPlan(line, m, Round3(m), SpanPlanner.Planned(Plan9300(), 0.0), fracText);
            r.AllocationSuccess? && |r.spans| == 6
  {
    AllocationRecords(line, m, Round3(m), Plan9300(), 0.0, fracText);
  }

  lemma Summary9300(line: Line, m: real, fracText: real -> string) returns (at: nat)
    requires line.MeasuredBy(m) && Abs(m - 9300.0) <= LineProjection.TOLERANCE_MM
    ensures var r := AllocateFromPlan(line, m, Round3(m), SpanPlanner.Planned(Plan9300(), 0.0), fracText);
            && r.AllocationSuccess?
            && at + 4 <= |r.summary| && r.summary[at..at + 4] == "1500"
  {
    AllocationDigest(line, m, Plan9300(), 0.0, fracText);
    assert Folded(Plan9300(), 0.0) == Plan9300();
    assert Plan9300()[4] == 1500.0;
    StandardLengthIsInteger(1500.0);
    DigitsOf(1500);
    at := SpanSummary.SummaryMentions(Plan9300(), fracText, 1500.0);
  }

  /** 149 mm is rejected with `INSUFFICIENT_LENGTH`. */
  lemma Allocation149Example(line: Line, m: real, fracText: real -> string)
    requires line.startX == 0.0 && line.startY == 0.0 && line.endX == 149.0 && line.endY == 0.0
    requires line.MeasuredBy(m)
    ensures AllocateSpec(line, m, fracText) == AllocationFailure(InsufficientLength)
  {
    MeasuredExactly(line, m, 149.0);
    SpanPlanner.PlanSpans149();
  }
}

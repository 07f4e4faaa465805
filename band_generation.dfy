/** Automatic inner band generation for one drawn line (`generateInnerBandForLine`): resolve the
    band's side, allocate the spans, build the band geometry, and derive the enriched line, the
    generated markers (boundaries and corners, one per rounded position and role) and the blocks
    that belong to the band. */
module BandGeneration {
  import opened Wrappers
  import opened Numeric
  import opened Types
  import InnerBand
  import BandOffset
  import LineAllocation
  import Dedupe

  /** `DEFAULT_BLOCK_WIDTH`. */
  const DEFAULT_BLOCK_WIDTH: BlockWidth := 600.0

  const INNER_BAND_SUFFIX: string := "-inner-band"

  /** `createInnerBandId`. */
  function CreateInnerBandId(lineId: string): (r: string)
    ensures |r| == |lineId| + |INNER_BAND_SUFFIX| && r[..|lineId|] == lineId && r[|lineId|..] == INNER_BAND_SUFFIX
  {
    lineId + INNER_BAND_SUFFIX
  }

  // ---------------------------------------------------------------------------------------------
  // sanitizeLineMetadata

  /** The block id a line keeps through sanitising: a present, non-empty one. */
  function KeptBlockId(metadata: Option<Metadata>): (r: Option<string>)
    ensures r.Some? <==> metadata.Some? && metadata.value.blockId.Some? && metadata.value.blockId.value != ""
    ensures r.Some? ==> r == metadata.value.blockId
  {
    if metadata.Some? && metadata.value.blockId.Some? && metadata.value.blockId.value != "" then metadata.value.blockId
    else None
  }

  /** `sanitizeLineMetadata`: keep only the block id and the band settings of the metadata, and
      drop the metadata altogether when neither is there. */
  function SanitizeLineMetadata(line: Line): Line {
    if line.metadata.None? then line.(metadata := None)
    else
      var blockId := KeptBlockId(line.metadata);
      var settings := line.metadata.value.innerBandSettings;
      line.(metadata := if blockId.Some? || settings.Some? then Some(Metadata(blockId, None, None, settings, None)) else None)
  }

  /** Sanitising changes only the metadata; what stays is the non-empty block id and the band
      settings, and the spans, checksum and band are gone. */
  lemma SanitizeKeeps(line: Line)
    ensures var r := SanitizeLineMetadata(line);
            && r == line.(metadata := r.metadata)
            && (r.metadata.None? <==> KeptBlockId(line.metadata).None? && (line.metadata.None? || line.metadata.value.innerBandSettings.None?))
            && (r.metadata.Some? ==>
                  && r.metadata.value.blockId == KeptBlockId(line.metadata)
                  && r.metadata.value.innerBandSettings == line.metadata.value.innerBandSettings
                  && r.metadata.value.spans.None? && r.metadata.value.spanChecksum.None? && r.metadata.value.innerBand.None?)
  {
  }

  /** Sanitising twice is sanitising once. */
  lemma SanitizeIdempotent(line: Line)
    ensures SanitizeLineMetadata(SanitizeLineMetadata(line)) == SanitizeLineMetadata(line)
  {
    var once := SanitizeLineMetadata(line);
    if once.metadata.Some? {
      assert KeptBlockId(once.metadata) == once.metadata.value.blockId;
    }
  }

  // ---------------------------------------------------------------------------------------------
  // dedupeMarkersByPosition

  /** The dedupe key `${rounded(x)}:${rounded(y)}:${role ?? 'unknown'}`. Numbers are written without
      a colon, so two keys are equal exactly when their three parts are. */
  datatype PositionKey = PositionKey(x: real, y: real, role: Option<MarkerRole>)

  function KeyOf(marker: Marker): PositionKey {
    PositionKey(Round3(marker.x), Round3(marker.y), marker.role)
  }

  /** What `dedupeMarkersByPosition` returns: the first marker of each key, in order. */
  function Deduped(markers: seq<Marker>): seq<Marker> {
    Dedupe.KeepFirst(markers, KeyOf)
  }

  /** `dedupeMarkersByPosition`, with its `seen` set and `result` array. */
  method DedupeMarkersByPosition(markers: seq<Marker>) returns (result: seq<Marker>)
    ensures result == Deduped(markers)
  {
    var seen: set<PositionKey> := {};
    result := [];
    var i := 0;
    while i < |markers|
      invariant 0 <= i <= |markers|
      invariant result + Dedupe.KeepFirstFrom(markers[i..], KeyOf, seen) == Deduped(markers)
    {
      var marker := markers[i];
      var key := KeyOf(marker);
      assert markers[i..][1..] == markers[i + 1..];
      if key !in seen {
        seen := seen + {key};
        result := result + [marker];
      }
      i := i + 1;
    }
    assert markers[i..] == [];
  }

  /** The dedupe keeps markers of the input in their order, no two with the same key, every key
      of the input, and for each key the first marker that has it. */
  lemma DedupedFacts(markers: seq<Marker>)
    ensures var r := Deduped(markers);
            && Dedupe.IsSubsequence(r, markers)
            && Dedupe.DistinctBy(r, KeyOf)
            && Dedupe.KeysOf(r, KeyOf) == Dedupe.KeysOf(markers, KeyOf)
            && forall j :: 0 <= j < |r| ==>
                 Dedupe.FirstWith(markers, KeyOf, KeyOf(r[j])).Some?
                 && markers[Dedupe.FirstWith(markers, KeyOf, KeyOf(r[j])).value] == r[j]
  {
    Dedupe.KeepFirstSubsequence(markers, KeyOf, {});
    Dedupe.KeepFirstDistinct(markers, KeyOf, {});
    Dedupe.KeepFirstKeys(markers, KeyOf, {});
    Dedupe.KeepFirstIsFirst(markers, KeyOf);
  }

  /** Deduplicating twice is deduplicating once. */
  lemma DedupedIdempotent(markers: seq<Marker>)
    ensures Deduped(Deduped(markers)) == Deduped(markers)
  {
    Dedupe.KeepFirstIdempotent(markers, KeyOf);
  }

  // ---------------------------------------------------------------------------------------------
  // generateInnerBandForLine

  datatype GenerationResult =
    | Generated(line: Line, markers: seq<Marker>, blocks: seq<Block>, summary: string)
    | NotGenerated(line: Line, reason: LineAllocation.AllocationFailureReason)

  /** The allocation's markers, marked as the line's generated boundary markers. */
  function BoundaryMarkers(line: Line, markers: seq<Marker>): (r: seq<Marker>)
    ensures |r| == |markers|
    ensures forall i :: 0 <= i < |r| ==>
              r[i] == markers[i].(generated := true, lineId := Some(line.id), color := Some(line.color), role := Some(Boundary))
  {
    seq(|markers|, i requires 0 <= i < |markers| =>
      markers[i].(generated := true, lineId := Some(line.id), color := Some(line.color), role := Some(Boundary)))
  }

  /** A corner marker of the line at `(x, y)`. */
  function CornerMarker(line: Line, suffix: string, x: real, y: real): Marker {
    Marker(line.id + suffix, None, x, y, None, Some(line.id), Some(line.color), true, Some(Corner))
  }

  /** The two corners of the line, the end one dropped when it rounds to the start. */
  function CornerMarkers(line: Line): seq<Marker> {
    Deduped([CornerMarker(line, "-corner-start", line.startX, line.startY), CornerMarker(line, "-corner-end", line.endX, line.endY)])
  }

  /** The allocation's blocks, tagged as belonging to the band. */
  function BandBlocks(blocks: seq<Block>, bandId: string): (r: seq<Block>)
    ensures |r| == |blocks|
    ensures forall i :: 0 <= i < |r| ==> r[i] == blocks[i].(autoInnerBand := true, innerBandId := Some(bandId))
  {
    seq(|blocks|, i requires 0 <= i < |blocks| => blocks[i].(autoInnerBand := true, innerBandId := Some(bandId)))
  }

  /** The line after `width` is filled in. */
  function WithWidth(line: Line): Line {
    line.(blockWidth := Some(if line.blockWidth.Some? then line.blockWidth.value else DEFAULT_BLOCK_WIDTH))
  }

  function Settings(line: Line): Option<BandSettings> {
    if line.metadata.Some? then line.metadata.value.innerBandSettings else None
  }

  /** The result once the side and the allocation are known (`normalized` already carries its
      width). */
  function GenerateFrom(normalized: Line, m: real, side: BandOffset.AbsoluteOffset, allocation: LineAllocation.AllocationResult): (r: GenerationResult)
    requires normalized.MeasuredBy(m) && normalized.blockWidth.Some?
    requires InnerBand.ComputeInwardNormal(normalized, m).Success?
  {
    if allocation.AllocationFailure? then NotGenerated(SanitizeLineMetadata(normalized), allocation.reason)
    else
      var spans := allocation.spans;
      var width: real := normalized.blockWidth.value;
      InnerBand.BandGeometryFacts(normalized, m, spans, width, side.polarity, Some(side.offset));
      var geometry := InnerBand.BuildInnerBandGeometry(normalized, m, spans, width, side.polarity, Some(side.offset)).value;
      var bandId := CreateInnerBandId(normalized.id);
      var band := Types.InnerBand(bandId, true, width, geometry.outer, geometry.inner, geometry.outline,
                                  geometry.spanPolygons, allocation.summary, side.polarity, side.orientation);
      var metadata := Metadata(KeptBlockId(normalized.metadata), Some(spans), Some(allocation.checksum),
                               Some(BandSettings(Some(side.polarity), side.orientation)), Some(band));
      var enriched := normalized.(length := allocation.measuredLength, metadata := Some(metadata));
      var markers := Deduped(BoundaryMarkers(normalized, allocation.markers) + CornerMarkers(normalized));
      Generated(enriched, markers, BandBlocks(allocation.blocks, bandId), allocation.summary)
  }

  /** `generateInnerBandForLine`, with `m` the line's Euclidean length. The side is resolved
      before the allocation, so a line without a normal throws even when it is also too short. */
  function GenerateInnerBandForLine(line: Line, m: real, fracText: real -> string): (r: Result<GenerationResult, Thrown>)
    requires line.MeasuredBy(m)
  {
    var normalized := WithWidth(line);
    match BandOffset.ComputeAbsoluteOffset(normalized, m, normalized.blockWidth.value, Settings(normalized))
    case Failure(e) => Failure(e)
    case Success(side) => Success(GenerateFrom(normalized, m, side, LineAllocation.AllocateSpec(normalized, m, fracText)))
  }

  /** Generation throws exactly for a line shorter than `NEAR_ZERO` on both axes, and then with
      the normal's error. */
  lemma GenerationThrows(line: Line, m: real, fracText: real -> string)
    requires line.MeasuredBy(m)
    ensures GenerateInnerBandForLine(line, m, fracText).Failure?
            <==> InnerBand.IsNearlyZero(line.Dx()) && InnerBand.IsNearlyZero(line.Dy())
    ensures GenerateInnerBandForLine(line, m, fracText).Failure? ==>
              GenerateInnerBandForLine(line, m, fracText).error == ZeroLengthNormal
  {
    var normalized := WithWidth(line);
    assert normalized.Dx() == line.Dx() && normalized.Dy() == line.Dy();
    InnerBand.NormalCases(normalized, m);
  }

  /** Otherwise generation works from the side and the allocation of the line with its width
      filled in: the default 600 mm when the line has none. */
  lemma GenerationDelegates(line: Line, m: real, fracText: real -> string)
    requires line.MeasuredBy(m)
    requires GenerateInnerBandForLine(line, m, fracText).Success?
    ensures var normalized := WithWidth(line);
            && normalized == line.(blockWidth := Some(if line.blockWidth.Some? then line.blockWidth.value else 600.0))
            && normalized.MeasuredBy(m)
            && InnerBand.ComputeInwardNormal(normalized, m).Success?
            && BandOffset.ComputeAbsoluteOffset(normalized, m, normalized.blockWidth.value, Settings(normalized)).Success?
            && GenerateInnerBandForLine(line, m, fracText).value
               == GenerateFrom(normalized, m,
                               BandOffset.ComputeAbsoluteOffset(normalized, m, normalized.blockWidth.value, Settings(normalized)).value,
                               LineAllocation.AllocateSpec(normalized, m, fracText))
  {
    var normalized := WithWidth(line);
    assert normalized.Dx() == line.Dx() && normalized.Dy() == line.Dy();
  }

  /** A failed allocation hands back the sanitised line and the allocation's reason. */
  lemma NotGeneratedOutcome(normalized: Line, m: real, side: BandOffset.AbsoluteOffset, reason: LineAllocation.AllocationFailureReason)
    requires normalized.MeasuredBy(m) && normalized.blockWidth.Some?
    requires InnerBand.ComputeInwardNormal(normalized, m).Success?
    ensures GenerateFrom(normalized, m, side, LineAllocation.AllocationFailure(reason)) == NotGenerated(SanitizeLineMetadata(normalized), reason)
  {
  }

  /** The enriched line: same line with the measured length and metadata holding the non-empty
      block id, the resolved side, the allocation's spans and checksum, and a band as wide as the
      line's blocks, with one polygon per span and its inner edge the outer edge moved by the
      resolved offset. */
  lemma GeneratedLine(normalized: Line, m: real, side: BandOffset.AbsoluteOffset, allocation: LineAllocation.AllocationResult)
    requires normalized.MeasuredBy(m) && normalized.blockWidth.Some?
    requires InnerBand.ComputeInwardNormal(normalized, m).Success?
    requires allocation.AllocationSuccess?
    ensures var r := GenerateFrom(normalized, m, side, allocation);
            && r.Generated?
            && r.summary == allocation.summary
            && r.line == normalized.(length := allocation.measuredLength, metadata := r.line.metadata)
            && r.line.metadata.Some?
            && var md := r.line.metadata.value;
               && md.blockId == KeptBlockId(normalized.metadata)
               && md.spans == Some(allocation.spans)
               && md.spanChecksum == Some(allocation.checksum)
               && md.innerBandSettings == Some(BandSettings(Some(side.polarity), side.orientation))
               && md.innerBand.Some?
               && var band := md.innerBand.value;
                  && band.id == CreateInnerBandId(normalized.id)
                  && band.auto
                  && band.width == normalized.blockWidth.value as real
                  && band.polarity == side.polarity && band.orientation == side.orientation
                  && band.summary == allocation.summary
                  && band.outer == [normalized.Start(), normalized.End()]
                  && band.inner == [InnerBand.Offset(normalized.Start(), side.offset), InnerBand.Offset(normalized.End(), side.offset)]
                  && |band.spanPolygons| == |allocation.spans|
  {
    var width: real := normalized.blockWidth.value;
    InnerBand.BandGeometryFacts(normalized, m, allocation.spans, width, side.polarity, Some(side.offset));
  }

  /** The generated blocks are the allocation's blocks, one for one, tagged with the band's id. */
  lemma GeneratedBlocks(normalized: Line, m: real, side: BandOffset.AbsoluteOffset, allocation: LineAllocation.AllocationResult)
    requires normalized.MeasuredBy(m) && normalized.blockWidth.Some?
    requires InnerBand.ComputeInwardNormal(normalized, m).Success?
    requires allocation.AllocationSuccess?
    ensures var r := GenerateFrom(normalized, m, side, allocation);
            && r.Generated?
            && |r.blocks| == |allocation.blocks|
            && forall i :: 0 <= i < |r.blocks| ==>
                 r.blocks[i] == allocation.blocks[i].(autoInnerBand := true, innerBandId := Some(CreateInnerBandId(normalized.id)))
  {
  }

  /** A generated marker of the line, in its colour, with a role. */
  predicate IsLineMarker(line: Line, marker: Marker) {
    marker.generated && marker.lineId == Some(line.id) && marker.color == Some(line.color) && marker.role.Some?
  }

  /** The markers of a generation, before the allocation is unpacked. */
  function GeneratedMarkerList(line: Line, allotted: seq<Marker>): seq<Marker> {
    Deduped(BoundaryMarkers(line, allotted) + CornerMarkers(line))
  }

  /** A generation that happens hands back `GeneratedMarkerList` of the allocation's markers. */
  lemma GeneratedMarkersAre(normalized: Line, m: real, side: BandOffset.AbsoluteOffset, allocation: LineAllocation.AllocationResult)
    requires normalized.MeasuredBy(m) && normalized.blockWidth.Some?
    requires InnerBand.ComputeInwardNormal(normalized, m).Success?
    requires allocation.AllocationSuccess?
    ensures GenerateFrom(normalized, m, side, allocation).Generated?
    ensures GenerateFrom(normalized, m, side, allocation).markers == GeneratedMarkerList(normalized, allocation.markers)
  {
  }

  /** Every generated marker is a generated marker of the line in its colour, and no two share a
      rounded position and role. */
  lemma GeneratedMarkersTagged(line: Line, allotted: seq<Marker>)
    ensures var r := GeneratedMarkerList(line, allotted);
            && Dedupe.DistinctBy(r, KeyOf)
            && forall i :: 0 <= i < |r| ==> IsLineMarker(line, r[i])
  {
    var boundary := BoundaryMarkers(line, allotted);
    var pair := [CornerMarker(line, "-corner-start", line.startX, line.startY), CornerMarker(line, "-corner-end", line.endX, line.endY)];
    var corners := CornerMarkers(line);
    var all := boundary + corners;
    var p := (mk: Marker) => IsLineMarker(line, mk);
    assert forall i :: 0 <= i < |corners| ==> p(corners[i]) by {
      assert forall i :: 0 <= i < |pair| ==> p(pair[i]);
      Dedupe.KeepFirstAll(pair, KeyOf, p);
    }
    assert forall i :: 0 <= i < |all| ==> p(all[i]) by {
      forall i | 0 <= i < |all|
        ensures p(all[i])
      {
        if i >= |boundary| {
          assert all[i] == corners[i - |boundary|];
        }
      }
    }
    Dedupe.KeepFirstAll(all, KeyOf, p);
    Dedupe.KeepFirstDistinct(all, KeyOf, {});
  }

  /** There is a corner marker's key at each end of the line among the generated markers (one
      marker only, when both ends round to the same point). */
  lemma GeneratedCorners(line: Line, allotted: seq<Marker>)
    ensures var keys := Dedupe.KeysOf(GeneratedMarkerList(line, allotted), KeyOf);
            && PositionKey(Round3(line.startX), Round3(line.startY), Some(Corner)) in keys
            && PositionKey(Round3(line.endX), Round3(line.endY), Some(Corner)) in keys
  {
    var boundary := BoundaryMarkers(line, allotted);
    var start := CornerMarker(line, "-corner-start", line.startX, line.startY);
    var end := CornerMarker(line, "-corner-end", line.endX, line.endY);
    var pair := [start, end];
    var corners := CornerMarkers(line);
    Dedupe.KeepFirstKeys(pair, KeyOf, {});
    assert KeyOf(start) in Dedupe.KeysOf(pair, KeyOf) && KeyOf(end) in Dedupe.KeysOf(pair, KeyOf) by {
      assert KeyOf(pair[0]) == KeyOf(start) && KeyOf(pair[1]) == KeyOf(end);
    }
    Dedupe.KeysOfConcat(boundary, corners, KeyOf);
    Dedupe.KeepFirstKeys(boundary + corners, KeyOf, {});
  }
}

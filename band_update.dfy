/** `applyInnerBandUpdate`: regenerate the inner band of one line and swap that line's generated
    markers and band blocks in the editor's store for the new ones, leaving every other line's
    markers and blocks where they were. */
module BandUpdate {
  import opened Wrappers
  import opened Seqs
  import opened Types
  import LineAllocation
  import InnerBand
  import BandOffset
  import BandGeneration

  /** The three lists of the editor the update writes. */
  datatype Store = Store(lines: seq<Line>, markers: seq<Marker>, blocks: seq<Block>)

  /** `mode`: replace the line with the same id, or append it. */
  datatype UpdateMode = Replace | Append

  /** `!(marker.generated && marker.lineId === lineId)`. */
  function NotGeneratedFor(lineId: string): Marker -> bool {
    (mk: Marker) => !(mk.generated && mk.lineId == Some(lineId))
  }

  /** `block.sourceLineId !== lineId`. */
  function NotFromLine(lineId: string): Block -> bool {
    (b: Block) => b.sourceLineId != Some(lineId)
  }

  /** `updateLines`: append the line, or put it in place of every line with its id. */
  function UpdateLines(lines: seq<Line>, next: Line, mode: UpdateMode): (r: seq<Line>)
    ensures mode == Append ==> r == lines + [next]
    ensures mode == Replace ==> |r| == |lines| && forall i :: 0 <= i < |lines| ==> r[i] == (if lines[i].id == next.id then next else lines[i])
  {
    if mode == Append then lines + [next]
    else seq(|lines|, i requires 0 <= i < |lines| => if lines[i].id == next.id then next else lines[i])
  }

  /** The store after a generation result for the line with id `lineId`. */
  function ApplyResult(store: Store, result: BandGeneration.GenerationResult, mode: UpdateMode): Store {
    var lineId := result.line.id;
    var markers := Filter(store.markers, NotGeneratedFor(lineId));
    var blocks := Filter(store.blocks, NotFromLine(lineId));
    var lines := UpdateLines(store.lines, result.line, mode);
    match result
    case Generated(_, newMarkers, newBlocks, _) => Store(lines, markers + newMarkers, blocks + newBlocks)
    case NotGenerated(_, _) => Store(lines, markers, blocks)
  }

  /** `applyInnerBandUpdate`, with `m` the line's Euclidean length: the result of the generation
      goes into the store; a generation that throws leaves it untouched and throws on. */
  function ApplyInnerBandUpdate(store: Store, line: Line, m: real, fracText: real -> string, mode: UpdateMode): (r: Result<(Store, BandGeneration.GenerationResult), Thrown>)
    requires line.MeasuredBy(m)
    ensures r.Failure? <==> BandGeneration.GenerateInnerBandForLine(line, m, fracText).Failure?
  {
    match BandGeneration.GenerateInnerBandForLine(line, m, fracText)
    case Failure(e) => Failure(e)
    case Success(result) => Success((ApplyResult(store, result, mode), result))
  }

  /** The generation hands back a line with the id it was given. */
  lemma GenerationKeepsId(line: Line, m: real, fracText: real -> string)
    requires line.MeasuredBy(m)
    requires BandGeneration.GenerateInnerBandForLine(line, m, fracText).Success?
    ensures BandGeneration.GenerateInnerBandForLine(line, m, fracText).value.line.id == line.id
  {
    BandGeneration.GenerationDelegates(line, m, fracText);
  }

  /** Markers other than this line's generated ones, and blocks not from this line, stay, in
      order, ahead of the new ones; none of the old markers and blocks of the line remain. */
  lemma OthersUntouched(store: Store, result: BandGeneration.GenerationResult, mode: UpdateMode)
    ensures var r := ApplyResult(store, result, mode);
            var id := result.line.id;
            var keptMarkers := Filter(store.markers, NotGeneratedFor(id));
            var keptBlocks := Filter(store.blocks, NotFromLine(id));
            && r.markers[..|keptMarkers|] == keptMarkers
            && r.blocks[..|keptBlocks|] == keptBlocks
            && (forall i :: 0 <= i < |store.markers| && !(store.markers[i].generated && store.markers[i].lineId == Some(id)) ==>
                  store.markers[i] in keptMarkers)
            && (forall i :: 0 <= i < |store.blocks| && store.blocks[i].sourceLineId != Some(id) ==> store.blocks[i] in keptBlocks)
            && (forall i :: 0 <= i < |keptMarkers| ==> !(keptMarkers[i].generated && keptMarkers[i].lineId == Some(id)))
            && (forall i :: 0 <= i < |keptBlocks| ==> keptBlocks[i].sourceLineId != Some(id))
  {
    var id := result.line.id;
    FilterMembers(store.markers, NotGeneratedFor(id));
    FilterMembers(store.blocks, NotFromLine(id));
    var r := ApplyResult(store, result, mode);
    var keptMarkers := Filter(store.markers, NotGeneratedFor(id));
    var keptBlocks := Filter(store.blocks, NotFromLine(id));
    forall i | 0 <= i < |store.markers| && !(store.markers[i].generated && store.markers[i].lineId == Some(id))
      ensures store.markers[i] in keptMarkers
    {
      assert NotGeneratedFor(id)(store.markers[i]);
    }
    forall i | 0 <= i < |store.blocks| && store.blocks[i].sourceLineId != Some(id)
      ensures store.blocks[i] in keptBlocks
    {
      assert NotFromLine(id)(store.blocks[i]);
    }
    forall i | 0 <= i < |keptMarkers|
      ensures !(keptMarkers[i].generated && keptMarkers[i].lineId == Some(id))
    {
      assert NotGeneratedFor(id)(keptMarkers[i]);
    }
    forall i | 0 <= i < |keptBlocks|
      ensures keptBlocks[i].sourceLineId != Some(id)
    {
      assert NotFromLine(id)(keptBlocks[i]);
    }
  }

  /** What the update writes for the line: the new markers and blocks after the kept ones, or
      nothing when the band could not be generated; in replace mode the other lines stay. */
  lemma UpdateContents(store: Store, result: BandGeneration.GenerationResult, mode: UpdateMode)
    ensures var r := ApplyResult(store, result, mode);
            var id := result.line.id;
            var keptMarkers := Filter(store.markers, NotGeneratedFor(id));
            var keptBlocks := Filter(store.blocks, NotFromLine(id));
            && (result.Generated? ==> r.markers[|keptMarkers|..] == result.markers && r.blocks[|keptBlocks|..] == result.blocks)
            && (result.NotGenerated? ==> r.markers == keptMarkers && r.blocks == keptBlocks)
            && (mode == Replace ==> forall i :: 0 <= i < |store.lines| && store.lines[i].id != id ==> r.lines[i] == store.lines[i])
  {
  }

  /** Markers and blocks that already belong to the line are all dropped by the filters. */
  lemma OwnDropped(markers: seq<Marker>, blocks: seq<Block>, id: string)
    requires forall i :: 0 <= i < |markers| ==> markers[i].generated && markers[i].lineId == Some(id)
    requires forall i :: 0 <= i < |blocks| ==> blocks[i].sourceLineId == Some(id)
    ensures Filter(markers, NotGeneratedFor(id)) == []
    ensures Filter(blocks, NotFromLine(id)) == []
  {
    FilterNoneKept(markers, NotGeneratedFor(id));
    FilterNoneKept(blocks, NotFromLine(id));
  }

  /** Filtering what a filter kept changes nothing. */
  lemma FilterTwice<T>(s: seq<T>, keep: T -> bool)
    ensures Filter(Filter(s, keep), keep) == Filter(s, keep)
  {
    FilterMembers(s, keep);
    FilterAllKept(Filter(s, keep), keep);
  }

  /** Replacing puts the line in the place of its namesake; a line with an id not in the list is
      not added, and the list stays as it was. */
  lemma ReplacePlacesLine(lines: seq<Line>, next: Line, i: nat)
    ensures i < |lines| && lines[i].id == next.id ==> UpdateLines(lines, next, Replace)[i] == next
    ensures (forall j :: 0 <= j < |lines| ==> lines[j].id != next.id) ==> UpdateLines(lines, next, Replace) == lines
  {
  }

  /** Replacing the same line twice is replacing it once. */
  lemma UpdateLinesIdempotent(lines: seq<Line>, next: Line)
    ensures UpdateLines(UpdateLines(lines, next, Replace), next, Replace) == UpdateLines(lines, next, Replace)
  {
  }

  /** Refiltering the kept markers followed by the line's own generated markers keeps them all. */
  lemma MarkersTwice(markers: seq<Marker>, own: seq<Marker>, id: string)
    requires forall i :: 0 <= i < |own| ==> own[i].generated && own[i].lineId == Some(id)
    ensures var kept := Filter(markers, NotGeneratedFor(id));
            Filter(kept + own, NotGeneratedFor(id)) + own == kept + own
  {
    var kept := Filter(markers, NotGeneratedFor(id));
    FilterTwice(markers, NotGeneratedFor(id));
    FilterNoneKept(own, NotGeneratedFor(id));
    FilterConcat(kept, own, NotGeneratedFor(id));
    assert kept + [] == kept;
  }

  /** Refiltering the kept blocks followed by the line's own blocks keeps them all. */
  lemma BlocksTwice(blocks: seq<Block>, own: seq<Block>, id: string)
    requires forall i :: 0 <= i < |own| ==> own[i].sourceLineId == Some(id)
    ensures var kept := Filter(blocks, NotFromLine(id));
            Filter(kept + own, NotFromLine(id)) + own == kept + own
  {
    var kept := Filter(blocks, NotFromLine(id));
    FilterTwice(blocks, NotFromLine(id));
    FilterNoneKept(own, NotFromLine(id));
    FilterConcat(kept, own, NotFromLine(id));
    assert kept + [] == kept;
  }

  /** Applying the same result twice in replace mode is applying it once, when the result's
      markers are generated markers of its line and its blocks come from its line. */
  lemma ApplyIdempotent(store: Store, result: BandGeneration.GenerationResult)
    requires result.Generated? ==>
               && (forall i :: 0 <= i < |result.markers| ==> result.markers[i].generated && result.markers[i].lineId == Some(result.line.id))
               && (forall i :: 0 <= i < |result.blocks| ==> result.blocks[i].sourceLineId == Some(result.line.id))
    ensures ApplyResult(ApplyResult(store, result, Replace), result, Replace) == ApplyResult(store, result, Replace)
  {
    var id := result.line.id;
    UpdateLinesIdempotent(store.lines, result.line);
    if result.Generated? {
      MarkersTwice(store.markers, result.markers, id);
      BlocksTwice(store.blocks, result.blocks, id);
    } else {
      FilterTwice(store.markers, NotGeneratedFor(id));
      FilterTwice(store.blocks, NotFromLine(id));
    }
  }

  /** The blocks of a successful allocation all come from the allocated line. */
  lemma AllocationBlocksFromLine(line: Line, m: real, fracText: real -> string)
    requires line.MeasuredBy(m)
    ensures var a := LineAllocation.AllocateSpec(line, m, fracText);
            a.AllocationSuccess? ==> forall i :: 0 <= i < |a.blocks| ==> a.blocks[i].sourceLineId == Some(line.id)
  {
  }

  /** The markers and blocks of a band generated from an allocation whose blocks come from the
      line belong to the line. */
  lemma GenerateFromOwned(normalized: Line, m: real, side: BandOffset.AbsoluteOffset, allocation: LineAllocation.AllocationResult)
    requires normalized.MeasuredBy(m) && normalized.blockWidth.Some?
    requires InnerBand.ComputeInwardNormal(normalized, m).Success?
    requires allocation.AllocationSuccess?
    requires forall i :: 0 <= i < |allocation.blocks| ==> allocation.blocks[i].sourceLineId == Some(normalized.id)
    ensures var result := BandGeneration.GenerateFrom(normalized, m, side, allocation);
            && result.Generated?
            && result.line.id == normalized.id
            && (forall i :: 0 <= i < |result.markers| ==> result.markers[i].generated && result.markers[i].lineId == Some(normalized.id))
            && (forall i :: 0 <= i < |result.blocks| ==> result.blocks[i].sourceLineId == Some(normalized.id))
  {
    BandGeneration.GeneratedLine(normalized, m, side, allocation);
    BandGeneration.GeneratedMarkersAre(normalized, m, side, allocation);
    BandGeneration.GeneratedMarkersTagged(normalized, allocation.markers);
    BandGeneration.GeneratedBlocks(normalized, m, side, allocation);
  }

  /** A generated band meets the requirement of `ApplyIdempotent`: regenerating a line and
      applying the same result again changes nothing. */
  lemma GeneratedResultOwned(line: Line, m: real, fracText: real -> string)
    requires line.MeasuredBy(m)
    requires BandGeneration.GenerateInnerBandForLine(line, m, fracText).Success?
    ensures var result := BandGeneration.GenerateInnerBandForLine(line, m, fracText).value;
            result.Generated? ==>
              && (forall i :: 0 <= i < |result.markers| ==> result.markers[i].generated && result.markers[i].lineId == Some(result.line.id))
              && (forall i :: 0 <= i < |result.blocks| ==> result.blocks[i].sourceLineId == Some(result.line.id))
  {
    var normalized := BandGeneration.WithWidth(line);
    assert normalized.MeasuredBy(m) by {
      assert normalized.Dx() == line.Dx() && normalized.Dy() == line.Dy();
    }
    BandGeneration.GenerationDelegates(line, m, fracText);
    var allocation := LineAllocation.AllocateSpec(normalized, m, fracText);
    if allocation.AllocationSuccess? {
      var side := BandOffset.ComputeAbsoluteOffset(normalized, m, normalized.blockWidth.value, BandGeneration.Settings(normalized)).value;
      AllocationBlocksFromLine(normalized, m, fracText);
      GenerateFromOwned(normalized, m, side, allocation);
    }
  }
}

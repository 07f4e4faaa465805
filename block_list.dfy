/** The block list of the editor: packing the unlocked blocks end to end (`repositionBlocks`) and
    the delete, split and move updaters, each of which hands back the list it was given when its
    guard fails and otherwise repacks the edited list. */
module BlockList {
  import opened Wrappers
  import opened Numeric
  import opened Seqs
  import opened Types

  /** The total length of the unlocked blocks of `list`: where the next unlocked block starts. */
  function UnlockedLength(list: seq<Block>): real {
    if |list| == 0 then 0.0
    else UnlockedLength(list[..|list| - 1]) + (if list[|list| - 1].locked then 0.0 else list[|list| - 1].length)
  }

  /** `a` is `b` with, at most, the positions of its unlocked blocks changed. */
  predicate SameUpToPlacement(a: seq<Block>, b: seq<Block>) {
    && |a| == |b|
    && forall i :: 0 <= i < |a| ==> a[i].(x := b[i].x) == b[i] && (b[i].locked ==> a[i].x == b[i].x)
  }

  /** A block put at `offset`; a locked block stays where it is. */
  function Placed(block: Block, offset: real): Block {
    if block.locked then block else block.(x := offset)
  }

  /** `repositionBlocks`: every block put where the unlocked blocks before it end. */
  function Repositioned(list: seq<Block>): (r: seq<Block>)
    ensures |r| == |list|
  {
    seq(|list|, i requires 0 <= i < |list| => Placed(list[i], UnlockedLength(list[..i])))
  }

  /** Repacking changes only the `x` of unlocked blocks, and each unlocked block starts where the
      unlocked blocks before it end. */
  lemma RepositionShape(list: seq<Block>)
    ensures SameUpToPlacement(Repositioned(list), list)
    ensures forall i :: 0 <= i < |list| && !list[i].locked ==> Repositioned(list)[i].x == UnlockedLength(list[..i])
  {
  }

  /** `repositionBlocks`, with its running `offset`. */
  method RepositionBlocks(list: seq<Block>) returns (r: seq<Block>)
    ensures r == Repositioned(list)
  {
    var offset := 0.0;
    r := [];
    var i := 0;
    while i < |list|
      invariant 0 <= i <= |list|
      invariant r == Repositioned(list)[..i]
      invariant offset == UnlockedLength(list[..i])
    {
      var block := list[i];
      assert list[..i + 1][..i] == list[..i];
      if block.locked {
        r := r + [block];
      } else {
        r := r + [block.(x := offset)];
        offset := offset + block.length;
      }
      i := i + 1;
    }
  }

  /** Two lists that differ only in where their unlocked blocks sit give the same total. */
  lemma {:induction false} UnlockedLengthAgrees(a: seq<Block>, b: seq<Block>)
    requires SameUpToPlacement(a, b)
    ensures UnlockedLength(a) == UnlockedLength(b)
  {
    if |a| > 0 {
      var n := |a| - 1;
      assert a[n].(x := b[n].x) == b[n];
      UnlockedLengthAgrees(a[..n], b[..n]);
    }
  }

  /** Repacking ignores where the unlocked blocks were. */
  lemma RepositionIgnoresPlacement(a: seq<Block>, b: seq<Block>)
    requires SameUpToPlacement(a, b)
    ensures Repositioned(a) == Repositioned(b)
  {
    forall i | 0 <= i < |a|
      ensures Repositioned(a)[i] == Repositioned(b)[i]
    {
      UnlockedLengthAgrees(a[..i], b[..i]);
      assert a[i].(x := b[i].x) == b[i];
    }
  }

  /** Repacking a packed list changes nothing. */
  lemma RepositionIdempotent(list: seq<Block>)
    ensures Repositioned(Repositioned(list)) == Repositioned(list)
  {
    RepositionShape(list);
    RepositionIgnoresPlacement(Repositioned(list), list);
  }

  /** Locked blocks add nothing to the running offset. */
  lemma {:induction false} LockedRunAddsNothing(list: seq<Block>, i: nat, j: nat)
    requires i <= j <= |list|
    requires forall k :: i <= k < j ==> list[k].locked
    ensures UnlockedLength(list[..j]) == UnlockedLength(list[..i])
  {
    if j > i {
      assert list[..j][..j - 1] == list[..j - 1];
      LockedRunAddsNothing(list, i, j - 1);
    }
  }

  /** The unlocked blocks are packed end to end: the first starts at 0, and each next unlocked
      block starts where the previous unlocked one ends, whatever locked blocks lie between. */
  lemma RepositionPacked(list: seq<Block>, i: nat, j: nat)
    requires i < j < |list| && !list[i].locked && !list[j].locked
    requires forall k :: i < k < j ==> list[k].locked
    ensures Repositioned(list)[j].x == Repositioned(list)[i].x + Repositioned(list)[i].length
    ensures (forall k :: 0 <= k < i ==> list[k].locked) ==> Repositioned(list)[i].x == 0.0
  {
    LockedRunAddsNothing(list, i + 1, j);
    UnlockedLengthStep(list, i);
    RepositionShape(list);
    if forall k :: 0 <= k < i ==> list[k].locked {
      FirstUnlockedAtZero(list, i);
    }
  }

  /** An unlocked block with only locked blocks before it starts at 0. */
  lemma FirstUnlockedAtZero(list: seq<Block>, i: nat)
    requires i < |list| && !list[i].locked
    requires forall k :: 0 <= k < i ==> list[k].locked
    ensures Repositioned(list)[i].x == 0.0
  {
    LockedRunAddsNothing(list, 0, i);
    assert list[..0] == [];
  }

  /** The running offset past block `i`. */
  lemma UnlockedLengthStep(list: seq<Block>, i: nat)
    requires i < |list|
    ensures UnlockedLength(list[..i + 1]) == UnlockedLength(list[..i]) + (if list[i].locked then 0.0 else list[i].length)
  {
    assert list[..i + 1][..i] == list[..i];
  }

  /** The lengths of the blocks, in order. */
  function Lengths(list: seq<Block>): (r: seq<real>)
    ensures |r| == |list| && forall i :: 0 <= i < |list| ==> r[i] == list[i].length
  {
    seq(|list|, i requires 0 <= i < |list| => list[i].length)
  }

  lemma LengthsAgree(a: seq<Block>, b: seq<Block>)
    requires SameUpToPlacement(a, b)
    ensures Lengths(a) == Lengths(b)
  {
    forall i | 0 <= i < |a|
      ensures a[i].length == b[i].length
    {
      assert a[i].(x := b[i].x) == b[i];
    }
  }

  /** `prev.find(block => block.id === id)`, as the index of the first block with the id. */
  function FindIndex(list: seq<Block>, id: string): (r: Option<nat>)
    ensures r.Some? ==> r.value < |list| && list[r.value].id == id && forall k :: 0 <= k < r.value ==> list[k].id != id
    ensures r.None? ==> forall k :: 0 <= k < |list| ==> list[k].id != id
  {
    if |list| == 0 then None
    else if list[0].id == id then Some(0)
    else
      match FindIndex(list[1..], id)
      case None => None
      case Some(k) => Some(k + 1)
  }

  predicate UniqueIds(list: seq<Block>) {
    forall a, b :: 0 <= a < b < |list| ==> list[a].id != list[b].id
  }

  /** With unique ids the block found is the one carrying the id. */
  lemma FindUnique(list: seq<Block>, k: nat)
    requires UniqueIds(list) && k < |list|
    ensures FindIndex(list, list[k].id) == Some(k)
  {
  }

  /** `block => block.id !== id`. */
  function OtherId(id: string): Block -> bool {
    (b: Block) => b.id != id
  }

  /** The updater of `handleDeleteBlock` on the block list. */
  function DeleteBlockUpdate(prev: seq<Block>, id: string): seq<Block> {
    match FindIndex(prev, id)
    case None => prev
    case Some(i) => if prev[i].locked then prev else Repositioned(Filter(prev, OtherId(id)))
  }

  method DeleteBlock(prev: seq<Block>, id: string) returns (r: seq<Block>)
    ensures r == DeleteBlockUpdate(prev, id)
  {
    var target := FindIndex(prev, id);
    if target.None? || prev[target.value].locked {
      return prev;
    }
    r := RepositionBlocks(Filter(prev, OtherId(id)));
  }

  /** With unique ids, filtering out one block's id removes exactly that block. */
  lemma FilterOutTarget(prev: seq<Block>, i: nat)
    requires UniqueIds(prev) && i < |prev|
    ensures Filter(prev, OtherId(prev[i].id)) == prev[..i] + prev[i + 1..]
  {
    var keep := OtherId(prev[i].id);
    assert !keep(prev[i]);
    assert forall k :: 0 <= k < |prev| && k != i ==> keep(prev[k]);
    FilterOutOne(prev, i, keep);
  }

  /** Repacking keeps every block's id, in place. */
  lemma RepositionKeepsIds(list: seq<Block>)
    ensures |Repositioned(list)| == |list|
    ensures forall k :: 0 <= k < |list| ==> Repositioned(list)[k].id == list[k].id
  {
    RepositionShape(list);
    forall k | 0 <= k < |list|
      ensures Repositioned(list)[k].id == list[k].id
    {
      assert Repositioned(list)[k].(x := list[k].x) == list[k];
    }
  }

  /** Deleting a missing or a locked block changes nothing. */
  lemma DeleteRefused(prev: seq<Block>, id: string)
    requires FindIndex(prev, id).None? || prev[FindIndex(prev, id).value].locked
    ensures DeleteBlockUpdate(prev, id) == prev
  {
  }

  /** Deleting an unlocked block leaves no block with its id. */
  lemma DeleteLeavesNoId(prev: seq<Block>, id: string)
    requires FindIndex(prev, id).Some? && !prev[FindIndex(prev, id).value].locked
    ensures forall k :: 0 <= k < |DeleteBlockUpdate(prev, id)| ==> DeleteBlockUpdate(prev, id)[k].id != id
  {
    var kept := Filter(prev, OtherId(id));
    assert DeleteBlockUpdate(prev, id) == Repositioned(kept);
    RepositionKeepsIds(kept);
    FilterMembers(prev, OtherId(id));
    assert forall k :: 0 <= k < |kept| ==> OtherId(id)(kept[k]);
  }

  /** With unique ids, deleting an unlocked block removes exactly that block and repacks the rest. */
  lemma DeleteExactly(prev: seq<Block>, i: nat)
    requires UniqueIds(prev) && i < |prev| && !prev[i].locked
    ensures DeleteBlockUpdate(prev, prev[i].id) == Repositioned(prev[..i] + prev[i + 1..])
  {
    FindUnique(prev, i);
    FilterOutTarget(prev, i);
  }

  /** The updater of `handleDeleteBlock` on the markers: markers attached to the block go, whether
      or not the block itself could be deleted; the others stay, in order. */
  function DeleteBlockMarkers(markers: seq<Marker>, blockId: string): (r: seq<Marker>)
    ensures forall k :: 0 <= k < |r| ==> r[k] in markers && r[k].blockId != Some(blockId)
    ensures forall k :: 0 <= k < |markers| && markers[k].blockId != Some(blockId) ==> markers[k] in r
  {
    var keep := (m: Marker) => m.blockId != Some(blockId);
    FilterMembers(markers, keep);
    Filter(markers, keep)
  }

  /** `Array.prototype.splice(start, deleteCount, ...items)` on a copy: the new array. */
  function Splice<T>(s: seq<T>, start: nat, deleteCount: nat, items: seq<T>): (r: seq<T>)
    requires start + deleteCount <= |s|
    ensures |r| == |s| - deleteCount + |items|
    ensures r[..start] == s[..start] && r[start..start + |items|] == items && r[start + |items|..] == s[start + deleteCount..]
  {
    s[..start] + items + s[start + deleteCount..]
  }

  /** The first half of a split: half the length on the 300 mm grid, and never under 600 mm. */
  function SplitFirstLength(length: real): (r: real)
    ensures r >= 600.0
    ensures IsInteger(r / 300.0)
  {
    var n := JsRound((length / 2.0) / 300.0);
    var rounded := n as real * 300.0;
    assert rounded / 300.0 == n as real && IsInteger(n as real);
    assert IsInteger(600.0 / 300.0);
    Max(600.0, rounded)
  }

  /** A block longer than 600 mm always leaves a positive second half, so the source's
      `remainder <= 0` guard never fires. */
  lemma SplitRemainderPositive(length: real)
    requires length > 600.0
    ensures length - SplitFirstLength(length) > 0.0
  {
    var n := JsRound((length / 2.0) / 300.0);
    assert n as real * 300.0 <= length / 2.0 + 150.0;
  }

  /** The two halves a split puts in place of `target`: `-a` with the grid-rounded half, `-b` with
      the rest; everything else is copied from `target`. */
  function Halves(target: Block): seq<Block> {
    var midLength := SplitFirstLength(target.length);
    [target.(id := target.id + "-a", length := midLength),
     target.(id := target.id + "-b", length := target.length - midLength)]
  }

  /** The updater of `handleSplitBlock`. */
  function SplitBlockUpdate(prev: seq<Block>, id: string): seq<Block> {
    match FindIndex(prev, id)
    case None => prev
    case Some(i) =>
      var target := prev[i];
      if target.locked || target.length <= 600.0 then prev
      else
        var midLength := SplitFirstLength(target.length);
        var remainder := target.length - midLength;
        if remainder <= 0.0 then prev
        else Repositioned(Splice(prev, i, 1, Halves(target)))
  }

  method SplitBlock(prev: seq<Block>, id: string) returns (r: seq<Block>)
    ensures r == SplitBlockUpdate(prev, id)
  {
    var found := FindIndex(prev, id);
    if found.None? {
      return prev;
    }
    var target := prev[found.value];
    if target.locked || target.length <= 600.0 {
      return prev;
    }
    var midLength := SplitFirstLength(target.length);
    var remainder := target.length - midLength;
    if remainder <= 0.0 {
      return prev;
    }
    var index := found.value;
    var first := target.(id := target.id + "-a", length := midLength);
    var second := target.(id := target.id + "-b", length := remainder);
    var newBlocks := prev;
    assert [first, second] == Halves(target);
    newBlocks := Splice(newBlocks, index, 1, [first, second]);
    r := RepositionBlocks(newBlocks);
  }

  /** The halves of a block over 600 mm: `-a` of at least 600 mm on the 300 mm grid, `-b` with a
      positive rest, together as long as the block, and otherwise copies of it. */
  lemma HalvesFacts(target: Block)
    requires target.length > 600.0
    ensures var h := Halves(target);
            && |h| == 2
            && h[0].id == target.id + "-a" && h[1].id == target.id + "-b"
            && h[0].length >= 600.0 && IsInteger(h[0].length / 300.0)
            && h[1].length > 0.0
            && h[0].length + h[1].length == target.length
            && h[0].(id := target.id, length := target.length) == target
            && h[1].(id := target.id, length := target.length) == target
  {
    SplitRemainderPositive(target.length);
  }

  /** A split of a missing or locked block, or of one of 600 mm or less, changes nothing. */
  lemma SplitRefused(prev: seq<Block>, id: string)
    requires var found := FindIndex(prev, id);
             found.None? || prev[found.value].locked || prev[found.value].length <= 600.0
    ensures SplitBlockUpdate(prev, id) == prev
  {
  }

  /** A split that happens puts the halves where the block was and repacks. */
  lemma SplitPlaces(prev: seq<Block>, i: nat)
    requires i < |prev| && FindIndex(prev, prev[i].id) == Some(i)
    requires !prev[i].locked && prev[i].length > 600.0
    ensures SplitBlockUpdate(prev, prev[i].id) == Repositioned(Splice(prev, i, 1, Halves(prev[i])))
  {
    SplitRemainderPositive(prev[i].length);
  }

  /** A slice of two lists that agree up to placement agree up to placement. */
  lemma SameUpToPlacementSlice(a: seq<Block>, b: seq<Block>, lo: nat, hi: nat)
    requires SameUpToPlacement(a, b) && lo <= hi <= |a|
    ensures SameUpToPlacement(a[lo..hi], b[lo..hi])
  {
    forall k | 0 <= k < hi - lo
      ensures a[lo..hi][k].(x := b[lo..hi][k].x) == b[lo..hi][k] && (b[lo..hi][k].locked ==> a[lo..hi][k].x == b[lo..hi][k].x)
    {
      assert a[lo..hi][k] == a[lo + k] && b[lo..hi][k] == b[lo + k];
    }
  }

  lemma LengthsConcat(a: seq<Block>, b: seq<Block>)
    ensures Lengths(a + b) == Lengths(a) + Lengths(b)
  {
  }

  /** Replacing block `i` by `items` changes the total length by the difference. */
  lemma SpliceLengthSum(prev: seq<Block>, i: nat, items: seq<Block>)
    requires i < |prev|
    ensures Sum(Lengths(Splice(prev, i, 1, items))) == Sum(Lengths(prev)) - prev[i].length + Sum(Lengths(items))
  {
    var before, after := prev[..i], prev[i + 1..];
    assert prev == before + [prev[i]] + after;
    LengthsConcat(before + [prev[i]], after);
    LengthsConcat(before, [prev[i]]);
    LengthsConcat(before + items, after);
    LengthsConcat(before, items);
    SumConcat(Lengths(before) + Lengths(items), Lengths(after));
    SumConcat(Lengths(before), Lengths(items));
    SumConcat(Lengths(before) + Lengths([prev[i]]), Lengths(after));
    SumConcat(Lengths(before), Lengths([prev[i]]));
  }

  /** Repacking the list with block `i` replaced by its halves: the blocks before and after keep
      their order and differ at most in placement, and the halves sit at `i` and `i + 1`. */
  lemma SplicedHalvesOutcome(prev: seq<Block>, i: nat)
    requires i < |prev|
    ensures var r := Repositioned(Splice(prev, i, 1, Halves(prev[i])));
            && |r| == |prev| + 1
            && SameUpToPlacement(r[..i], prev[..i])
            && SameUpToPlacement(r[i..i + 2], Halves(prev[i]))
            && SameUpToPlacement(r[i + 2..], prev[i + 1..])
  {
    var spliced := Splice(prev, i, 1, Halves(prev[i]));
    RepositionShape(spliced);
    SplicedPlacement(Repositioned(spliced), prev, i, Halves(prev[i]));
  }

  /** A list placed like `prev` with block `i` replaced by two blocks, cut into its three parts. */
  lemma SplicedPlacement(r: seq<Block>, prev: seq<Block>, i: nat, halves: seq<Block>)
    requires i < |prev| && |halves| == 2
    requires SameUpToPlacement(r, Splice(prev, i, 1, halves))
    ensures |r| == |prev| + 1
    ensures SameUpToPlacement(r[..i], prev[..i])
    ensures SameUpToPlacement(r[i..i + 2], halves)
    ensures SameUpToPlacement(r[i + 2..], prev[i + 1..])
  {
    var spliced := Splice(prev, i, 1, halves);
    assert SameUpToPlacement(r[..i], prev[..i]) by {
      SameUpToPlacementSlice(r, spliced, 0, i);
      assert spliced[0..i] == prev[..i];
    }
    assert SameUpToPlacement(r[i..i + 2], halves) by {
      SameUpToPlacementSlice(r, spliced, i, i + 2);
      assert spliced[i..i + 2] == halves;
    }
    assert SameUpToPlacement(r[i + 2..], prev[i + 1..]) by {
      SameUpToPlacementSlice(r, spliced, i + 2, |r|);
      assert spliced[i + 2..|r|] == prev[i + 1..];
      assert r[i + 2..|r|] == r[i + 2..];
    }
  }

  /** A split that happens: the blocks before and after keep their order and differ at most in
      placement, and the halves sit at `i` and `i + 1`. */
  lemma SplitOutcome(prev: seq<Block>, i: nat)
    requires i < |prev| && FindIndex(prev, prev[i].id) == Some(i)
    requires !prev[i].locked && prev[i].length > 600.0
    ensures var r := SplitBlockUpdate(prev, prev[i].id);
            && |r| == |prev| + 1
            && SameUpToPlacement(r[..i], prev[..i])
            && SameUpToPlacement(r[i..i + 2], Halves(prev[i]))
            && SameUpToPlacement(r[i + 2..], prev[i + 1..])
  {
    SplitPlaces(prev, i);
    SplicedHalvesOutcome(prev, i);
  }

  /** Repacking the list with a block over 600 mm replaced by its halves keeps the total length. */
  lemma SplicedHalvesTotal(prev: seq<Block>, i: nat)
    requires i < |prev| && prev[i].length > 600.0
    ensures Sum(Lengths(Repositioned(Splice(prev, i, 1, Halves(prev[i]))))) == Sum(Lengths(prev))
  {
    var spliced := Splice(prev, i, 1, Halves(prev[i]));
    var h := Halves(prev[i]);
    assert Lengths(Repositioned(spliced)) == Lengths(spliced) by {
      RepositionShape(spliced);
      LengthsAgree(Repositioned(spliced), spliced);
    }
    assert Sum(Lengths(h)) == prev[i].length by {
      HalvesFacts(prev[i]);
      SumPair(h[0].length, h[1].length);
      assert Lengths(h) == [h[0].length, h[1].length];
    }
    SpliceLengthSum(prev, i, h);
  }

  /** A split leaves the total length of the list unchanged. */
  lemma SplitKeepsTotal(prev: seq<Block>, i: nat)
    requires i < |prev| && FindIndex(prev, prev[i].id) == Some(i)
    requires !prev[i].locked && prev[i].length > 600.0
    ensures Sum(Lengths(SplitBlockUpdate(prev, prev[i].id))) == Sum(Lengths(prev))
  {
    SplitPlaces(prev, i);
    SplicedHalvesTotal(prev, i);
  }

  datatype Direction = MoveUp | MoveDown

  /** Where a move sends the block at `i`. */
  function MoveTarget(i: nat, direction: Direction): int {
    if direction == MoveUp then i as int - 1 else i as int + 1
  }

  /** The updater of `handleMoveBlock`: take the block out and put it back one place up or down. */
  function MoveBlockUpdate(prev: seq<Block>, id: string, direction: Direction): seq<Block> {
    match FindIndex(prev, id)
    case None => prev
    case Some(i) =>
      if prev[i].locked then prev
      else
        var t := MoveTarget(i, direction);
        if t < 0 || t >= |prev| then prev
        else if prev[t].locked then prev
        else
          var removed := Splice(prev, i, 1, []);
          Repositioned(Splice(removed, t, 0, [prev[i]]))
  }

  method MoveBlock(prev: seq<Block>, id: string, direction: Direction) returns (r: seq<Block>)
    ensures r == MoveBlockUpdate(prev, id, direction)
  {
    var found := FindIndex(prev, id);
    if found.None? {
      return prev;
    }
    var index := found.value;
    if prev[index].locked {
      return prev;
    }
    var targetIndex: int := if direction == MoveUp then index as int - 1 else index as int + 1;
    if targetIndex < 0 || targetIndex >= |prev| {
      return prev;
    }
    if prev[targetIndex].locked {
      return prev;
    }
    var newBlocks := prev;
    var removed := newBlocks[index];
    newBlocks := Splice(newBlocks, index, 1, []);
    newBlocks := Splice(newBlocks, targetIndex, 0, [removed]);
    r := RepositionBlocks(newBlocks);
  }

  /** The elements at `i` and `j` swapped. */
  function Swapped<T>(list: seq<T>, i: nat, j: nat): (r: seq<T>)
    requires i < |list| && j < |list|
    ensures |r| == |list|
    ensures multiset(r) == multiset(list)
    ensures r[i] == list[j] && r[j] == list[i]
    ensures forall k :: 0 <= k < |list| && k != i && k != j ==> r[k] == list[k]
  {
    list[i := list[j]][j := list[i]]
  }

  /** Taking an element out and putting it back next door swaps it with its neighbour. */
  lemma SpliceNextDoorIsSwap<T>(list: seq<T>, i: nat, t: nat)
    requires i < |list| && t < |list| && (t == i + 1 || t + 1 == i)
    ensures Splice(Splice(list, i, 1, []), t, 0, [list[i]]) == Swapped(list, i, t)
  {
    if t == i + 1 {
      SpliceForwardIsSwap(list, i);
    } else {
      SpliceBackwardIsSwap(list, t);
    }
  }

  lemma SpliceForwardIsSwap<T>(list: seq<T>, i: nat)
    requires i + 1 < |list|
    ensures Splice(Splice(list, i, 1, []), i + 1, 0, [list[i]]) == Swapped(list, i, i + 1)
  {
    var removed := Splice(list, i, 1, []);
    var moved := Splice(removed, i + 1, 0, [list[i]]);
    forall k | 0 <= k < |list|
      ensures moved[k] == Swapped(list, i, i + 1)[k]
    {
      if k <= i {
        assert moved[k] == removed[k];
      } else if k > i + 1 {
        assert moved[k] == removed[k - 1];
      }
    }
  }

  lemma SpliceBackwardIsSwap<T>(list: seq<T>, t: nat)
    requires t + 1 < |list|
    ensures Splice(Splice(list, t + 1, 1, []), t, 0, [list[t + 1]]) == Swapped(list, t + 1, t)
  {
    var removed := Splice(list, t + 1, 1, []);
    var moved := Splice(removed, t, 0, [list[t + 1]]);
    forall k | 0 <= k < |list|
      ensures moved[k] == Swapped(list, t + 1, t)[k]
    {
      if k < t {
        assert moved[k] == removed[k];
      } else if k > t {
        assert moved[k] == removed[k - 1];
      }
    }
  }

  /** Moving a missing or locked block, past either end, or onto a locked neighbour changes nothing. */
  lemma MoveRefused(prev: seq<Block>, id: string, direction: Direction)
    requires var found := FindIndex(prev, id);
             || found.None?
             || prev[found.value].locked
             || !(0 <= MoveTarget(found.value, direction) < |prev|)
             || prev[MoveTarget(found.value, direction)].locked
    ensures MoveBlockUpdate(prev, id, direction) == prev
  {
  }

  /** A move that happens swaps the block with its neighbour and repacks. */
  lemma MoveSwaps(prev: seq<Block>, i: nat, direction: Direction)
    requires i < |prev| && FindIndex(prev, prev[i].id) == Some(i) && !prev[i].locked
    requires 0 <= MoveTarget(i, direction) < |prev| && !prev[MoveTarget(i, direction)].locked
    ensures MoveBlockUpdate(prev, prev[i].id, direction) == Repositioned(Swapped(prev, i, MoveTarget(i, direction)))
  {
    var t := MoveTarget(i, direction);
    var moved := Splice(Splice(prev, i, 1, []), t, 0, [prev[i]]);
    assert MoveBlockUpdate(prev, prev[i].id, direction) == Repositioned(moved);
    SpliceNextDoorIsSwap(prev, i, t);
  }

  /** Swapping keeps ids unique. */
  lemma SwappedUnique(list: seq<Block>, i: nat, j: nat)
    requires UniqueIds(list) && i < |list| && j < |list|
    ensures UniqueIds(Swapped(list, i, j))
  {
    var r := Swapped(list, i, j);
    forall a, b | 0 <= a < b < |r|
      ensures r[a].id != r[b].id
    {
      var a' := if a == i then j else if a == j then i else a;
      var b' := if b == i then j else if b == j then i else b;
      assert r[a] == list[a'] && r[b] == list[b'];
    }
  }

  /** Repacking keeps ids unique. */
  lemma RepositionUnique(list: seq<Block>)
    requires UniqueIds(list)
    ensures UniqueIds(Repositioned(list))
  {
    RepositionKeepsIds(list);
  }

  /** The list after moving block `i` up: ids still unique, the block now at `i - 1`, both
      places still unlocked, and otherwise the swapped list up to placement. */
  lemma MoveUpFacts(prev: seq<Block>, i: nat)
    requires UniqueIds(prev) && 0 < i < |prev|
    requires !prev[i].locked && !prev[i - 1].locked
    ensures var once := MoveBlockUpdate(prev, prev[i].id, MoveUp);
            && SameUpToPlacement(once, Swapped(prev, i, i - 1))
            && UniqueIds(once)
            && once[i - 1].id == prev[i].id && !once[i - 1].locked && !once[i].locked
  {
    var swapped := Swapped(prev, i, i - 1);
    var once := Repositioned(swapped);
    assert MoveBlockUpdate(prev, prev[i].id, MoveUp) == once by {
      FindUnique(prev, i);
      MoveSwaps(prev, i, MoveUp);
    }
    assert SameUpToPlacement(once, swapped) by { RepositionShape(swapped); }
    assert UniqueIds(once) by {
      SwappedUnique(prev, i, i - 1);
      RepositionUnique(swapped);
    }
    assert once[i - 1].(x := swapped[i - 1].x) == swapped[i - 1];
    assert once[i].(x := swapped[i].x) == swapped[i];
  }

  /** Moving the unlocked block at `i - 1` down onto an unlocked neighbour swaps the two. */
  lemma MoveDownSwaps(once: seq<Block>, i: nat)
    requires 0 < i < |once| && UniqueIds(once)
    requires !once[i - 1].locked && !once[i].locked
    ensures MoveBlockUpdate(once, once[i - 1].id, MoveDown) == Repositioned(Swapped(once, i - 1, i))
  {
    FindUnique(once, i - 1);
    MoveSwaps(once, i - 1, MoveDown);
  }

  /** Swapping back a list that is a swap up to placement gives the original up to placement. */
  lemma SwapBackSameUpToPlacement(prev: seq<Block>, once: seq<Block>, i: nat)
    requires 0 < i < |prev| && SameUpToPlacement(once, Swapped(prev, i, i - 1))
    ensures SameUpToPlacement(Swapped(once, i - 1, i), prev)
  {
    var back := Swapped(once, i - 1, i);
    var swapped := Swapped(prev, i, i - 1);
    forall k | 0 <= k < |prev|
      ensures back[k].(x := prev[k].x) == prev[k] && (prev[k].locked ==> back[k].x == prev[k].x)
    {
      var k' := if k == i then i - 1 else if k == i - 1 then i else k;
      assert back[k] == once[k'] && prev[k] == swapped[k'];
    }
  }

  /** Moving the block back down from `i - 1` gives the packed original list. */
  lemma MoveBackDown(prev: seq<Block>, once: seq<Block>, i: nat)
    requires 0 < i < |prev| && SameUpToPlacement(once, Swapped(prev, i, i - 1)) && UniqueIds(once)
    requires once[i - 1].id == prev[i].id && !once[i - 1].locked && !once[i].locked
    ensures MoveBlockUpdate(once, prev[i].id, MoveDown) == Repositioned(prev)
  {
    MoveDownSwaps(once, i);
    SwapBackSameUpToPlacement(prev, once, i);
    RepositionIgnoresPlacement(Swapped(once, i - 1, i), prev);
  }

  /** With unique ids, moving a block up and then down again gives back the packed list. */
  lemma MoveRoundTrip(prev: seq<Block>, i: nat)
    requires UniqueIds(prev) && 0 < i < |prev|
    requires !prev[i].locked && !prev[i - 1].locked
    ensures MoveBlockUpdate(MoveBlockUpdate(prev, prev[i].id, MoveUp), prev[i].id, MoveDown) == Repositioned(prev)
  {
    MoveUpFacts(prev, i);
    MoveBackDown(prev, MoveBlockUpdate(prev, prev[i].id, MoveUp), i);
  }
}

/**
 * The span planner: it covers a line length with standard scaffold spans, as many 1800 mm
 * primaries as it can afford, the leftover filled greedily with the fallback units, and picks
 * the plan with the fewest segments and then the smallest penalty.
 */
module SpanPlanner {
  import opened Wrappers
  import opened Numeric
  import opened Seqs

  const PRIMARY_SPAN: real := 1800.0
  /** The fallback units, longest first. */
  const FALLBACK_SPANS: seq<real> := [1500.0, 1200.0, 900.0, 600.0, 150.0]
  const TOLERANCE_MM: real := 1.0

  /** A list of segments and the length they leave uncovered. */
  datatype Fill = Fill(segments: seq<real>, remainder: real)

  /** `PlanSpansResult`: a plan, or the single failure reason `INSUFFICIENT_LENGTH`. */
  datatype PlanResult = Planned(segments: seq<real>, remainder: real) | InsufficientLength

  predicate IsSpanLength(x: real) {
    x == PRIMARY_SPAN || x in FALLBACK_SPANS
  }

  predicate NonIncreasing(s: seq<real>) {
    forall a, b :: 0 <= a < b < |s| ==> s[a] >= s[b]
  }

  /** The fallback units are strictly descending, all positive and all shorter than a primary. */
  lemma FallbackSpansDescending()
    ensures forall a, b :: 0 <= a < b < |FALLBACK_SPANS| ==> FALLBACK_SPANS[a] > FALLBACK_SPANS[b]
    ensures forall a :: 0 <= a < |FALLBACK_SPANS| ==> 150.0 <= FALLBACK_SPANS[a] < PRIMARY_SPAN
    ensures FALLBACK_SPANS[|FALLBACK_SPANS| - 1] == 150.0
  {
  }

  /** `Math.floor(rem / size)`: how many copies of `size` a non-negative leftover takes. */
  function FitCount(rem: real, size: real): nat
    requires rem >= 0.0 && size > 0.0
  {
    assert rem / size >= 0.0;
    (rem / size).Floor
  }

  /** What is left of `rem` once those copies are pushed. */
  function Leftover(rem: real, size: real): real
    requires rem >= 0.0 && size > 0.0
  {
    rem - Sum(Copies(size, FitCount(rem, size)))
  }

  /** `count * size` is at most `rem` and within `size` of it; at least one copy fits when `rem >= size`. */
  lemma FloorBounds(rem: real, size: real)
    requires size > 0.0 && rem >= 0.0
    ensures 0.0 <= rem - FitCount(rem, size) as real * size < size
    ensures rem >= size ==> FitCount(rem, size) >= 1
  {
    var q := rem / size;
    var c := q.Floor as real;
    assert FitCount(rem, size) as real == c;
    var d := q - c;
    assert 0.0 <= d < 1.0;
    assert rem == q * size;
    assert rem == c * size + d * size;
    MulStrict(d, 1.0, size);
    assert d * size < size;
    if d > 0.0 {
      MulStrict(0.0, d, size);
    }
    assert d * size >= 0.0;
    assert rem - c * size == d * size;
    assert rem - FitCount(rem, size) as real * size == d * size;
    if rem >= size {
      if q < 1.0 {
        MulStrict(q, 1.0, size);
        assert false;
      }
      assert c >= 1.0;
      assert FitCount(rem, size) >= 1;
    }
  }

  /**
   * The leftover is `rem - count * size`, as the source computes it, non-negative and less than
   * `size`; at least one copy fits when `rem >= size`.
   */
  lemma FloorDivision(rem: real, size: real)
    requires size > 0.0 && rem >= 0.0
    ensures Leftover(rem, size) == rem - FitCount(rem, size) as real * size
    ensures 0.0 <= Leftover(rem, size) < size
    ensures rem >= size ==> FitCount(rem, size) >= 1
  {
    SumCopies(size, FitCount(rem, size));
    FloorBounds(rem, size);
  }

  /**
   * The loop of `fillWithFallbacks` from the unit at index `i` on: each unit that fits is taken
   * `Math.floor(rem / size)` times and the leftover shrinks by that much.
   */
  function Greedy(rem: real, i: nat): Fill
    requires i <= |FALLBACK_SPANS| && rem >= 0.0
    decreases |FALLBACK_SPANS| - i
  {
    if i == |FALLBACK_SPANS| then Fill([], rem)
    else
      var size := FALLBACK_SPANS[i];
      if rem < size then Greedy(rem, i + 1)
      else
        FloorDivision(rem, size);
        var rest := Greedy(Leftover(rem, size), i + 1);
        Fill(Copies(size, FitCount(rem, size)) + rest.segments, rest.remainder)
  }

  /** One round of the loop over the fallback units, as the loop of `FillWithFallbacks` takes it. */
  lemma GreedyStep(rem: real, i: nat)
    requires i < |FALLBACK_SPANS| && rem >= 0.0
    ensures rem < FALLBACK_SPANS[i] ==> Greedy(rem, i) == Greedy(rem, i + 1)
    ensures rem >= FALLBACK_SPANS[i] ==>
              Leftover(rem, FALLBACK_SPANS[i]) >= 0.0 &&
              var size := FALLBACK_SPANS[i];
              var rest := Greedy(Leftover(rem, size), i + 1);
              Greedy(rem, i) == Fill(Copies(size, FitCount(rem, size)) + rest.segments, rest.remainder)
  {
    if rem >= FALLBACK_SPANS[i] {
      FloorDivision(rem, FALLBACK_SPANS[i]);
    }
  }

  /** Every element is a fallback unit no longer than `bound`. */
  predicate UnitsAtMost(s: seq<real>, bound: real) {
    forall j :: 0 <= j < |s| ==> s[j] in FALLBACK_SPANS && s[j] <= bound
  }

  /**
   * The greedy fill of a non-negative length covers it exactly up to its remainder, which is
   * non-negative and, once the 150 mm unit has run, shorter than 150 mm; it uses only the
   * units from index `i` on, longest first.
   */
  lemma {:induction false} GreedyFacts(rem: real, i: nat)
    requires i < |FALLBACK_SPANS| && rem >= 0.0
    ensures var g := Greedy(rem, i);
            && g.remainder == rem - Sum(g.segments)
            && 0.0 <= g.remainder <= rem
            && g.remainder < 150.0
            && UnitsAtMost(g.segments, FALLBACK_SPANS[i])
            && NonIncreasing(g.segments)
    decreases |FALLBACK_SPANS| - i
  {
    FallbackSpansDescending();
    var size := FALLBACK_SPANS[i];
    var last := i == |FALLBACK_SPANS| - 1;
    if rem < size {
      if last {
        assert Greedy(rem, i + 1) == Fill([], rem);
      } else {
        GreedyFacts(rem, i + 1);
      }
    } else {
      FloorDivision(rem, size);
      var next := Leftover(rem, size);
      var rest := Greedy(next, i + 1);
      if last {
        assert rest == Fill([], next);
      } else {
        GreedyFacts(next, i + 1);
      }
      assert Greedy(rem, i) == Fill(Copies(size, FitCount(rem, size)) + rest.segments, rest.remainder);
      SumConcat(Copies(size, FitCount(rem, size)), rest.segments);
      PrependCopies(i, FitCount(rem, size), rest.segments);
    }
  }

  /** Copies of the unit at index `i` in front of shorter units keep the list longest first. */
  lemma PrependCopies(i: nat, count: nat, rest: seq<real>)
    requires i < |FALLBACK_SPANS|
    requires i + 1 < |FALLBACK_SPANS| ==> UnitsAtMost(rest, FALLBACK_SPANS[i + 1])
    requires i + 1 == |FALLBACK_SPANS| ==> rest == []
    requires NonIncreasing(rest)
    ensures var s := Copies(FALLBACK_SPANS[i], count) + rest;
            UnitsAtMost(s, FALLBACK_SPANS[i]) && NonIncreasing(s)
  {
    FallbackSpansDescending();
    var size := FALLBACK_SPANS[i];
    var s := Copies(size, count) + rest;
    forall j | 0 <= j < |s|
      ensures s[j] in FALLBACK_SPANS && s[j] <= size
    {
      if j < count {
        assert s[j] == size;
      } else {
        assert s[j] == rest[j - count];
      }
    }
    forall a, b | 0 <= a < b < |s|
      ensures s[a] >= s[b]
    {
      if b < count {
        assert s[a] == size == s[b];
      } else if a < count {
        assert s[b] == rest[b - count];
      } else {
        assert s[a] == rest[a - count];
        assert s[b] == rest[b - count];
      }
    }
  }

  /**
   * `fillWithFallbacks(remaining)`: nothing to fill within the tolerance, otherwise the greedy
   * fill, accepted only when its leftover is within the tolerance (`null` otherwise).
   */
  function FallbackFill(remaining: real): Option<Fill> {
    if remaining <= TOLERANCE_MM then Some(Fill([], remaining))
    else
      var g := Greedy(remaining, 0);
      if Abs(g.remainder) <= TOLERANCE_MM then Some(g) else None
  }

  /**
   * On a non-negative length the early return for a leftover within the tolerance agrees with
   * the greedy fill, so the fill is accepted exactly when the greedy leftover is at most 1 mm.
   */
  lemma FallbackFillIsGreedy(remaining: real)
    requires remaining >= 0.0
    ensures FallbackFill(remaining)
            == if Greedy(remaining, 0).remainder <= TOLERANCE_MM then Some(Greedy(remaining, 0)) else None
  {
    GreedyFacts(remaining, 0);
    if remaining <= TOLERANCE_MM {
      assert Greedy(remaining, 5) == Fill([], remaining);
      assert Greedy(remaining, 4) == Greedy(remaining, 5);
      assert Greedy(remaining, 3) == Greedy(remaining, 4);
      assert Greedy(remaining, 2) == Greedy(remaining, 3);
      assert Greedy(remaining, 1) == Greedy(remaining, 2);
      assert Greedy(remaining, 0) == Greedy(remaining, 1);
    }
  }

  /** `fillWithFallbacks`, with the loops of the source. */
  method FillWithFallbacks(remaining: real) returns (r: Option<Fill>)
    ensures r == FallbackFill(remaining)
  {
    if remaining <= TOLERANCE_MM {
      return Some(Fill([], remaining));
    }
    var segments, rem := FallbackLoop(remaining);
    if Abs(rem) <= TOLERANCE_MM {
      return Some(Fill(segments, rem));
    }
    return None;
  }

  /**
   * The same loop as it runs: `acc` is what the loop has pushed so far and `rem` what it has
   * left when it reaches the unit at index `i`.
   */
  function GreedyLoop(rem: real, i: nat, acc: seq<real>): Fill
    requires i <= |FALLBACK_SPANS| && rem >= 0.0
    decreases |FALLBACK_SPANS| - i
  {
    if i == |FALLBACK_SPANS| then Fill(acc, rem)
    else
      var size := FALLBACK_SPANS[i];
      if rem < size then GreedyLoop(rem, i + 1, acc)
      else
        FloorDivision(rem, size);
        GreedyLoop(Leftover(rem, size), i + 1, acc + Copies(size, FitCount(rem, size)))
  }

  /** Running the loop from a state appends the recursive fill of its leftover to what was pushed. */
  lemma {:induction false} GreedyLoopIsGreedy(rem: real, i: nat, acc: seq<real>)
    requires i <= |FALLBACK_SPANS| && rem >= 0.0
    ensures GreedyLoop(rem, i, acc) == Fill(acc + Greedy(rem, i).segments, Greedy(rem, i).remainder)
    decreases |FALLBACK_SPANS| - i
  {
    if i == |FALLBACK_SPANS| {
      assert acc + [] == acc;
    } else {
      var size := FALLBACK_SPANS[i];
      GreedyStep(rem, i);
      if rem < size {
        GreedyLoopIsGreedy(rem, i + 1, acc);
      } else {
        var copies := Copies(size, FitCount(rem, size));
        GreedyLoopIsGreedy(Leftover(rem, size), i + 1, acc + copies);
        var rest := Greedy(Leftover(rem, size), i + 1);
        assert acc + copies + rest.segments == acc + (copies + rest.segments);
      }
    }
  }

  /**
   * The `for (const size of FALLBACK_SPANS)` loop of `fillWithFallbacks`. Its `count <= 0`
   * guard cannot fire once `rem >= size` (`FloorDivision`), so it is not repeated here.
   */
  method FallbackLoop(remaining: real) returns (segments: seq<real>, rem: real)
    requires remaining >= 0.0
    ensures Fill(segments, rem) == Greedy(remaining, 0)
  {
    rem := remaining;
    segments := [];
    var i := 0;
    while i < |FALLBACK_SPANS|
      invariant 0 <= i <= |FALLBACK_SPANS| && rem >= 0.0
      invariant GreedyLoop(remaining, 0, []) == GreedyLoop(rem, i, segments)
    {
      var size := FALLBACK_SPANS[i];
      if rem >= size {
        FloorDivision(rem, size);
        var count := FitCount(rem, size);
        segments := PushCopies(segments, size, count);
        rem := Leftover(rem, size);
      }
      i := i + 1;
    }
    GreedyLoopIsGreedy(remaining, 0, []);
    assert [] + Greedy(remaining, 0).segments == Greedy(remaining, 0).segments;
  }

  /** `for (let index = 0; index < count; index += 1) segments.push(size)`. */
  method PushCopies(segments: seq<real>, size: real, count: nat) returns (r: seq<real>)
    ensures r == segments + Copies(size, count)
  {
    r := segments;
    var index := 0;
    while index < count
      invariant 0 <= index <= count
      invariant r == segments + Copies(size, index)
    {
      r := r + [size];
      index := index + 1;
    }
  }

  /** The weight a segment length adds to the penalty (`penaltyWeights`, 10 when absent). */
  function Weight(length: real): int {
    if length == PRIMARY_SPAN then 0
    else if length == 1500.0 then 1
    else if length == 1200.0 then 2
    else if length == 900.0 then 3
    else if length == 600.0 then 4
    else if length == 150.0 then 5
    else 10
  }

  /** Primaries cost nothing, the fallback at index `j` costs `j + 1`, anything else 10. */
  lemma WeightTable(length: real)
    ensures Weight(PRIMARY_SPAN) == 0
    ensures forall j :: 0 <= j < |FALLBACK_SPANS| ==> Weight(FALLBACK_SPANS[j]) == j + 1
    ensures !IsSpanLength(length) ==> Weight(length) == 10
  {
  }

  /** The penalty half of `scoreSegments`: the sum of the weights. */
  function Penalty(s: seq<real>): int {
    if |s| == 0 then 0 else Penalty(s[..|s| - 1]) + Weight(s[|s| - 1])
  }

  lemma {:induction false} PenaltyConcat(a: seq<real>, b: seq<real>)
    ensures Penalty(a + b) == Penalty(a) + Penalty(b)
  {
    if |b| == 0 {
      assert a + b == a;
    } else {
      assert (a + b)[..|a + b| - 1] == a + b[..|b| - 1];
      PenaltyConcat(a, b[..|b| - 1]);
    }
  }

  lemma {:induction false} PenaltyCopies(x: real, count: nat)
    ensures Penalty(Copies(x, count)) == count * Weight(x)
  {
    if count > 0 {
      PenaltyCopies(x, count - 1);
      assert Copies(x, count)[..count - 1] == Copies(x, count - 1);
    }
  }

  /** `candidateScore` beats `currentScore`: fewer segments, or as many and a smaller penalty. */
  predicate Better(a: seq<real>, b: seq<real>) {
    |a| < |b| || (|a| == |b| && Penalty(a) < Penalty(b))
  }

  /** The candidate with `k` primaries, or `None` when its leftover cannot be filled. */
  function Candidate(length: real, k: nat): Option<Fill> {
    var base := Copies(PRIMARY_SPAN, k);
    var rest := length - k as real * PRIMARY_SPAN;
    if Abs(rest) <= TOLERANCE_MM then Some(Fill(base, rest))
    else
      match FallbackFill(rest)
      case None => None
      case Some(f) => Some(Fill(base + f.segments, f.remainder))
  }

  /** The replacement rule: a candidate replaces the best so far only when strictly better. */
  function Pick(best: Option<Fill>, candidate: Option<Fill>): Option<Fill> {
    if candidate.None? then best
    else if best.None? then candidate
    else if Better(candidate.value.segments, best.value.segments) then candidate
    else best
  }

  /** The candidates for one length, by number of primaries. */
  function CandidatesOf(length: real): nat -> Option<Fill> {
    (k: nat) => Candidate(length, k)
  }

  /** The `primaryCount` loop from `k` down to 0 over the candidates `cands`, starting from `best`. */
  function Scan(cands: nat -> Option<Fill>, k: int, best: Option<Fill>): Option<Fill>
    decreases k + 1
  {
    if k < 0 then best else Scan(cands, k - 1, Pick(best, cands(k as nat)))
  }

  function MaxPrimaries(length: real): int {
    (length / PRIMARY_SPAN).Floor
  }

  /** `planSpans`. */
  function PlanSpec(lengthMm: Num): PlanResult {
    if !lengthMm.Finite? || lengthMm.value < FALLBACK_SPANS[|FALLBACK_SPANS| - 1] then InsufficientLength
    else
      match Scan(CandidatesOf(lengthMm.value), MaxPrimaries(lengthMm.value), None)
      case None => InsufficientLength
      case Some(p) => Planned(p.segments, p.remainder)
  }

  /** The first half of the `primaryCount` loop body: the candidate with `primaryCount` primaries. */
  method BuildCandidate(length: real, primaryCount: nat) returns (candidate: Option<Fill>)
    ensures candidate == Candidate(length, primaryCount)
  {
    var baseSegments := PushCopies([], PRIMARY_SPAN, primaryCount);
    assert baseSegments == Copies(PRIMARY_SPAN, primaryCount);
    var remainderAfterPrimary := length - primaryCount as real * PRIMARY_SPAN;
    candidate := None;
    if Abs(remainderAfterPrimary) <= TOLERANCE_MM {
      candidate := Some(Fill(baseSegments, remainderAfterPrimary));
    } else {
      var fallbackResult := FillWithFallbacks(remainderAfterPrimary);
      if fallbackResult.Some? {
        candidate := Some(Fill(baseSegments + fallbackResult.value.segments, fallbackResult.value.remainder));
      }
    }
  }

  /** `planSpans`, with the loops of the source. */
  method PlanSpans(lengthMm: Num) returns (r: PlanResult)
    ensures r == PlanSpec(lengthMm)
  {
    if !lengthMm.Finite? || lengthMm.value < FALLBACK_SPANS[|FALLBACK_SPANS| - 1] {
      return InsufficientLength;
    }
    var length := lengthMm.value;
    var maxPrimaries := (length / PRIMARY_SPAN).Floor;
    var best: Option<Fill> := None;
    var primaryCount := maxPrimaries;
    while primaryCount >= 0
      invariant primaryCount >= -1
      invariant Scan(CandidatesOf(length), primaryCount, best) == Scan(CandidatesOf(length), maxPrimaries, None)
      decreases primaryCount + 1
    {
      var candidate := BuildCandidate(length, primaryCount);
      if candidate.Some? {
        if best.None? {
          best := candidate;
        } else {
          var currentScore := (|best.value.segments|, Penalty(best.value.segments));
          var candidateScore := (|candidate.value.segments|, Penalty(candidate.value.segments));
          if candidateScore.0 < currentScore.0
             || (candidateScore.0 == currentScore.0 && candidateScore.1 < currentScore.1) {
            best := candidate;
          }
        }
      }
      primaryCount := primaryCount - 1;
    }
    if best.Some? {
      return Planned(best.value.segments, best.value.remainder);
    }
    return InsufficientLength;
  }

  /**
   * A candidate with no more primaries than fit covers the length up to a remainder between 0
   * and 1 mm: its first `k` segments are primaries, the rest fallback units, longest first.
   */
  lemma CandidateFacts(length: real, k: nat)
    requires k as real * PRIMARY_SPAN <= length
    ensures Candidate(length, k).Some? ==>
              var c := Candidate(length, k).value;
              && c.remainder == length - Sum(c.segments)
              && 0.0 <= c.remainder <= TOLERANCE_MM
              && k <= |c.segments|
              && (forall j :: 0 <= j < k ==> c.segments[j] == PRIMARY_SPAN)
              && (forall j :: k <= j < |c.segments| ==> c.segments[j] in FALLBACK_SPANS)
              && NonIncreasing(c.segments)
  {
    var base := Copies(PRIMARY_SPAN, k);
    var rest := length - k as real * PRIMARY_SPAN;
    SumCopies(PRIMARY_SPAN, k);
    if Abs(rest) <= TOLERANCE_MM {
      PrimariesThenUnits(k, []);
      assert base + [] == base;
    } else if FallbackFill(rest).Some? {
      var g := Greedy(rest, 0);
      GreedyFacts(rest, 0);
      assert Candidate(length, k).value == Fill(base + g.segments, g.remainder);
      SumConcat(base, g.segments);
      PrimariesThenUnits(k, g.segments);
    }
  }

  /** Primaries in front of fallback units, longest first, keep the list longest first. */
  lemma PrimariesThenUnits(k: nat, tail: seq<real>)
    requires UnitsAtMost(tail, FALLBACK_SPANS[0]) && NonIncreasing(tail)
    ensures var s := Copies(PRIMARY_SPAN, k) + tail;
            && k <= |s|
            && (forall j :: 0 <= j < k ==> s[j] == PRIMARY_SPAN)
            && (forall j :: k <= j < |s| ==> s[j] in FALLBACK_SPANS)
            && NonIncreasing(s)
  {
    var s := Copies(PRIMARY_SPAN, k) + tail;
    forall j | k <= j < |s|
      ensures s[j] in FALLBACK_SPANS && s[j] <= FALLBACK_SPANS[0]
    {
      assert s[j] == tail[j - k];
    }
    forall a, b | 0 <= a < b < |s|
      ensures s[a] >= s[b]
    {
      if k <= a {
        assert s[a] == tail[a - k] && s[b] == tail[b - k];
      }
    }
  }

  /** The candidate the replacement rule keeps is the old best or strictly better than it. */
  lemma PickFacts(best: Option<Fill>, candidate: Option<Fill>)
    ensures Pick(best, candidate).Some? <==> best.Some? || candidate.Some?
    ensures best.Some? ==> Pick(best, candidate) == best
                           || Better(Pick(best, candidate).value.segments, best.value.segments)
    ensures candidate.Some? ==> !Better(candidate.value.segments, Pick(best, candidate).value.segments)
    ensures Pick(best, candidate) == best || Pick(best, candidate) == candidate
  {
  }

  /** Scanning never loses a plan and only ever trades it for a strictly better one. */
  lemma {:induction false} ScanImproves(cands: nat -> Option<Fill>, k: int, best: Option<Fill>)
    ensures best.Some? ==> var r := Scan(cands, k, best);
              r.Some? && (r == best || Better(r.value.segments, best.value.segments))
    decreases k + 1
  {
    if k >= 0 {
      var next := Pick(best, cands(k as nat));
      PickFacts(best, cands(k as nat));
      ScanImproves(cands, k - 1, next);
    }
  }

  /**
   * The scan finds a plan exactly when it starts with one or some candidate is accepted, and no
   * accepted candidate is strictly better than the plan it ends with.
   */
  lemma {:induction false} ScanAtLeastAsGood(cands: nat -> Option<Fill>, k: int, best: Option<Fill>)
    ensures Scan(cands, k, best).Some? <==> best.Some? || exists j: nat :: j <= k && cands(j).Some?
    ensures forall j: nat :: j <= k && cands(j).Some? ==>
              Scan(cands, k, best).Some?
              && !Better(cands(j).value.segments, Scan(cands, k, best).value.segments)
    decreases k + 1
  {
    if k >= 0 {
      var c := cands(k as nat);
      var next := Pick(best, c);
      PickFacts(best, c);
      ScanAtLeastAsGood(cands, k - 1, next);
      ScanImproves(cands, k - 1, next);
      var r := Scan(cands, k, best);
      assert r == Scan(cands, k - 1, next);
      if r.Some? && !best.Some? && c.None? {
        var j: nat :| j <= k - 1 && cands(j).Some?;
      }
    }
  }

  /**
   * The scan ends with its starting plan, or with a candidate strictly better than every
   * accepted candidate with more primaries (scanned before it) and than the starting plan.
   */
  lemma {:induction false} ScanWinner(cands: nat -> Option<Fill>, k: int, best: Option<Fill>)
    ensures var r := Scan(cands, k, best);
            r == best
            || exists w: nat :: w <= k && cands(w) == r && r.Some?
                 && (forall j: nat :: w < j <= k && cands(j).Some? ==>
                       Better(r.value.segments, cands(j).value.segments))
                 && (best.Some? ==> Better(r.value.segments, best.value.segments))
    decreases k + 1
  {
    if k >= 0 {
      var c := cands(k as nat);
      var next := Pick(best, c);
      PickFacts(best, c);
      ScanWinner(cands, k - 1, next);
      var r := Scan(cands, k, best);
      assert r == Scan(cands, k - 1, next);
      if r != best {
        if r == next {
          assert cands(k as nat) == r;
        } else {
          var w: nat :| w <= k - 1 && cands(w) == r && r.Some?
                 && (forall j: nat :: w < j <= k - 1 && cands(j).Some? ==>
                       Better(r.value.segments, cands(j).value.segments))
                 && (next.Some? ==> Better(r.value.segments, next.value.segments));
          assert forall j: nat :: w < j <= k && cands(j).Some? ==>
                   Better(r.value.segments, cands(j).value.segments) by {
            forall j: nat | w < j <= k && cands(j).Some?
              ensures Better(r.value.segments, cands(j).value.segments)
            {
              if j == k {
                assert next.Some?;
              }
            }
          }
        }
      }
    }
  }

  /** With `k` no larger than `Math.floor(length / 1800)`, the `k` primaries fit into the length. */
  lemma PrimariesFit(length: real, k: nat)
    requires k <= MaxPrimaries(length)
    ensures k as real * PRIMARY_SPAN <= length
  {
  }

  /**
   * `planSpans` fails exactly when the length is not finite, is shorter than the smallest unit,
   * or no number of primaries from `Math.floor(length / 1800)` down to 0 gives an accepted
   * candidate.
   */
  lemma PlanSpansFailure(lengthMm: Num)
    ensures PlanSpec(lengthMm) == InsufficientLength
            <==> !lengthMm.Finite? || lengthMm.value < 150.0
                 || forall k: nat :: k <= MaxPrimaries(lengthMm.value) ==> Candidate(lengthMm.value, k).None?
  {
    if lengthMm.Finite? && lengthMm.value >= 150.0 {
      var length := lengthMm.value;
      var cands := CandidatesOf(length);
      var top := MaxPrimaries(length);
      ScanAtLeastAsGood(cands, top, None);
      assert PlanSpec(lengthMm) == InsufficientLength <==> Scan(cands, top, None).None?;
      if exists j: nat :: j <= top && cands(j).Some? {
        var j: nat :| j <= top && cands(j).Some?;
        assert Candidate(length, j).Some?;
      } else {
        forall k: nat | k <= top
          ensures Candidate(length, k).None?
        {
          assert cands(k).None?;
        }
      }
    }
  }

  /** A scan from no plan that ends with a plan ends with the accepted candidate that no other
      beats, and that strictly beats every candidate scanned before it. */
  lemma ScanOptimal(cands: nat -> Option<Fill>, top: int)
    requires Scan(cands, top, None).Some?
    ensures var r := Scan(cands, top, None);
            exists w: nat :: w <= top && cands(w) == r
              && forall k: nat :: k <= top && cands(k).Some? ==>
                   && !Better(cands(k).value.segments, r.value.segments)
                   && (w < k ==> Better(r.value.segments, cands(k).value.segments))
  {
    ScanAtLeastAsGood(cands, top, None);
    ScanWinner(cands, top, None);
  }

  /**
   * A plan is the accepted candidate with the fewest segments and then the smallest penalty;
   * among equally good candidates it is the one with the most primaries, because a later
   * candidate replaces the best so far only when strictly better.
   */
  lemma PlanSpansOptimal(lengthMm: Num) returns (w: nat)
    requires PlanSpec(lengthMm).Planned?
    ensures lengthMm.Finite? && lengthMm.value >= 150.0
    ensures var length := lengthMm.value;
            var plan := PlanSpec(lengthMm);
            && w <= MaxPrimaries(length)
            && Candidate(length, w) == Some(Fill(plan.segments, plan.remainder))
            && forall k: nat :: k <= MaxPrimaries(length) && Candidate(length, k).Some? ==>
                 && !Better(Candidate(length, k).value.segments, plan.segments)
                 && (w < k ==> Better(plan.segments, Candidate(length, k).value.segments))
  {
    var length := lengthMm.value;
    var cands := CandidatesOf(length);
    var top := MaxPrimaries(length);
    var r := Scan(cands, top, None);
    var plan := PlanSpec(lengthMm);
    assert r == Some(Fill(plan.segments, plan.remainder));
    ScanOptimal(cands, top);
    w :| w <= top && cands(w) == r
         && forall k: nat :: k <= top && cands(k).Some? ==>
              && !Better(cands(k).value.segments, r.value.segments)
              && (w < k ==> Better(r.value.segments, cands(k).value.segments));
    assert Candidate(length, w) == r;
    forall k: nat | k <= top && Candidate(length, k).Some?
      ensures && !Better(Candidate(length, k).value.segments, plan.segments)
              && (w < k ==> Better(plan.segments, Candidate(length, k).value.segments))
    {
      assert cands(k) == Candidate(length, k);
    }
  }

  /**
   * Every segment of a plan is a standard span length, the 1800 mm primaries come first and the
   * list is longest first; the remainder is the uncovered length, between 0 and 1 mm.
   */
  lemma PlanSpansShape(lengthMm: Num)
    requires PlanSpec(lengthMm).Planned?
    ensures var plan := PlanSpec(lengthMm);
            && (forall j :: 0 <= j < |plan.segments| ==> IsSpanLength(plan.segments[j]))
            && NonIncreasing(plan.segments)
            && plan.remainder == lengthMm.value - Sum(plan.segments)
            && 0.0 <= plan.remainder <= TOLERANCE_MM
  {
    var w := PlanSpansOptimal(lengthMm);
    var length := lengthMm.value;
    var plan := PlanSpec(lengthMm);
    PrimariesFit(length, w);
    CandidateFacts(length, w);
  }

  /** A unit longer than the leftover is skipped. */
  lemma GreedySkip(rem: real, i: nat)
    requires i < |FALLBACK_SPANS| && 0.0 <= rem < FALLBACK_SPANS[i]
    ensures Greedy(rem, i) == Greedy(rem, i + 1)
  {
    GreedyStep(rem, i);
  }

  /** A unit that fits `n` times is pushed `n` times and the loop goes on with the rest. */
  lemma GreedyTake(rem: real, i: nat, n: nat, left: real)
    requires i < |FALLBACK_SPANS| && rem >= FALLBACK_SPANS[i]
    requires FitCount(rem, FALLBACK_SPANS[i]) == n && left == Leftover(rem, FALLBACK_SPANS[i])
    ensures left >= 0.0
    ensures Greedy(rem, i) == Fill(Copies(FALLBACK_SPANS[i], n) + Greedy(left, i + 1).segments, Greedy(left, i + 1).remainder)
  {
    GreedyStep(rem, i);
  }

  /** Nothing is left to fill once the leftover is shorter than 150 mm and the 150 mm unit is reached. */
  lemma GreedyDone(rem: real)
    requires 0.0 <= rem < 150.0
    ensures Greedy(rem, 4) == Fill([], rem)
  {
    GreedySkip(rem, 4);
  }

  /** The concrete count and leftover of one unit, for the worked examples below. */
  lemma TakeCount(rem: real, i: nat, n: nat)
    requires i < |FALLBACK_SPANS| && rem >= 0.0
    requires n as real * FALLBACK_SPANS[i] <= rem < (n + 1) as real * FALLBACK_SPANS[i]
    ensures FitCount(rem, FALLBACK_SPANS[i]) == n
    ensures Leftover(rem, FALLBACK_SPANS[i]) == rem - n as real * FALLBACK_SPANS[i]
  {
    var size := FALLBACK_SPANS[i];
    FloorDivision(rem, size);
    var c := FitCount(rem, size);
    assert c == n by {
      if c < n {
        MulWeak(c as real + 1.0, n as real, size);
      } else if c > n {
        MulWeak((n + 1) as real, c as real, size);
      }
    }
  }

  /** With less than 600 mm left, only the 150 mm unit is taken, `n` times. */
  lemma GreedySmallestOnly(rem: real, n: nat)
    requires 0.0 <= rem < 600.0 && n as real * 150.0 <= rem < (n + 1) as real * 150.0
    ensures Greedy(rem, 1) == Fill(Copies(150.0, n), rem - n as real * 150.0)
  {
    GreedySkip(rem, 1);
    GreedySkip(rem, 2);
    GreedySkip(rem, 3);
    if n == 0 {
      GreedyDone(rem);
    } else {
      var left := rem - n as real * 150.0;
      TakeCount(rem, 4, n);
      GreedyTake(rem, 4, n, left);
      assert Greedy(left, 5) == Fill([], left);
    }
  }

  /** An exact 600 mm leftover takes one 600 mm unit. */
  lemma Greedy600From1()
    ensures Greedy(600.0, 1) == Fill([600.0], 0.0)
  {
    GreedySkip(600.0, 1);
    GreedySkip(600.0, 2);
    TakeCount(600.0, 3, 1);
    GreedyTake(600.0, 3, 1, 0.0);
    GreedyDone(0.0);
    assert Copies(600.0, 1) == [600.0];
  }

  /** Nothing is taken from an empty leftover. */
  lemma {:induction false} GreedyOfZero(i: nat)
    requires i <= |FALLBACK_SPANS|
    ensures Greedy(0.0, i) == Fill([], 0.0)
    decreases |FALLBACK_SPANS| - i
  {
    if i < |FALLBACK_SPANS| {
      GreedySkip(0.0, i);
      GreedyOfZero(i + 1);
    }
  }

  lemma PenaltyPair150()
    ensures Penalty([150.0, 150.0]) == 10
  {
    assert [150.0, 150.0][..1] == [150.0];
  }

  lemma GreedyOf300()
    ensures Greedy(300.0, 0) == Fill([150.0, 150.0], 0.0)
    ensures Penalty(Greedy(300.0, 0).segments) == 10
  {
    GreedySkip(300.0, 0);
    GreedySmallestOnly(300.0, 2);
    assert Copies(150.0, 2) == [150.0, 150.0];
    PenaltyPair150();
  }

  lemma GreedyOf2100()
    ensures Greedy(2100.0, 0) == Fill([1500.0, 600.0], 0.0)
    ensures Penalty(Greedy(2100.0, 0).segments) == 5
  {
    TakeCount(2100.0, 0, 1);
    GreedyTake(2100.0, 0, 1, 600.0);
    Greedy600From1();
    assert Copies(1500.0, 1) == [1500.0];
    assert Penalty([1500.0, 600.0]) == 5 by {
      assert [1500.0, 600.0][..1] == [1500.0];
    }
  }

  lemma Fill3900()
    ensures Greedy(3900.0, 0) == Fill([1500.0, 1500.0, 900.0], 0.0)
  {
    TakeCount(3900.0, 0, 2);
    GreedyTake(3900.0, 0, 2, 900.0);
    GreedySkip(900.0, 1);
    TakeCount(900.0, 2, 1);
    GreedyTake(900.0, 2, 1, 0.0);
    GreedyOfZero(3);
    assert Copies(1500.0, 2) == [1500.0, 1500.0];
    assert Copies(900.0, 1) == [900.0];
  }

  lemma Penalty3900()
    ensures Penalty([1500.0, 1500.0, 900.0]) == 5
  {
    assert [1500.0, 1500.0, 900.0][..2] == [1500.0, 1500.0];
    assert [1500.0, 1500.0][..1] == [1500.0];
    assert [1500.0][..0] == [];
  }

  lemma GreedyOf3900()
    ensures Greedy(3900.0, 0) == Fill([1500.0, 1500.0, 900.0], 0.0)
    ensures Penalty(Greedy(3900.0, 0).segments) == 5
  {
    Fill3900();
    Penalty3900();
  }

  lemma Fill5700()
    ensures Greedy(5700.0, 0) == Fill([1500.0, 1500.0, 1500.0, 1200.0], 0.0)
  {
    TakeCount(5700.0, 0, 3);
    GreedyTake(5700.0, 0, 3, 1200.0);
    TakeCount(1200.0, 1, 1);
    GreedyTake(1200.0, 1, 1, 0.0);
    GreedyOfZero(2);
    assert Copies(1500.0, 3) == [1500.0, 1500.0, 1500.0];
    assert Copies(1200.0, 1) == [1200.0];
  }

  lemma Penalty5700()
    ensures Penalty([1500.0, 1500.0, 1500.0, 1200.0]) == 5
  {
    assert [1500.0, 1500.0, 1500.0, 1200.0][..3] == [1500.0, 1500.0, 1500.0];
    assert [1500.0, 1500.0, 1500.0][..2] == [1500.0, 1500.0];
    assert [1500.0, 1500.0][..1] == [1500.0];
    assert [1500.0][..0] == [];
  }

  lemma GreedyOf5700()
    ensures Greedy(5700.0, 0) == Fill([1500.0, 1500.0, 1500.0, 1200.0], 0.0)
    ensures Penalty(Greedy(5700.0, 0).segments) == 5
  {
    Fill5700();
    Penalty5700();
  }

  lemma GreedyOf7500()
    ensures Greedy(7500.0, 0) == Fill([1500.0, 1500.0, 1500.0, 1500.0, 1500.0], 0.0)
    ensures Penalty(Greedy(7500.0, 0).segments) == 5
  {
    TakeCount(7500.0, 0, 5);
    GreedyTake(7500.0, 0, 5, 0.0);
    GreedyOfZero(1);
    assert Copies(1500.0, 5) == [1500.0, 1500.0, 1500.0, 1500.0, 1500.0];
    PenaltyCopies(1500.0, 5);
  }

  lemma Fill9300()
    ensures Greedy(9300.0, 0) == Fill([1500.0, 1500.0, 1500.0, 1500.0, 1500.0, 1500.0, 150.0, 150.0], 0.0)
  {
    TakeCount(9300.0, 0, 6);
    GreedyTake(9300.0, 0, 6, 300.0);
    GreedySmallestOnly(300.0, 2);
    assert Copies(1500.0, 6) == [1500.0, 1500.0, 1500.0, 1500.0, 1500.0, 1500.0];
    assert Copies(150.0, 2) == [150.0, 150.0];
  }

  lemma Penalty9300()
    ensures Penalty([1500.0, 1500.0, 1500.0, 1500.0, 1500.0, 1500.0, 150.0, 150.0]) == 16
  {
    var s := [1500.0, 1500.0, 1500.0, 1500.0, 1500.0, 1500.0, 150.0, 150.0];
    assert s == Copies(1500.0, 6) + [150.0, 150.0];
    PenaltyConcat(Copies(1500.0, 6), [150.0, 150.0]);
    PenaltyCopies(1500.0, 6);
    PenaltyPair150();
  }

  lemma GreedyOf9300()
    ensures Greedy(9300.0, 0) == Fill([1500.0, 1500.0, 1500.0, 1500.0, 1500.0, 1500.0, 150.0, 150.0], 0.0)
    ensures Penalty(Greedy(9300.0, 0).segments) == 16
  {
    Fill9300();
    Penalty9300();
  }

  /** A candidate whose leftover needs the fallback fill, and whose fill is accepted. */
  lemma CandidateByFill(length: real, k: nat, rest: real, g: Fill)
    requires rest == length - k as real * PRIMARY_SPAN && rest > TOLERANCE_MM
    requires Greedy(rest, 0) == g && Abs(g.remainder) <= TOLERANCE_MM
    ensures Candidate(length, k) == Some(Fill(Copies(PRIMARY_SPAN, k) + g.segments, g.remainder))
  {
  }

  /** After the winner, candidates that are not strictly better leave it in place. */
  lemma ScanKeeps(cands: nat -> Option<Fill>, k: int, best: Fill)
    requires forall j: nat :: j <= k && cands(j).Some? ==> !Better(cands(j).value.segments, best.segments)
    ensures Scan(cands, k, Some(best)) == Some(best)
    decreases k + 1
  {
    if k >= 0 {
      ScanKeeps(cands, k - 1, best);
    }
  }

  /** The length and penalty of a candidate built from `k` primaries and an accepted fill `g`. */
  lemma ScoredCandidate(length: real, k: nat, rest: real, g: Fill, count: nat, penalty: int)
    requires rest == length - k as real * PRIMARY_SPAN && rest > TOLERANCE_MM
    requires Greedy(rest, 0) == g && Abs(g.remainder) <= TOLERANCE_MM
    requires |g.segments| == count && Penalty(g.segments) == penalty
    ensures Candidate(length, k) == Some(Fill(Copies(PRIMARY_SPAN, k) + g.segments, g.remainder))
    ensures |Candidate(length, k).value.segments| == k + count
    ensures Penalty(Candidate(length, k).value.segments) == penalty
  {
    CandidateByFill(length, k, rest, g);
    PenaltyConcat(Copies(PRIMARY_SPAN, k), g.segments);
    PenaltyCopies(PRIMARY_SPAN, k);
  }

  lemma Candidate9300Five()
    ensures Candidate(9300.0, 5).Some? && |Candidate(9300.0, 5).value.segments| == 7
  {
    GreedyOf300();
    ScoredCandidate(9300.0, 5, 300.0, Greedy(300.0, 0), 2, 10);
  }

  lemma Candidate9300Four()
    ensures Candidate(9300.0, 4) == Some(Fill([1800.0, 1800.0, 1800.0, 1800.0, 1500.0, 600.0], 0.0))
    ensures Penalty(Candidate(9300.0, 4).value.segments) == 5
  {
    GreedyOf2100();
    ScoredCandidate(9300.0, 4, 2100.0, Greedy(2100.0, 0), 2, 5);
    FourPrimariesThen(1500.0, 600.0);
  }

  lemma FourPrimariesThen(a: real, b: real)
    ensures Copies(PRIMARY_SPAN, 4) + [a, b] == [1800.0, 1800.0, 1800.0, 1800.0, a, b]
  {
    assert Copies(PRIMARY_SPAN, 4) == [1800.0, 1800.0, 1800.0, 1800.0];
  }

  /** The candidates for 9300 mm with five and four primaries. */
  lemma Candidates9300High()
    ensures Candidate(9300.0, 5).Some? && |Candidate(9300.0, 5).value.segments| == 7
    ensures Candidate(9300.0, 4) == Some(Fill([1800.0, 1800.0, 1800.0, 1800.0, 1500.0, 600.0], 0.0))
    ensures Penalty(Candidate(9300.0, 4).value.segments) == 5
  {
    Candidate9300Five();
    Candidate9300Four();
  }

  /** A candidate with six segments and penalty 5. */
  predicate TiesWithFour(c: Option<Fill>) {
    c.Some? && |c.value.segments| == 6 && Penalty(c.value.segments) == 5
  }

  lemma Candidate9300Three()
    ensures TiesWithFour(Candidate(9300.0, 3))
  {
    GreedyOf3900();
    ScoredCandidate(9300.0, 3, 3900.0, Greedy(3900.0, 0), 3, 5);
  }

  lemma Candidate9300Two()
    ensures TiesWithFour(Candidate(9300.0, 2))
  {
    GreedyOf5700();
    ScoredCandidate(9300.0, 2, 5700.0, Greedy(5700.0, 0), 4, 5);
  }

  lemma Candidate9300One()
    ensures TiesWithFour(Candidate(9300.0, 1))
  {
    GreedyOf7500();
    ScoredCandidate(9300.0, 1, 7500.0, Greedy(7500.0, 0), 5, 5);
  }

  /** The candidates for 9300 mm with three, two and one primaries tie with four primaries. */
  lemma Candidates9300Mid(k: nat)
    requires 1 <= k <= 3
    ensures Candidate(9300.0, k).Some?
    ensures |Candidate(9300.0, k).value.segments| == 6
    ensures Penalty(Candidate(9300.0, k).value.segments) == 5
  {
    if k == 3 {
      Candidate9300Three();
    } else if k == 2 {
      Candidate9300Two();
    } else {
      Candidate9300One();
    }
  }

  /** The candidate for 9300 mm with no primaries. */
  lemma Candidate9300Zero()
    ensures Candidate(9300.0, 0).Some? && |Candidate(9300.0, 0).value.segments| == 8
  {
    GreedyOf9300();
    ScoredCandidate(9300.0, 0, 9300.0, Greedy(9300.0, 0), 8, 16);
  }

  /** No candidate for 9300 mm with at most three primaries beats the one with four. */
  lemma Ties9300()
    ensures Candidate(9300.0, 4).Some?
    ensures forall j: nat :: j <= 3 && Candidate(9300.0, j).Some? ==>
              !Better(Candidate(9300.0, j).value.segments, Candidate(9300.0, 4).value.segments)
  {
    Candidates9300High();
    Candidate9300Zero();
    forall j: nat | j <= 3 && Candidate(9300.0, j).Some?
      ensures !Better(Candidate(9300.0, j).value.segments, Candidate(9300.0, 4).value.segments)
    {
      if j > 0 {
        Candidates9300Mid(j);
      }
    }
  }

  /** 9300 mm: `k` = 4, 3, 2 and 1 all give six segments with penalty 5; the first of them wins. */
  lemma PlanSpans9300()
    ensures PlanSpec(Finite(9300.0)) == Planned([1800.0, 1800.0, 1800.0, 1800.0, 1500.0, 600.0], 0.0)
  {
    var cands := CandidatesOf(9300.0);
    assert MaxPrimaries(9300.0) == 5;
    Candidates9300High();
    var best := cands(4).value;
    assert Scan(cands, 5, None) == Scan(cands, 3, Some(best));
    Ties9300();
    ScanKeeps(cands, 3, best);
  }

  lemma GreedyOf1800()
    ensures Greedy(1800.0, 0) == Fill([1500.0, 150.0, 150.0], 0.0)
  {
    TakeCount(1800.0, 0, 1);
    GreedyTake(1800.0, 0, 1, 300.0);
    GreedySmallestOnly(300.0, 2);
    assert Copies(1500.0, 1) == [1500.0];
    assert Copies(150.0, 2) == [150.0, 150.0];
  }

  lemma GreedyOf3600()
    ensures Greedy(3600.0, 0) == Fill([1500.0, 1500.0, 600.0], 0.0)
  {
    TakeCount(3600.0, 0, 2);
    GreedyTake(3600.0, 0, 2, 600.0);
    Greedy600From1();
    assert Copies(1500.0, 2) == [1500.0, 1500.0];
  }

  lemma GreedyOf1801()
    ensures Greedy(1801.0, 0) == Fill([1500.0, 150.0, 150.0], 1.0)
  {
    TakeCount(1801.0, 0, 1);
    GreedyTake(1801.0, 0, 1, 301.0);
    GreedySmallestOnly(301.0, 2);
    assert Copies(1500.0, 1) == [1500.0];
    assert Copies(150.0, 2) == [150.0, 150.0];
  }

  lemma GreedyOf200()
    ensures Greedy(200.0, 0) == Fill([150.0], 50.0)
  {
    GreedySkip(200.0, 0);
    GreedySmallestOnly(200.0, 1);
    assert Copies(150.0, 1) == [150.0];
  }

  /** 2100 mm: one primary leaves 300 mm for two 150 mm units; 1500 + 600 uses fewer segments. */
  lemma PlanSpans2100()
    ensures PlanSpec(Finite(2100.0)) == Planned([1500.0, 600.0], 0.0)
  {
    var cands := CandidatesOf(2100.0);
    assert MaxPrimaries(2100.0) == 1;
    GreedyOf300();
    CandidateByFill(2100.0, 1, 300.0, Greedy(300.0, 0));
    assert |cands(1).value.segments| == 3;
    GreedyOf2100();
    CandidateByFill(2100.0, 0, 2100.0, Greedy(2100.0, 0));
    assert Copies(PRIMARY_SPAN, 0) + [1500.0, 600.0] == [1500.0, 600.0];
    assert Scan(cands, 1, None) == Scan(cands, -1, cands(0));
  }

  /** 3600 mm: two primaries fit exactly and beat both fallback plans. */
  lemma PlanSpans3600()
    ensures PlanSpec(Finite(3600.0)) == Planned([1800.0, 1800.0], 0.0)
  {
    var cands := CandidatesOf(3600.0);
    assert MaxPrimaries(3600.0) == 2;
    assert Copies(PRIMARY_SPAN, 2) == [1800.0, 1800.0];
    assert cands(2) == Some(Fill([1800.0, 1800.0], 0.0));
    GreedyOf1800();
    CandidateByFill(3600.0, 1, 1800.0, Greedy(1800.0, 0));
    assert |cands(1).value.segments| == 4;
    GreedyOf3600();
    CandidateByFill(3600.0, 0, 3600.0, Greedy(3600.0, 0));
    assert |cands(0).value.segments| == 3;
    assert Scan(cands, 2, None) == Scan(cands, -1, cands(2));
  }

  /** 1801 mm: one primary leaves 1 mm, within tolerance, and is kept as the remainder. */
  lemma PlanSpans1801()
    ensures PlanSpec(Finite(1801.0)) == Planned([1800.0], 1.0)
  {
    var cands := CandidatesOf(1801.0);
    assert MaxPrimaries(1801.0) == 1;
    assert Copies(PRIMARY_SPAN, 1) == [1800.0];
    assert cands(1) == Some(Fill([1800.0], 1.0));
    GreedyOf1801();
    CandidateByFill(1801.0, 0, 1801.0, Greedy(1801.0, 0));
    assert |cands(0).value.segments| == 3;
    assert Scan(cands, 1, None) == Scan(cands, -1, cands(1));
  }

  /** 200 mm: one 150 mm unit leaves 50 mm, more than the tolerance, so nothing fits. */
  lemma PlanSpans200()
    ensures PlanSpec(Finite(200.0)) == InsufficientLength
  {
    var cands := CandidatesOf(200.0);
    assert MaxPrimaries(200.0) == 0;
    GreedyOf200();
    assert FallbackFill(200.0) == None;
    assert cands(0) == None;
    assert Scan(cands, 0, None) == None;
  }

  /** Anything shorter than the smallest unit is rejected before any candidate is built. */
  lemma PlanSpans149()
    ensures PlanSpec(Finite(149.0)) == InsufficientLength
    ensures PlanSpec(NaN) == InsufficientLength && PlanSpec(PositiveInfinity) == InsufficientLength
  {
  }
}

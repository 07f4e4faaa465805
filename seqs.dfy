/** Sequence operations that the source gets from `Array.prototype` (`filter`, `reduce`, `join`). */
module Seqs {
  import opened Wrappers

  /** `list.filter(keep)`: the elements that satisfy `keep`, in their original order. */
  function Filter<T>(s: seq<T>, keep: T -> bool): (r: seq<T>)
    ensures |r| <= |s|
  {
    if |s| == 0 then [] else Filter(s[..|s| - 1], keep) + (if keep(s[|s| - 1]) then [s[|s| - 1]] else [])
  }

  /** What filtering keeps: exactly the elements that pass. */
  lemma {:induction false} FilterMembers<T>(s: seq<T>, keep: T -> bool)
    ensures forall i :: 0 <= i < |Filter(s, keep)| ==> Filter(s, keep)[i] in s && keep(Filter(s, keep)[i])
    ensures forall i :: 0 <= i < |s| && keep(s[i]) ==> s[i] in Filter(s, keep)
  {
    if |s| > 0 {
      var init := s[..|s| - 1];
      FilterMembers(init, keep);
      forall i | 0 <= i < |s| && keep(s[i])
        ensures s[i] in Filter(s, keep)
      {
        if i < |s| - 1 {
          assert s[i] == init[i];
        }
      }
      forall i | 0 <= i < |Filter(s, keep)|
        ensures Filter(s, keep)[i] in s && keep(Filter(s, keep)[i])
      {
        if i < |Filter(init, keep)| {
          assert Filter(s, keep)[i] == Filter(init, keep)[i];
          assert Filter(init, keep)[i] in init;
        }
      }
    }
  }

  lemma {:induction false} FilterConcat<T>(a: seq<T>, b: seq<T>, keep: T -> bool)
    ensures Filter(a + b, keep) == Filter(a, keep) + Filter(b, keep)
  {
    if |b| == 0 {
      assert a + b == a;
    } else {
      assert (a + b)[..|a + b| - 1] == a + b[..|b| - 1];
      FilterConcat(a, b[..|b| - 1], keep);
    }
  }

  /** Filtering keeps a sequence whose every element passes. */
  lemma {:induction false} FilterAllKept<T>(s: seq<T>, keep: T -> bool)
    requires forall i :: 0 <= i < |s| ==> keep(s[i])
    ensures Filter(s, keep) == s
  {
    if |s| > 0 {
      FilterAllKept(s[..|s| - 1], keep);
      assert s[..|s| - 1] + [s[|s| - 1]] == s;
    }
  }

  /** Filtering drops a sequence whose every element fails. */
  lemma {:induction false} FilterNoneKept<T>(s: seq<T>, keep: T -> bool)
    requires forall i :: 0 <= i < |s| ==> !keep(s[i])
    ensures Filter(s, keep) == []
  {
    if |s| > 0 {
      FilterNoneKept(s[..|s| - 1], keep);
    }
  }

  /** Filtering out the one element that fails removes exactly that element. */
  lemma {:induction false} FilterOutOne<T>(s: seq<T>, i: nat, keep: T -> bool)
    requires i < |s| && !keep(s[i])
    requires forall k :: 0 <= k < |s| && k != i ==> keep(s[k])
    ensures Filter(s, keep) == s[..i] + s[i + 1..]
  {
    var init := s[..|s| - 1];
    if i == |s| - 1 {
      forall k | 0 <= k < |init|
        ensures keep(init[k])
      {
        assert init[k] == s[k];
      }
      FilterAllKept(init, keep);
      assert s[i + 1..] == [];
    } else {
      forall k | 0 <= k < |init| && k != i
        ensures keep(init[k])
      {
        assert init[k] == s[k];
      }
      FilterOutOne(init, i, keep);
      assert init[..i] == s[..i];
      assert init[i + 1..] + [s[|s| - 1]] == s[i + 1..];
    }
  }

  /** `segments.reduce((total, s) => total + s, 0)`. */
  function Sum(s: seq<real>): real {
    if |s| == 0 then 0.0 else Sum(s[..|s| - 1]) + s[|s| - 1]
  }

  lemma {:induction false} SumConcat(a: seq<real>, b: seq<real>)
    ensures Sum(a + b) == Sum(a) + Sum(b)
  {
    if |b| == 0 {
      assert a + b == a;
    } else {
      assert (a + b)[..|a + b| - 1] == a + b[..|b| - 1];
      SumConcat(a, b[..|b| - 1]);
    }
  }

  /** The sum of a two-element list, for worked examples. */
  lemma SumPair(a: real, b: real)
    ensures Sum([a]) == a && Sum([a, b]) == a + b
  {
    assert [a][..0] == [];
    assert [a, b][..1] == [a];
  }

  /** `count` copies of `x`, as a loop of `push(x)` builds them. */
  function Copies(x: real, count: nat): (r: seq<real>)
    ensures |r| == count
    ensures forall i :: 0 <= i < |r| ==> r[i] == x
  {
    if count == 0 then [] else Copies(x, count - 1) + [x]
  }

  lemma {:induction false} SumCopies(x: real, count: nat)
    ensures Sum(Copies(x, count)) == count as real * x
  {
    if count > 0 {
      SumCopies(x, count - 1);
      assert Copies(x, count)[..count - 1] == Copies(x, count - 1);
    }
  }

  /** `parts.join(sep)`. */
  function Join(parts: seq<string>, sep: string): string {
    if |parts| == 0 then ""
    else if |parts| == 1 then parts[0]
    else Join(parts[..|parts| - 1], sep) + sep + parts[|parts| - 1]
  }

  /** Each part of a join appears in the joined text, at an offset the proof names. */
  lemma {:induction false} JoinContains(parts: seq<string>, sep: string, k: nat) returns (at: nat)
    requires k < |parts|
    ensures at + |parts[k]| <= |Join(parts, sep)|
    ensures Join(parts, sep)[at..at + |parts[k]|] == parts[k]
  {
    var j := Join(parts, sep);
    if |parts| == 1 {
      at := 0;
      assert j == parts[0];
    } else if k == |parts| - 1 {
      var front := Join(parts[..|parts| - 1], sep) + sep;
      assert j == front + parts[k];
      at := |front|;
      assert j[at..at + |parts[k]|] == parts[k];
    } else {
      var front := Join(parts[..|parts| - 1], sep);
      assert parts[..|parts| - 1][k] == parts[k];
      at := JoinContains(parts[..|parts| - 1], sep, k);
      assert j == front + (sep + parts[|parts| - 1]);
      assert j[at..at + |parts[k]|] == front[at..at + |parts[k]|];
    }
  }

  /** The position of the last `c` in `text`, if there is one. */
  function LastIndexOf(text: string, c: char): (r: Option<nat>)
    ensures r.Some? ==> r.value < |text| && text[r.value] == c && forall k :: r.value < k < |text| ==> text[k] != c
    ensures r.None? ==> c !in text
  {
    if |text| == 0 then None
    else if text[|text| - 1] == c then Some(|text| - 1)
    else
      var r := LastIndexOf(text[..|text| - 1], c);
      assert forall k :: 0 <= k < |text| - 1 ==> text[..|text| - 1][k] == text[k];
      r
  }

  /** `text.split(c)`: the pieces between occurrences of `c`, in order; text without `c` is one
      piece, and the empty text is one empty piece. */
  function SplitOn(text: string, c: char): (r: seq<string>)
    ensures |r| >= 1
    decreases |text|
  {
    match LastIndexOf(text, c)
    case None => [text]
    case Some(i) => SplitOn(text[..i], c) + [text[i + 1..]]
  }

  /** Text after the last separator is the last piece. */
  lemma SplitAfterSeparator(front: string, last: string, c: char)
    requires c !in last
    ensures SplitOn(front + [c] + last, c) == SplitOn(front, c) + [last]
  {
    var text := front + [c] + last;
    var n := |front|;
    assert text[n] == c;
    assert forall k :: n < k < |text| ==> text[k] == last[k - n - 1];
    assert LastIndexOf(text, c) == Some(n);
    assert text[..n] == front && text[n + 1..] == last;
  }

  /** Splitting undoes joining with a one-character separator that no part contains. */
  lemma {:induction false} SplitJoin(parts: seq<string>, c: char)
    requires |parts| >= 1
    requires forall i :: 0 <= i < |parts| ==> c !in parts[i]
    ensures SplitOn(Join(parts, [c]), c) == parts
  {
    if |parts| == 1 {
      assert LastIndexOf(parts[0], c).None?;
    } else {
      var front := parts[..|parts| - 1];
      var last := parts[|parts| - 1];
      SplitAfterSeparator(Join(front, [c]), last, c);
      SplitJoin(front, c);
      assert front + [last] == parts;
    }
  }

  /** Two lists of parts without the separator that join to the same text are the same list. */
  lemma JoinInjective(p: seq<string>, q: seq<string>, c: char)
    requires |p| >= 1 && |q| >= 1
    requires forall i :: 0 <= i < |p| ==> c !in p[i]
    requires forall i :: 0 <= i < |q| ==> c !in q[i]
    ensures Join(p, [c]) == Join(q, [c]) ==> p == q
  {
    SplitJoin(p, c);
    SplitJoin(q, c);
  }
}

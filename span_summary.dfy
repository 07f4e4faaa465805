/** `getSpanSummary`: the segment lengths grouped by value, longest first, as display text. */
module SpanSummary {
  import opened Wrappers
  import opened Numeric
  import opened Seqs

  /** The text between a length and its count: a multiplication sign as the source file stores
      it after a wrong decoding (U+00C3 followed by U+2014), kept as an opaque constant. */
  const COUNT_SEPARATOR: string := " \U{00C3}\U{2014} "

  /** One entry of the `Map<number, number>` of counts. */
  datatype Entry = Entry(length: real, count: nat)

  predicate DistinctKeys(es: seq<Entry>) {
    forall i, j :: 0 <= i < j < |es| ==> es[i].length != es[j].length
  }

  /** `map.get(key)` on a map kept as its entries in insertion order. */
  function Get(es: seq<Entry>, key: real): (r: Option<nat>)
    ensures r.None? <==> forall i :: 0 <= i < |es| ==> es[i].length != key
  {
    if |es| == 0 then None
    else if es[0].length == key then Some(es[0].count)
    else Get(es[1..], key)
  }

  /** `map.set(key, value)`: an existing key keeps its place, a new key goes last. */
  function Put(es: seq<Entry>, key: real, value: nat): (r: seq<Entry>)
    ensures Get(es, key).None? ==> r == es + [Entry(key, value)]
    ensures Get(es, key).Some? ==> |r| == |es|
  {
    if |es| == 0 then [Entry(key, value)]
    else if es[0].length == key then [Entry(key, value)] + es[1..]
    else [es[0]] + Put(es[1..], key, value)
  }

  /** What `get` reads after a `set`: the new value at the key set, the old value elsewhere. */
  lemma {:induction false} GetAfterPut(es: seq<Entry>, key: real, value: nat, other: real)
    ensures Get(Put(es, key, value), other) == if other == key then Some(value) else Get(es, other)
  {
    if |es| > 0 && es[0].length != key {
      GetAfterPut(es[1..], key, value, other);
      assert Put(es, key, value)[1..] == Put(es[1..], key, value);
    }
  }

  /** A `set` never duplicates a key. */
  lemma {:induction false} PutKeepsDistinct(es: seq<Entry>, key: real, value: nat)
    requires DistinctKeys(es)
    ensures DistinctKeys(Put(es, key, value))
    ensures forall i :: 0 <= i < |Put(es, key, value)| ==>
              Put(es, key, value)[i].length == key || exists j :: 0 <= j < |es| && es[j] == Put(es, key, value)[i]
  {
    var r := Put(es, key, value);
    if |es| > 0 && es[0].length != key {
      assert DistinctKeys(es[1..]);
      PutKeepsDistinct(es[1..], key, value);
      var tail := Put(es[1..], key, value);
      assert r == [es[0]] + tail;
      forall i | 0 <= i < |r|
        ensures r[i].length == key || exists j :: 0 <= j < |es| && es[j] == r[i]
      {
        if i == 0 {
          assert es[0] == r[0];
        } else {
          assert r[i] == tail[i - 1];
          if tail[i - 1].length != key {
            var j :| 0 <= j < |es[1..]| && es[1..][j] == tail[i - 1];
            assert es[j + 1] == r[i];
          }
        }
      }
      forall i | 0 < i < |r|
        ensures r[0].length != r[i].length
      {
        if tail[i - 1].length != key {
          var j :| 0 <= j < |es[1..]| && es[1..][j] == tail[i - 1];
          assert es[j + 1] == r[i];
        }
      }
    } else if |es| > 0 {
      assert r == [Entry(key, value)] + es[1..];
      forall i | 0 <= i < |r|
        ensures r[i].length == key || exists j :: 0 <= j < |es| && es[j] == r[i]
      {
        if i > 0 {
          assert es[i] == r[i];
        }
      }
    }
  }

  /** With distinct keys, `get` at an entry's key reads that entry's count. */
  lemma {:induction false} GetAtEntry(es: seq<Entry>, i: nat)
    requires DistinctKeys(es) && i < |es|
    ensures Get(es, es[i].length) == Some(es[i].count)
  {
    if i > 0 {
      assert DistinctKeys(es[1..]);
      assert es[1..][i - 1] == es[i];
      GetAtEntry(es[1..], i - 1);
    }
  }

  /** The count map after the loop over `segments`: one `set(segment, (get(segment) ?? 0) + 1)` each. */
  function Tally(segments: seq<real>): seq<Entry> {
    if |segments| == 0 then []
    else
      var counts := Tally(segments[..|segments| - 1]);
      var x := segments[|segments| - 1];
      Put(counts, x, GetOrZero(counts, x) + 1)
  }

  /** `counts.get(segment) ?? 0`. */
  function GetOrZero(es: seq<Entry>, key: real): (r: nat)
    ensures Get(es, key).Some? ==> r == Get(es, key).value
    ensures Get(es, key).None? ==> r == 0
  {
    match Get(es, key)
    case None => 0
    case Some(c) => c
  }

  /** The count map never holds a key twice. */
  lemma {:induction false} TallyDistinct(segments: seq<real>)
    ensures DistinctKeys(Tally(segments))
  {
    if |segments| > 0 {
      var front := segments[..|segments| - 1];
      var x := segments[|segments| - 1];
      TallyDistinct(front);
      PutKeepsDistinct(Tally(front), x, GetOrZero(Tally(front), x) + 1);
    }
  }

  /** The count map reads, for every length, its number of occurrences, and nothing for a
      length that does not occur. */
  lemma {:induction false} TallyGet(segments: seq<real>, y: real)
    ensures Get(Tally(segments), y) == if multiset(segments)[y] == 0 then None else Some(multiset(segments)[y])
  {
    if |segments| > 0 {
      var front := segments[..|segments| - 1];
      var x := segments[|segments| - 1];
      var counts := Tally(front);
      var c := GetOrZero(counts, x) + 1;
      assert segments == front + [x];
      assert multiset(segments) == multiset(front) + multiset{x};
      GetAfterPut(counts, x, c, y);
      if y == x {
        TallyGet(front, x);
        assert multiset(segments)[y] == multiset(front)[y] + 1;
      } else {
        TallyGet(front, y);
        assert multiset(segments)[y] == multiset(front)[y];
      }
    }
  }

  /** The count loop: a map filled one segment at a time. */
  method CountLengths(segments: seq<real>) returns (counts: seq<Entry>)
    ensures counts == Tally(segments)
  {
    counts := [];
    var i := 0;
    while i < |segments|
      invariant 0 <= i <= |segments|
      invariant counts == Tally(segments[..i])
    {
      var segment := segments[i];
      var previous := Get(counts, segment);
      var current := if previous.Some? then previous.value else 0;
      counts := Put(counts, segment, current + 1);
      assert segments[..i + 1][..i] == segments[..i];
      i := i + 1;
    }
    assert segments[..|segments|] == segments;
  }

  predicate StrictlyDescending(es: seq<Entry>) {
    forall i, j :: 0 <= i < j < |es| ==> es[i].length > es[j].length
  }

  /** Puts `e` into a list sorted longest first. */
  function InsertDescending(e: Entry, sorted: seq<Entry>): (r: seq<Entry>)
    ensures multiset(r) == multiset(sorted) + multiset{e}
    ensures |r| == |sorted| + 1
  {
    if |sorted| == 0 then [e]
    else if e.length > sorted[0].length then [e] + sorted
    else
      assert sorted == [sorted[0]] + sorted[1..];
      [sorted[0]] + InsertDescending(e, sorted[1..])
  }

  /** `.sort((a, b) => b[0] - a[0])` on entries whose keys differ, so the order is total. */
  function SortDescending(es: seq<Entry>): (r: seq<Entry>)
    ensures multiset(r) == multiset(es)
  {
    if |es| == 0 then []
    else
      assert es == [es[0]] + es[1..];
      InsertDescending(es[0], SortDescending(es[1..]))
  }

  lemma {:induction false} InsertKeepsOrder(e: Entry, sorted: seq<Entry>)
    requires StrictlyDescending(sorted)
    requires forall i :: 0 <= i < |sorted| ==> sorted[i].length != e.length
    ensures StrictlyDescending(InsertDescending(e, sorted))
  {
    if |sorted| > 0 && e.length <= sorted[0].length {
      InsertKeepsOrder(e, sorted[1..]);
      var rest := InsertDescending(e, sorted[1..]);
      forall j | 0 <= j < |rest|
        ensures sorted[0].length > rest[j].length
      {
        assert rest[j] in multiset(sorted[1..]) + multiset{e};
        if rest[j] != e {
          assert rest[j] in sorted[1..];
        }
      }
    }
  }

  /** With distinct keys the sort yields a strictly descending list. */
  lemma {:induction false} SortIsDescending(es: seq<Entry>)
    requires DistinctKeys(es)
    ensures StrictlyDescending(SortDescending(es))
  {
    if |es| > 0 {
      assert DistinctKeys(es[1..]);
      SortIsDescending(es[1..]);
      var sorted := SortDescending(es[1..]);
      forall i | 0 <= i < |sorted|
        ensures sorted[i].length != es[0].length
      {
        assert sorted[i] in multiset(es[1..]);
        assert sorted[i] in es[1..];
      }
      InsertKeepsOrder(es[0], sorted);
    }
  }

  /** Two strictly descending lists with the same entries are the same list, so any correct
      sorting algorithm gives the result `SortDescending` gives. */
  lemma {:induction false} DescendingIsUnique(a: seq<Entry>, b: seq<Entry>)
    requires StrictlyDescending(a) && StrictlyDescending(b)
    requires multiset(a) == multiset(b)
    ensures a == b
  {
    if |a| == 0 || |b| == 0 {
      assert |multiset(a)| == |a| && |multiset(b)| == |b|;
    } else {
      SameHead(a, b);
      assert a == [a[0]] + a[1..];
      assert b == [b[0]] + b[1..];
      assert multiset(a) == multiset{a[0]} + multiset(a[1..]);
      assert multiset(b) == multiset{b[0]} + multiset(b[1..]);
      assert forall e :: multiset(a[1..])[e] == multiset(b[1..])[e] by {
        forall e
          ensures multiset(a[1..])[e] == multiset(b[1..])[e]
        {
          assert multiset(a)[e] == multiset{a[0]}[e] + multiset(a[1..])[e];
          assert multiset(b)[e] == multiset{b[0]}[e] + multiset(b[1..])[e];
        }
      }
      assert multiset(a[1..]) == multiset(b[1..]);
      assert StrictlyDescending(a[1..]) && StrictlyDescending(b[1..]);
      DescendingIsUnique(a[1..], b[1..]);
    }
  }

  /** Two strictly descending lists with the same entries start alike. */
  lemma SameHead(a: seq<Entry>, b: seq<Entry>)
    requires StrictlyDescending(a) && StrictlyDescending(b)
    requires multiset(a) == multiset(b) && |a| > 0 && |b| > 0
    ensures a[0] == b[0]
  {
    assert a[0] in multiset(b);
    assert b[0] in multiset(a);
    var i :| 0 <= i < |b| && b[i] == a[0];
    var j :| 0 <= j < |a| && a[j] == b[0];
    assert i == 0;
  }

  /** One entry as text: the count follows the length only when it is more than one. */
  function EntryText(e: Entry, fracText: real -> string): string {
    if e.count > 1 then NumberText(e.length, fracText) + COUNT_SEPARATOR + NatToString(e.count)
    else NumberText(e.length, fracText)
  }

  function EntryTexts(es: seq<Entry>, fracText: real -> string): (r: seq<string>)
    ensures |r| == |es|
    ensures forall i :: 0 <= i < |es| ==> r[i] == EntryText(es[i], fracText)
  {
    seq(|es|, i requires 0 <= i < |es| => EntryText(es[i], fracText))
  }

  /** The entries the summary lists, in order. */
  function SummaryEntries(segments: seq<real>): seq<Entry> {
    SortDescending(Tally(segments))
  }

  /** `getSpanSummary`. */
  function SummarySpec(segments: seq<real>, fracText: real -> string): string {
    Join(EntryTexts(SummaryEntries(segments), fracText), ", ")
  }

  method GetSpanSummary(segments: seq<real>, fracText: real -> string) returns (summary: string)
    ensures summary == SummarySpec(segments, fracText)
  {
    var counts := CountLengths(segments);
    summary := Join(EntryTexts(SortDescending(counts), fracText), ", ");
  }

  /** The summary lists each distinct length exactly once, longest first, with its number of
      occurrences; a length that occurs is listed and a length listed occurs. */
  lemma SummaryListsEachLengthOnce(segments: seq<real>)
    ensures StrictlyDescending(SummaryEntries(segments))
    ensures forall i :: 0 <= i < |SummaryEntries(segments)| ==>
              SummaryEntries(segments)[i].count == multiset(segments)[SummaryEntries(segments)[i].length] >= 1
    ensures forall x :: x in segments ==> exists i :: 0 <= i < |SummaryEntries(segments)| && SummaryEntries(segments)[i].length == x
  {
    var counts := Tally(segments);
    var es := SummaryEntries(segments);
    TallyDistinct(segments);
    SortIsDescending(counts);
    forall i | 0 <= i < |es|
      ensures es[i].count == multiset(segments)[es[i].length] >= 1
    {
      assert es[i] in multiset(counts);
      var j :| 0 <= j < |counts| && counts[j] == es[i];
      GetAtEntry(counts, j);
      TallyGet(segments, es[i].length);
    }
    forall x | x in segments
      ensures exists i :: 0 <= i < |es| && es[i].length == x
    {
      var i := EntryFor(segments, x);
    }
  }

  /** The place in the summary of a length that occurs among the segments. */
  lemma EntryFor(segments: seq<real>, x: real) returns (i: nat)
    requires x in segments
    ensures i < |SummaryEntries(segments)| && SummaryEntries(segments)[i].length == x
  {
    var counts := Tally(segments);
    var es := SummaryEntries(segments);
    TallyGet(segments, x);
    assert multiset(segments)[x] > 0;
    assert Get(counts, x).Some?;
    var j :| 0 <= j < |counts| && counts[j].length == x;
    assert counts[j] in multiset(es);
    i :| 0 <= i < |es| && es[i] == counts[j];
  }

  /** An entry's text starts with the digits of a whole-millimetre length. */
  lemma EntryTextStartsWithLength(e: Entry, fracText: real -> string)
    requires IsInteger(e.length) && e.length >= 0.0
    ensures var digits := NatToString(e.length.Floor);
            |digits| <= |EntryText(e, fracText)| && EntryText(e, fracText)[..|digits|] == digits
  {
    var digits := NatToString(e.length.Floor);
    assert NumberText(e.length, fracText) == digits;
    if e.count > 1 {
      assert (digits + COUNT_SEPARATOR + NatToString(e.count))[..|digits|] == digits;
    } else {
      assert digits[..|digits|] == digits;
    }
  }

  /** A prefix of a part of a joined text is found at the part's offset. */
  lemma PrefixInJoin(parts: seq<string>, sep: string, k: nat, prefix: string) returns (at: nat)
    requires k < |parts| && |prefix| <= |parts[k]| && parts[k][..|prefix|] == prefix
    ensures at + |prefix| <= |Join(parts, sep)|
    ensures Join(parts, sep)[at..at + |prefix|] == prefix
  {
    at := JoinContains(parts, sep, k);
    var joined := Join(parts, sep);
    assert joined[at..at + |parts[k]|][..|prefix|] == joined[at..at + |prefix|];
  }

  /** The digits of a whole-millimetre entry appear in the summary. */
  lemma EntryMentioned(segments: seq<real>, fracText: real -> string, i: nat, x: real) returns (at: nat)
    requires i < |SummaryEntries(segments)| && SummaryEntries(segments)[i].length == x
    requires IsInteger(x) && x >= 0.0
    ensures at + |NatToString(x.Floor)| <= |SummarySpec(segments, fracText)|
    ensures SummarySpec(segments, fracText)[at..at + |NatToString(x.Floor)|] == NatToString(x.Floor)
  {
    var es := SummaryEntries(segments);
    var texts := EntryTexts(es, fracText);
    EntryTextStartsWithLength(es[i], fracText);
    at := PrefixInJoin(texts, ", ", i, NatToString(x.Floor));
  }

  /** A whole-millimetre length that occurs among the segments has its digits in the summary. */
  lemma SummaryMentions(segments: seq<real>, fracText: real -> string, x: real) returns (at: nat)
    requires x in segments && IsInteger(x) && x >= 0.0
    ensures at + |NatToString(x.Floor)| <= |SummarySpec(segments, fracText)|
    ensures SummarySpec(segments, fracText)[at..at + |NatToString(x.Floor)|] == NatToString(x.Floor)
  {
    var i := EntryFor(segments, x);
    at := EntryMentioned(segments, fracText, i, x);
  }

  /** Whatever sorting algorithm runs, a descending arrangement of the counts is this one. */
  lemma SummaryOrderIsForced(segments: seq<real>, arranged: seq<Entry>)
    requires StrictlyDescending(arranged) && multiset(arranged) == multiset(Tally(segments))
    ensures arranged == SummaryEntries(segments)
  {
    TallyDistinct(segments);
    SortIsDescending(Tally(segments));
    DescendingIsUnique(arranged, SummaryEntries(segments));
  }

  /** Counting three 1800 mm spans one at a time. */
  lemma TallyThree1800()
    ensures Tally([1800.0, 1800.0, 1800.0]) == [Entry(1800.0, 3)]
  {
    var segments := [1800.0, 1800.0, 1800.0];
    assert Tally(segments[..1]) == [Entry(1800.0, 1)];
    assert segments[..2][..1] == segments[..1];
    assert Tally(segments[..2]) == [Entry(1800.0, 2)];
    assert segments[..2] == segments[..|segments| - 1];
  }

  /** A shorter length counted after them goes last and is listed last. */
  lemma SummaryEntriesExample(segments: seq<real>)
    requires segments == [1800.0, 1800.0, 1800.0, 1500.0]
    ensures SummaryEntries(segments) == [Entry(1800.0, 3), Entry(1500.0, 1)]
  {
    TallyThree1800();
    assert segments[..|segments| - 1] == [1800.0, 1800.0, 1800.0];
    assert Tally(segments) == [Entry(1800.0, 3), Entry(1500.0, 1)];
  }

  lemma DigitsExample()
    ensures NatToString(1800) == "1800" && NatToString(1500) == "1500" && NatToString(3) == "3"
  {
    assert NatToString(18) == "18";
    assert NatToString(15) == "15";
    assert NatToString(180) == "180";
    assert NatToString(150) == "150";
  }

  lemma EntryTextExample(fracText: real -> string)
    ensures EntryText(Entry(1800.0, 3), fracText) == "1800" + COUNT_SEPARATOR + "3"
    ensures EntryText(Entry(1500.0, 1), fracText) == "1500"
  {
    DigitsExample();
  }

  lemma JoinTwo(a: string, b: string, sep: string)
    ensures Join([a, b], sep) == a + sep + b
  {
    assert [a, b][..1] == [a];
  }

  lemma EntryTextsExample(es: seq<Entry>, fracText: real -> string)
    requires es == [Entry(1800.0, 3), Entry(1500.0, 1)]
    ensures EntryTexts(es, fracText) == ["1800" + COUNT_SEPARATOR + "3", "1500"]
  {
    EntryTextExample(fracText);
    var texts := EntryTexts(es, fracText);
    assert texts[0] == "1800" + COUNT_SEPARATOR + "3" && texts[1] == "1500";
  }

  /** Three 1800 mm spans and one 1500 mm span read "1800 × 3, 1500". */
  lemma SummaryExample(segments: seq<real>, fracText: real -> string)
    requires segments == [1800.0, 1800.0, 1800.0, 1500.0]
    ensures SummarySpec(segments, fracText) == "1800" + COUNT_SEPARATOR + "3" + ", " + "1500"
  {
    SummaryEntriesExample(segments);
    EntryTextsExample(SummaryEntries(segments), fracText);
    JoinTwo("1800" + COUNT_SEPARATOR + "3", "1500", ", ");
  }
}

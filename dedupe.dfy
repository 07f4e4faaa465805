/** Keep-first deduplication by a key: a pass over a sequence that keeps an element only when no
    earlier kept element had its key. */
module Dedupe {
  import opened Wrappers

  function KeysOf<T, K>(s: seq<T>, key: T -> K): set<K> {
    set i | 0 <= i < |s| :: key(s[i])
  }

  predicate DistinctBy<T, K(==)>(s: seq<T>, key: T -> K) {
    forall a, b :: 0 <= a < b < |s| ==> key(s[a]) != key(s[b])
  }

  /** `s` keeps some of the elements of `t`, in their order. */
  predicate IsSubsequence<T(==)>(s: seq<T>, t: seq<T>)
    decreases |t|
  {
    if |s| == 0 then true
    else if |t| == 0 then false
    else (s[0] == t[0] && IsSubsequence(s[1..], t[1..])) || IsSubsequence(s, t[1..])
  }

  /** The first index whose element has key `k`. */
  function FirstWith<T, K(==)>(s: seq<T>, key: T -> K, k: K): (r: Option<nat>)
    ensures r.Some? ==> r.value < |s| && key(s[r.value]) == k && forall j :: 0 <= j < r.value ==> key(s[j]) != k
    ensures r.None? ==> forall j :: 0 <= j < |s| ==> key(s[j]) != k
  {
    if |s| == 0 then None
    else if key(s[0]) == k then Some(0)
    else
      match FirstWith(s[1..], key, k)
      case None => None
      case Some(i) => Some(i + 1)
  }

  /** The elements the pass keeps once the keys in `seen` are taken. */
  function KeepFirstFrom<T, K(==)>(s: seq<T>, key: T -> K, seen: set<K>): seq<T>
    decreases |s|
  {
    if |s| == 0 then []
    else if key(s[0]) in seen then KeepFirstFrom(s[1..], key, seen)
    else [s[0]] + KeepFirstFrom(s[1..], key, seen + {key(s[0])})
  }

  function KeepFirst<T, K(==)>(s: seq<T>, key: T -> K): seq<T> {
    KeepFirstFrom(s, key, {})
  }

  lemma KeysOfCons<T, K>(s: seq<T>, key: T -> K)
    requires |s| > 0
    ensures KeysOf(s, key) == {key(s[0])} + KeysOf(s[1..], key)
  {
    var tail := s[1..];
    forall k | k in KeysOf(s, key)
      ensures k in {key(s[0])} + KeysOf(tail, key)
    {
      var i :| 0 <= i < |s| && key(s[i]) == k;
      if i > 0 {
        assert key(tail[i - 1]) == k;
      }
    }
    forall k | k in KeysOf(tail, key)
      ensures k in KeysOf(s, key)
    {
      var i :| 0 <= i < |tail| && key(tail[i]) == k;
      assert key(s[i + 1]) == k;
    }
  }

  lemma KeysOfConcat<T, K>(a: seq<T>, b: seq<T>, key: T -> K)
    ensures KeysOf(a + b, key) == KeysOf(a, key) + KeysOf(b, key)
  {
    var ab := a + b;
    forall k | k in KeysOf(ab, key)
      ensures k in KeysOf(a, key) + KeysOf(b, key)
    {
      var i :| 0 <= i < |ab| && key(ab[i]) == k;
      if i < |a| {
        assert ab[i] == a[i];
      } else {
        assert ab[i] == b[i - |a|];
      }
    }
    forall k | k in KeysOf(a, key) + KeysOf(b, key)
      ensures k in KeysOf(ab, key)
    {
      if k in KeysOf(a, key) {
        var i :| 0 <= i < |a| && key(a[i]) == k;
        assert ab[i] == a[i];
      } else {
        var i :| 0 <= i < |b| && key(b[i]) == k;
        assert ab[|a| + i] == b[i];
      }
    }
  }

  /** A subsequence of the tail is a subsequence of the whole. */
  lemma SubsequenceOfTail<T>(s: seq<T>, t: seq<T>)
    requires |t| > 0 && IsSubsequence(s, t[1..])
    ensures IsSubsequence(s, t)
  {
  }

  /** Each element of a subsequence is an element of the sequence. */
  lemma {:induction false} SubsequenceMembers<T>(s: seq<T>, t: seq<T>, i: nat)
    requires IsSubsequence(s, t) && i < |s|
    ensures s[i] in t
    decreases |t|
  {
    if s[0] == t[0] && IsSubsequence(s[1..], t[1..]) {
      if i > 0 {
        SubsequenceMembers(s[1..], t[1..], i - 1);
        assert s[i] == s[1..][i - 1];
      }
    } else {
      SubsequenceMembers(s, t[1..], i);
    }
  }

  /** The pass keeps elements of the input, in their order. */
  lemma {:induction false} KeepFirstSubsequence<T, K>(s: seq<T>, key: T -> K, seen: set<K>)
    ensures IsSubsequence(KeepFirstFrom(s, key, seen), s)
    decreases |s|
  {
    if |s| > 0 {
      var r := KeepFirstFrom(s, key, seen);
      if key(s[0]) in seen {
        KeepFirstSubsequence(s[1..], key, seen);
        SubsequenceOfTail(r, s);
      } else {
        KeepFirstSubsequence(s[1..], key, seen + {key(s[0])});
        assert r[0] == s[0] && r[1..] == KeepFirstFrom(s[1..], key, seen + {key(s[0])});
      }
    }
  }

  /** The pass keeps exactly the keys not yet seen. */
  lemma {:induction false} KeepFirstKeys<T, K>(s: seq<T>, key: T -> K, seen: set<K>)
    ensures KeysOf(KeepFirstFrom(s, key, seen), key) == KeysOf(s, key) - seen
    decreases |s|
  {
    if |s| > 0 {
      var k := key(s[0]);
      KeysOfCons(s, key);
      if k in seen {
        KeepFirstKeys(s[1..], key, seen);
      } else {
        var rest := KeepFirstFrom(s[1..], key, seen + {k});
        KeepFirstKeys(s[1..], key, seen + {k});
        KeysOfConcat([s[0]], rest, key);
        assert KeysOf([s[0]], key) == {k} by {
          assert key([s[0]][0]) == k;
        }
      }
    }
  }

  /** No two kept elements share a key, and none has a key already seen. */
  lemma {:induction false} KeepFirstDistinct<T, K>(s: seq<T>, key: T -> K, seen: set<K>)
    ensures DistinctBy(KeepFirstFrom(s, key, seen), key)
    ensures forall j :: 0 <= j < |KeepFirstFrom(s, key, seen)| ==> key(KeepFirstFrom(s, key, seen)[j]) !in seen
    decreases |s|
  {
    if |s| > 0 {
      var k := key(s[0]);
      var r := KeepFirstFrom(s, key, seen);
      if k in seen {
        KeepFirstDistinct(s[1..], key, seen);
      } else {
        var rest := KeepFirstFrom(s[1..], key, seen + {k});
        KeepFirstDistinct(s[1..], key, seen + {k});
        assert r == [s[0]] + rest;
        forall j | 0 < j < |r|
          ensures r[j] == rest[j - 1]
        {
        }
      }
    }
  }

  /** Kept element `j` is the first of the input with its key. */
  lemma {:induction false} KeepFirstIsFirstAt<T, K>(s: seq<T>, key: T -> K, seen: set<K>, j: nat)
    requires j < |KeepFirstFrom(s, key, seen)|
    ensures var e := KeepFirstFrom(s, key, seen)[j];
            FirstWith(s, key, key(e)).Some? && s[FirstWith(s, key, key(e)).value] == e
    decreases |s|
  {
    var k := key(s[0]);
    var r := KeepFirstFrom(s, key, seen);
    var e := r[j];
    KeepFirstDistinct(s, key, seen);
    if k in seen {
      assert r == KeepFirstFrom(s[1..], key, seen);
      KeepFirstIsFirstAt(s[1..], key, seen, j);
      assert key(e) != k;
      var v := FirstWith(s[1..], key, key(e)).value;
      assert FirstWith(s, key, key(e)) == Some(v + 1);
      assert s[v + 1] == s[1..][v];
    } else if j == 0 {
      assert FirstWith(s, key, k) == Some(0);
    } else {
      var rest := KeepFirstFrom(s[1..], key, seen + {k});
      assert r == [s[0]] + rest;
      assert e == rest[j - 1];
      KeepFirstIsFirstAt(s[1..], key, seen + {k}, j - 1);
      KeepFirstDistinct(s[1..], key, seen + {k});
      assert key(e) != k;
      var v := FirstWith(s[1..], key, key(e)).value;
      assert FirstWith(s, key, key(e)) == Some(v + 1);
      assert s[v + 1] == s[1..][v];
    }
  }

  /** Each kept element is the first of the input with its key. */
  lemma KeepFirstIsFirst<T, K>(s: seq<T>, key: T -> K)
    ensures var r := KeepFirst(s, key);
            forall j :: 0 <= j < |r| ==> FirstWith(s, key, key(r[j])).Some? && s[FirstWith(s, key, key(r[j])).value] == r[j]
  {
    var r := KeepFirst(s, key);
    forall j | 0 <= j < |r|
      ensures FirstWith(s, key, key(r[j])).Some? && s[FirstWith(s, key, key(r[j])).value] == r[j]
    {
      KeepFirstIsFirstAt(s, key, {}, j);
    }
  }

  /** A sequence whose keys are distinct and unseen passes through unchanged. */
  lemma {:induction false} KeepFirstOfDistinct<T, K>(s: seq<T>, key: T -> K, seen: set<K>)
    requires DistinctBy(s, key)
    requires forall i :: 0 <= i < |s| ==> key(s[i]) !in seen
    ensures KeepFirstFrom(s, key, seen) == s
    decreases |s|
  {
    if |s| > 0 {
      var k := key(s[0]);
      var tail := s[1..];
      forall i | 0 <= i < |tail|
        ensures key(tail[i]) !in seen + {k}
      {
        assert tail[i] == s[i + 1];
      }
      assert DistinctBy(tail, key) by {
        forall a, b | 0 <= a < b < |tail|
          ensures key(tail[a]) != key(tail[b])
        {
          assert tail[a] == s[a + 1] && tail[b] == s[b + 1];
        }
      }
      KeepFirstOfDistinct(tail, key, seen + {k});
      assert s == [s[0]] + tail;
    }
  }

  /** What holds of every element of the input holds of every element kept. */
  lemma KeepFirstAll<T, K>(s: seq<T>, key: T -> K, p: T -> bool)
    requires forall i :: 0 <= i < |s| ==> p(s[i])
    ensures forall j :: 0 <= j < |KeepFirst(s, key)| ==> p(KeepFirst(s, key)[j])
  {
    var r := KeepFirst(s, key);
    KeepFirstSubsequence(s, key, {});
    forall j | 0 <= j < |r|
      ensures p(r[j])
    {
      SubsequenceMembers(r, s, j);
    }
  }

  /** Keeping the first of each key twice is keeping it once. */
  lemma KeepFirstIdempotent<T, K>(s: seq<T>, key: T -> K)
    ensures KeepFirst(KeepFirst(s, key), key) == KeepFirst(s, key)
  {
    KeepFirstDistinct(s, key, {});
    KeepFirstOfDistinct(KeepFirst(s, key), key, {});
  }
}

/** Sequence operations the renderer performs through `Array.prototype`
    methods and `Set`: `filter`, `slice(0, n)`, and de-duplication by
    `[...new Set(xs)]`. */
module Seqs {

  /** `a` can be obtained from `b` by deleting elements: order kept, nothing
      added, nothing duplicated. */
  predicate IsSubsequence<T(==)>(a: seq<T>, b: seq<T>)
    decreases |b|
  {
    |a| == 0 || (|b| > 0 && ((a[0] == b[0] && IsSubsequence(a[1..], b[1..])) || IsSubsequence(a, b[1..])))
  }

  /** `xs.filter(p)`. */
  function Filter<T(==)>(s: seq<T>, p: T -> bool): (r: seq<T>)
    ensures IsSubsequence(r, s)
    ensures forall i :: 0 <= i < |r| ==> p(r[i])
    ensures multiset(r) <= multiset(s)
    ensures forall i :: 0 <= i < |s| && p(s[i]) ==> multiset(r)[s[i]] == multiset(s)[s[i]]
  {
    if |s| == 0 then []
    else
      var rest := Filter(s[1..], p);
      assert s == [s[0]] + s[1..];
      if p(s[0]) then
        assert ([s[0]] + rest)[1..] == rest;
        [s[0]] + rest
      else rest
  }

  /** Every element the filter keeps comes from the input; every input element
      the predicate accepts is kept. */
  lemma FilterMembership<T>(s: seq<T>, p: T -> bool, x: T)
    ensures x in Filter(s, p) <==> x in s && p(x)
  {
    var r := Filter(s, p);
    assert x in r <==> x in multiset(r);
    assert x in s <==> x in multiset(s);
    if x in s && p(x) {
      var i :| 0 <= i < |s| && s[i] == x;
    }
  }

  /** Filtering a sequence no element of which passes leaves nothing. */
  lemma FilterNone<T>(s: seq<T>, p: T -> bool)
    requires forall i :: 0 <= i < |s| ==> !p(s[i])
    ensures Filter(s, p) == []
  {
    var r := Filter(s, p);
    if |r| > 0 {
      FilterMembership(s, p, r[0]);
    }
  }

  /** Filtering a sequence every element of which passes changes nothing. */
  lemma {:induction false} FilterAll<T>(s: seq<T>, p: T -> bool)
    requires forall i :: 0 <= i < |s| ==> p(s[i])
    ensures Filter(s, p) == s
  {
    if |s| > 0 {
      FilterAll(s[1..], p);
      assert s == [s[0]] + s[1..];
    }
  }

  /** The first `n` elements (`xs.slice(0, n)`). */
  function Take<T>(s: seq<T>, n: nat): (r: seq<T>)
    ensures |r| == if n < |s| then n else |s|
    ensures r <= s
  {
    if n < |s| then s[..n] else s
  }

  /* ---------- distinct values ---------- */

  predicate Distinct<T(==)>(s: seq<T>) {
    forall i, j :: 0 <= i < j < |s| ==> s[i] != s[j]
  }

  /** The values of a sequence, as `new Set(xs)` holds them. */
  function Elems<T>(s: seq<T>): set<T> {
    set x | x in s
  }

  /** Index of the first occurrence of `x`. */
  function FirstIndex<T(==)>(s: seq<T>, x: T): (k: nat)
    requires x in s
    ensures k < |s| && s[k] == x
    ensures forall j :: 0 <= j < k ==> s[j] != x
  {
    if s[0] == x then 0 else 1 + FirstIndex(s[1..], x)
  }

  /** A value that already occurs in a prefix keeps its first index when the
      sequence is extended. */
  lemma FirstIndexPrefix<T>(s: seq<T>, n: nat, x: T)
    requires n <= |s| && x in s[..n]
    ensures FirstIndex(s, x) == FirstIndex(s[..n], x)
  {
    var a := FirstIndex(s, x);
    var b := FirstIndex(s[..n], x);
    assert s[b] == x;
    assert a <= b;
    assert s[..n][a] == x;
  }

  /** `[...new Set(xs)]`: the distinct values of `xs` in order of first occurrence. */
  function Dedup<T(==)>(s: seq<T>): (r: seq<T>)
    ensures Distinct(r)
    ensures Elems(r) == Elems(s)
    ensures forall i :: 0 <= i < |r| ==> r[i] in s
    ensures forall i, j :: 0 <= i < j < |r| ==> FirstIndex(s, r[i]) < FirstIndex(s, r[j])
    ensures |r| <= |s|
  {
    if |s| == 0 then []
    else
      var init := s[..|s| - 1];
      var last := s[|s| - 1];
      var d := Dedup(init);
      assert s == init + [last];
      assert Elems(s) == Elems(init) + {last};
      forall x | x in d
        ensures x in init && FirstIndex(s, x) == FirstIndex(init, x)
      {
        FirstIndexPrefix(s, |s| - 1, x);
      }
      if last in d then d
      else
        assert last !in init;
        assert FirstIndex(s, last) == |s| - 1;
        d + [last]
  }

  /** The number of distinct values never exceeds the number of elements, and
      a non-empty sequence has at least one. */
  lemma {:induction false} ElemsBound<T>(s: seq<T>)
    ensures |Elems(s)| <= |s|
    ensures |s| > 0 ==> |Elems(s)| >= 1
  {
    if |s| > 0 {
      ElemsBound(s[1..]);
      assert s == [s[0]] + s[1..];
      assert Elems(s) == {s[0]} + Elems(s[1..]);
    }
  }

  /** A sequence without repeats has as many distinct values as elements. */
  lemma {:induction false} DistinctElems<T>(s: seq<T>)
    requires Distinct(s)
    ensures |Elems(s)| == |s|
  {
    if |s| > 0 {
      DistinctElems(s[1..]);
      assert s == [s[0]] + s[1..];
      assert s[0] !in s[1..];
      assert Elems(s) == {s[0]} + Elems(s[1..]);
    }
  }

  /** De-duplicating yields exactly as many values as `new Set(xs).size` counts. */
  lemma DedupSize<T>(s: seq<T>)
    ensures |Dedup(s)| == |Elems(s)|
  {
    DistinctElems(Dedup(s));
  }
}

/**
 * Sequence helpers shared by the pages and the recommender: an Option
 * type, the slicing rule that JavaScript's `Array.prototype.slice` and
 * Python's `s[a:b]` / pandas `head(n)` have in common, a filter that keeps
 * order, and a stable sort by a real-valued key, highest first.
 */
module Seqs {

  datatype Option<T> = None | Some(value: T)

  function Min(a: int, b: int): int { if a <= b then a else b }

  function Max(a: int, b: int): int { if a >= b then a else b }

  /** A slice bound as both languages read it: negative counts from the end,
      and the result is clamped into [0, len]. */
  function ClampIndex(i: int, len: nat): (r: nat)
    ensures r <= len
  {
    if i < 0 then Max(len + i, 0) else Min(i, len)
  }

  /** `s.slice(start, end)` in JavaScript, `s[start:end]` in Python. */
  function Slice<T>(s: seq<T>, start: int, end: int): (r: seq<T>)
    ensures |r| <= |s|
    ensures forall i :: 0 <= i < |r| ==> r[i] in s
  {
    var a := ClampIndex(start, |s|);
    var b := ClampIndex(end, |s|);
    if a < b then s[a..b] else []
  }

  /** `s.slice(0, n)`, `s[:n]`, `df.head(n)`. */
  function Prefix<T>(s: seq<T>, n: int): seq<T>
  {
    Slice(s, 0, n)
  }

  /** With non-negative bounds, a slice is the ordinary sub-range, clipped. */
  lemma SliceNonNegative<T>(s: seq<T>, start: int, end: int)
    requires 0 <= start && 0 <= end
    ensures Min(start, |s|) <= |s| && Min(end, |s|) <= |s|
    ensures Slice(s, start, end) ==
            if Min(start, |s|) < Min(end, |s|) then s[Min(start, |s|)..Min(end, |s|)] else []
  {
  }

  /** A prefix of non-negative length n holds the first min(n, |s|) elements. */
  lemma PrefixIsTake<T>(s: seq<T>, n: int)
    requires n >= 0
    ensures |Prefix(s, n)| == Min(n, |s|)
    ensures Prefix(s, n) == s[..Min(n, |s|)]
  {
  }

  /** `s.filter(p)` / a list comprehension with a condition. */
  function Filter<T>(s: seq<T>, p: T -> bool): (r: seq<T>)
    ensures |r| <= |s|
    ensures forall i :: 0 <= i < |r| ==> r[i] in s && p(r[i])
    ensures forall i :: 0 <= i < |s| ==> (s[i] in r <==> p(s[i]))
  {
    if s == [] then []
    else if p(s[0]) then [s[0]] + Filter(s[1..], p)
    else Filter(s[1..], p)
  }

  lemma {:induction false} NoneMatch<T>(s: seq<T>, p: T -> bool)
    requires forall i :: 0 <= i < |s| ==> !p(s[i])
    ensures Filter(s, p) == []
  {
    if s != [] {
      NoneMatch(s[1..], p);
    }
  }

  /** a can be obtained from b by deleting elements (order kept). */
  predicate IsSubsequence<T(==)>(a: seq<T>, b: seq<T>)
    decreases |b|
  {
    if a == [] then true
    else if b == [] then false
    else (a[0] == b[0] && IsSubsequence(a[1..], b[1..])) || IsSubsequence(a, b[1..])
  }

  lemma {:induction false} FilterIsSubsequence<T>(s: seq<T>, p: T -> bool)
    ensures IsSubsequence(Filter(s, p), s)
  {
    if s != [] {
      FilterIsSubsequence(s[1..], p);
      if p(s[0]) {
        assert Filter(s, p)[1..] == Filter(s[1..], p);
      }
    }
  }

  /** A filter keeps each element at most as often as the input holds it. */
  lemma {:induction false} FilterSubMultiset<T>(s: seq<T>, p: T -> bool)
    ensures multiset(Filter(s, p)) <= multiset(s)
  {
    if s != [] {
      FilterSubMultiset(s[1..], p);
      assert s == [s[0]] + s[1..];
      assert multiset(s) == multiset{s[0]} + multiset(s[1..]);
      if p(s[0]) {
        assert multiset(Filter(s, p)) == multiset{s[0]} + multiset(Filter(s[1..], p));
      } else {
        assert Filter(s, p) == Filter(s[1..], p);
      }
    }
  }

  /** The first n elements are a sub-multiset of the whole. */
  lemma PrefixSubMultiset<T>(s: seq<T>, n: int)
    requires n >= 0
    ensures multiset(Prefix(s, n)) <= multiset(s)
  {
    PrefixIsTake(s, n);
    var k := Min(n, |s|);
    assert s == s[..k] + s[k..];
  }

  /** A subsequence of b stays a subsequence when more is appended to b. */
  lemma {:induction false} SubsequenceAppend<T>(a: seq<T>, b: seq<T>, c: seq<T>)
    requires IsSubsequence(a, b)
    ensures IsSubsequence(a, b + c)
    decreases |b|
  {
    if a != [] {
      assert (b + c)[0] == b[0];
      assert (b + c)[1..] == b[1..] + c;
      if a[0] == b[0] && IsSubsequence(a[1..], b[1..]) {
        SubsequenceAppend(a[1..], b[1..], c);
      } else {
        SubsequenceAppend(a, b[1..], c);
      }
    }
  }

  /** The first n matches of p are a subsequence of s. */
  lemma PrefixOfFilterIsSubsequence<T>(s: seq<T>, p: T -> bool, n: int)
    requires n >= 0
    ensures IsSubsequence(Prefix(Filter(s, p), n), s)
  {
    var k := MatchBoundary(s, p, n);
    PrefixOfFilter(s, p, n);
    FilterIsSubsequence(s[..k], p);
    SubsequenceAppend(Filter(s[..k], p), s[..k], s[k..]);
    assert s[..k] + s[k..] == s;
  }

  lemma {:induction false} FilterAppend<T>(a: seq<T>, b: seq<T>, p: T -> bool)
    ensures Filter(a + b, p) == Filter(a, p) + Filter(b, p)
  {
    if a == [] {
      assert a + b == b;
    } else {
      assert (a + b)[0] == a[0];
      assert (a + b)[1..] == a[1..] + b;
      FilterAppend(a[1..], b, p);
    }
  }

  /** How far into s one must read to see n matches of p (all of s if it
      holds fewer). */
  function MatchBoundary<T>(s: seq<T>, p: T -> bool, n: int): (k: nat)
    ensures k <= |s|
  {
    if n <= 0 || s == [] then 0
    else if p(s[0]) then 1 + MatchBoundary(s[1..], p, n - 1)
    else 1 + MatchBoundary(s[1..], p, n)
  }

  /** Filtering the whole sequence and keeping the first n results is the same
      as filtering a prefix of it; unless that prefix is the whole sequence,
      exactly n results are kept. So the kept elements are the first n matches. */
  lemma {:induction false} PrefixOfFilter<T>(s: seq<T>, p: T -> bool, n: int)
    requires n >= 0
    ensures Prefix(Filter(s, p), n) == Filter(s[..MatchBoundary(s, p, n)], p)
    ensures MatchBoundary(s, p, n) < |s| ==> |Prefix(Filter(s, p), n)| == n
    decreases |s|, 1
  {
    if n == 0 || s == [] {
      assert s[..0] == [];
    } else if p(s[0]) {
      PrefixOfFilterStep(s, p, n);
    } else {
      PrefixOfFilterSkip(s, p, n);
    }
  }

  lemma {:induction false} PrefixOfFilterStep<T>(s: seq<T>, p: T -> bool, n: int)
    requires n > 0 && s != [] && p(s[0])
    ensures Prefix(Filter(s, p), n) == Filter(s[..MatchBoundary(s, p, n)], p)
    ensures MatchBoundary(s, p, n) < |s| ==> |Prefix(Filter(s, p), n)| == n
    decreases |s|, 0
  {
    var t := s[1..];
    var k := MatchBoundary(t, p, n - 1);
    var ft := Filter(t, p);
    assert MatchBoundary(s, p, n) == k + 1;
    PrefixOfFilter(t, p, n - 1);
    var kept := Prefix(ft, n - 1);
    assert kept == Filter(t[..k], p);
    FilterOfPrefixCons(s, p, k);
    assert Filter([s[0]], p) == [s[0]];
    assert Filter(s[..k + 1], p) == [s[0]] + kept;
    assert Filter(s, p) == [s[0]] + ft;
    PrefixCons(s[0], ft, n);
    assert Prefix(Filter(s, p), n) == [s[0]] + kept;
  }

  /** Filtering the first k+1 elements filters the head, then the first k
      elements of the tail. */
  lemma FilterOfPrefixCons<T>(s: seq<T>, p: T -> bool, k: nat)
    requires k < |s|
    ensures Filter(s[..k + 1], p) == Filter([s[0]], p) + Filter(s[1..][..k], p)
  {
    assert s[..k + 1] == [s[0]] + s[1..][..k];
    FilterAppend([s[0]], s[1..][..k], p);
  }

  lemma PrefixCons<T>(x: T, s: seq<T>, n: int)
    requires n > 0
    ensures Prefix([x] + s, n) == [x] + Prefix(s, n - 1)
  {
    PrefixIsTake(s, n - 1);
    PrefixIsTake([x] + s, n);
    assert ([x] + s)[..1 + Min(n - 1, |s|)] == [x] + s[..Min(n - 1, |s|)];
  }

  lemma {:induction false} PrefixOfFilterSkip<T>(s: seq<T>, p: T -> bool, n: int)
    requires n > 0 && s != [] && !p(s[0])
    ensures Prefix(Filter(s, p), n) == Filter(s[..MatchBoundary(s, p, n)], p)
    ensures MatchBoundary(s, p, n) < |s| ==> |Prefix(Filter(s, p), n)| == n
    decreases |s|, 0
  {
    var t := s[1..];
    var k := MatchBoundary(t, p, n);
    assert MatchBoundary(s, p, n) == k + 1;
    PrefixOfFilter(t, p, n);
    FilterOfPrefixCons(s, p, k);
    assert Filter([s[0]], p) == [];
    assert Filter(s[..k + 1], p) == Filter(t[..k], p);
    assert Filter(s, p) == Filter(t, p);
  }

  /** Highest key first: no element is above one that comes before it. */
  predicate SortedDesc<T>(s: seq<T>, key: T -> real)
  {
    forall i, j :: 0 <= i < j < |s| ==> key(s[i]) >= key(s[j])
  }

  /** Insert x after every element whose key is at least key(x). */
  function InsertDesc<T>(x: T, s: seq<T>, key: T -> real): (r: seq<T>)
    requires SortedDesc(s, key)
    ensures SortedDesc(r, key)
    ensures multiset(r) == multiset(s) + multiset{x}
    ensures |r| == |s| + 1
    ensures forall i :: 0 <= i < |r| ==> key(r[i]) <= key(x) || (s != [] && key(r[i]) <= key(s[0]))
  {
    if s == [] then [x]
    else if key(s[0]) >= key(x) then
      var rest := InsertDesc(x, s[1..], key);
      InsertBehindHead(x, s, rest, key);
      [s[0]] + rest
    else
      ConsSorted(x, s, key);
      [x] + s
  }

  /** The step of InsertDesc that keeps the head: what holds of the insertion
      into the tail holds, with the head in front, of the whole. */
  lemma InsertBehindHead<T>(x: T, s: seq<T>, rest: seq<T>, key: T -> real)
    requires s != [] && SortedDesc(s, key) && key(s[0]) >= key(x)
    requires SortedDesc(rest, key)
    requires multiset(rest) == multiset(s[1..]) + multiset{x}
    requires |rest| == |s[1..]| + 1
    requires forall i :: 0 <= i < |rest| ==> key(rest[i]) <= key(x) || (s[1..] != [] && key(rest[i]) <= key(s[1..][0]))
    ensures SortedDesc([s[0]] + rest, key)
    ensures multiset([s[0]] + rest) == multiset(s) + multiset{x}
    ensures |[s[0]] + rest| == |s| + 1
    ensures forall i :: 0 <= i < |[s[0]] + rest| ==> key(([s[0]] + rest)[i]) <= key(s[0])
  {
    assert s == [s[0]] + s[1..];
    assert forall i :: 0 <= i < |rest| ==> key(rest[i]) <= key(s[0]);
    ConsSorted(s[0], rest, key);
    var r := [s[0]] + rest;
    forall i | 0 <= i < |r|
      ensures key(r[i]) <= key(s[0])
    {
      if i > 0 {
        assert r[i] == rest[i - 1];
      }
    }
  }

  /** Filtering a descending sequence keeps it descending, and nothing it
      keeps is above the first element. */
  lemma {:induction false} FilterKeepsSorted<T>(s: seq<T>, p: T -> bool, key: T -> real)
    requires SortedDesc(s, key)
    ensures SortedDesc(Filter(s, p), key)
    ensures s != [] ==> forall i :: 0 <= i < |Filter(s, p)| ==> key(Filter(s, p)[i]) <= key(s[0])
  {
    if s != [] {
      var t := s[1..];
      FilterKeepsSorted(t, p, key);
      var rest := Filter(t, p);
      assert t != [] ==> key(t[0]) <= key(s[0]);
      assert forall i :: 0 <= i < |rest| ==> key(rest[i]) <= key(s[0]);
      if p(s[0]) {
        ConsSorted(s[0], rest, key);
      }
    }
  }

  /** Putting an element in front of a descending sequence whose keys it
      bounds keeps the sequence descending. */
  lemma ConsSorted<T>(a: T, s: seq<T>, key: T -> real)
    requires SortedDesc(s, key)
    requires forall i :: 0 <= i < |s| ==> key(s[i]) <= key(a)
    ensures SortedDesc([a] + s, key)
  {
    var r := [a] + s;
    forall i, j | 0 <= i < j < |r|
      ensures key(r[i]) >= key(r[j])
    {
      assert r[j] == s[j - 1];
      if i > 0 {
        assert r[i] == s[i - 1];
      }
    }
  }

  /** A stable sort, highest key first: Python's `sorted(..., reverse=True)`.
      Elements are inserted left to right, each after the equal keys already
      placed, so equal keys keep their original order. */
  function SortDesc<T>(s: seq<T>, key: T -> real): (r: seq<T>)
    ensures SortedDesc(r, key)
    ensures multiset(r) == multiset(s)
    ensures |r| == |s|
  {
    if s == [] then []
    else
      assert s == s[..|s| - 1] + [s[|s| - 1]];
      InsertDesc(s[|s| - 1], SortDesc(s[..|s| - 1], key), key)
  }

  /** Keeps the elements whose key is k. */
  function KeyIs<T>(key: T -> real, k: real): T -> bool
  {
    (x: T) => key(x) == k
  }

  /** Inserting x puts it after every element of equal key: among the
      elements with any one key, x comes last. */
  lemma {:induction false} InsertDescStable<T>(x: T, t: seq<T>, key: T -> real, k: real)
    requires SortedDesc(t, key)
    ensures Filter(InsertDesc(x, t, key), KeyIs(key, k)) == Filter(t, KeyIs(key, k)) + Filter([x], KeyIs(key, k))
  {
    var p := KeyIs(key, k);
    if t == [] {
      assert InsertDesc(x, t, key) == [x];
    } else if key(t[0]) >= key(x) {
      var tail := t[1..];
      var rest := InsertDesc(x, tail, key);
      InsertDescStable(x, tail, key, k);
      assert InsertDesc(x, t, key) == [t[0]] + rest;
      assert t == [t[0]] + tail;
      StableConsStep(t[0], tail, rest, x, p);
    } else {
      InsertInFront(x, t, key, k);
    }
  }

  /** The case of InsertDescStable where x goes in front. */
  lemma InsertInFront<T>(x: T, t: seq<T>, key: T -> real, k: real)
    requires SortedDesc(t, key) && t != [] && key(t[0]) < key(x)
    ensures Filter(InsertDesc(x, t, key), KeyIs(key, k)) == Filter(t, KeyIs(key, k)) + Filter([x], KeyIs(key, k))
  {
    var p := KeyIs(key, k);
    assert InsertDesc(x, t, key) == [x] + t;
    FilterAppend([x], t, p);
    if key(x) == k {
      assert forall i :: 0 <= i < |t| ==> !p(t[i]) by {
        assert forall i :: 0 <= i < |t| ==> key(t[i]) <= key(t[0]);
      }
      NoneMatch(t, p);
    } else {
      assert Filter([x], p) == [];
    }
  }

  /** SortDesc is stable: the elements of any one key appear in the result
      in the order they have in the input. */
  lemma {:induction false} SortDescStable<T>(s: seq<T>, key: T -> real, k: real)
    ensures Filter(SortDesc(s, key), KeyIs(key, k)) == Filter(s, KeyIs(key, k))
  {
    if s != [] {
      var p := KeyIs(key, k);
      var init, x := s[..|s| - 1], s[|s| - 1];
      var sortedInit := SortDesc(init, key);
      assert SortDesc(s, key) == InsertDesc(x, sortedInit, key);
      SortDescStable(init, key, k);
      InsertDescStable(x, sortedInit, key, k);
      StableSnocStep(SortDesc(s, key), sortedInit, s, p);
    }
  }

  lemma StableConsStep<T>(h: T, tail: seq<T>, rest: seq<T>, x: T, p: T -> bool)
    requires Filter(rest, p) == Filter(tail, p) + Filter([x], p)
    ensures Filter([h] + rest, p) == Filter([h] + tail, p) + Filter([x], p)
  {
    FilterAppend([h], rest, p);
    FilterAppend([h], tail, p);
    var a, b, c := Filter([h], p), Filter(tail, p), Filter([x], p);
    assert a + (b + c) == (a + b) + c;
  }

  lemma StableSnocStep<T>(sorted: seq<T>, sortedInit: seq<T>, s: seq<T>, p: T -> bool)
    requires s != []
    requires Filter(sorted, p) == Filter(sortedInit, p) + Filter([s[|s| - 1]], p)
    requires Filter(sortedInit, p) == Filter(s[..|s| - 1], p)
    ensures Filter(sorted, p) == Filter(s, p)
  {
    assert s == s[..|s| - 1] + [s[|s| - 1]];
    FilterAppend(s[..|s| - 1], [s[|s| - 1]], p);
  }

  /** In a descending sequence whose keys are at most m, the elements of key
      m come first: if they are u followed by w, the sequence starts with u. */
  lemma LeadingMaximum<T>(s: seq<T>, key: T -> real, m: real, u: T, w: seq<T>)
    requires SortedDesc(s, key) && forall i :: 0 <= i < |s| ==> key(s[i]) <= m
    requires Filter(s, KeyIs(key, m)) == [u] + w
    ensures s != [] && s[0] == u && Filter(s[1..], KeyIs(key, m)) == w
    ensures SortedDesc(s[1..], key) && forall i :: 0 <= i < |s[1..]| ==> key(s[1..][i]) <= m
  {
    var p := KeyIs(key, m);
    var f := Filter(s, p);
    assert f[0] == u && u in s && p(u);
    var j :| 0 <= j < |s| && s[j] == u;
    assert key(s[0]) >= key(s[j]) == m;
    assert p(s[0]);
    assert f == [s[0]] + Filter(s[1..], p);
    assert f[1..] == w;
    var t := s[1..];
    assert forall i :: 0 <= i < |t| ==> t[i] == s[i + 1];
  }

  /** The two elements of maximal key m in a descending sequence come first. */
  lemma LeadingTwo<T>(s: seq<T>, key: T -> real, m: real, u: T, v: T)
    requires SortedDesc(s, key) && forall i :: 0 <= i < |s| ==> key(s[i]) <= m
    requires Filter(s, KeyIs(key, m)) == [u, v]
    ensures |s| >= 2 && s[0] == u && s[1] == v
  {
    assert [u, v] == [u] + [v];
    LeadingMaximum(s, key, m, u, [v]);
    var t := s[1..];
    assert [v] == [v] + [];
    LeadingMaximum(t, key, m, v, []);
  }

  /** A predicate that holds at exactly one position b filters to that element. */
  lemma {:induction false} FilterExactlyOne<T>(s: seq<T>, p: T -> bool, b: int)
    requires 0 <= b < |s| && p(s[b])
    requires forall i :: 0 <= i < |s| && i != b ==> !p(s[i])
    ensures Filter(s, p) == [s[b]]
  {
    var t := s[1..];
    assert forall i :: 0 <= i < |t| ==> t[i] == s[i + 1];
    if b == 0 {
      NoneMatch(t, p);
    } else {
      FilterExactlyOne(t, p, b - 1);
    }
  }

  /** A predicate that holds at exactly two positions a < b filters to
      those two elements. */
  lemma {:induction false} FilterExactlyTwo<T>(s: seq<T>, p: T -> bool, a: int, b: int)
    requires 0 <= a < b < |s| && p(s[a]) && p(s[b])
    requires forall i :: 0 <= i < |s| && i != a && i != b ==> !p(s[i])
    ensures Filter(s, p) == [s[a], s[b]]
  {
    var t := s[1..];
    assert forall i :: 0 <= i < |t| ==> t[i] == s[i + 1];
    if a == 0 {
      FilterExactlyOne(t, p, b - 1);
    } else {
      FilterExactlyTwo(t, p, a - 1, b - 1);
    }
  }

  /** Any prefix of a sorted sequence dominates what it leaves out: every
      element left out has a key no greater than any element kept. */
  lemma PrefixOfSortedDominates<T>(s: seq<T>, key: T -> real, n: int, i: int, j: int)
    requires SortedDesc(s, key) && n >= 0
    requires 0 <= i < |Prefix(s, n)| <= j < |s|
    ensures key(s[j]) <= key(Prefix(s, n)[i])
  {
    PrefixIsTake(s, n);
  }

  /** The first n of the sort: min(n, |s|) elements of s, none more often
      than in s, highest first. */
  lemma SortedPrefixFacts<T>(s: seq<T>, key: T -> real, n: int)
    requires n >= 0
    ensures |Prefix(SortDesc(s, key), n)| <= n
    ensures |Prefix(SortDesc(s, key), n)| == Min(n, |s|)
    ensures multiset(Prefix(SortDesc(s, key), n)) <= multiset(s)
    ensures forall i :: 0 <= i < |Prefix(SortDesc(s, key), n)| ==> Prefix(SortDesc(s, key), n)[i] in s
    ensures SortedDesc(Prefix(SortDesc(s, key), n), key)
  {
    var sorted := SortDesc(s, key);
    PrefixIsTake(sorted, n);
    PrefixSubMultiset(sorted, n);
    var top := Prefix(sorted, n);
    forall i | 0 <= i < |top|
      ensures top[i] in s
    {
      assert top[i] == sorted[i];
      assert sorted[i] in multiset(s);
    }
  }

  /** Taking the first n of a sorted copy keeps the best: an element of s
      that is not kept has a key no greater than any element kept. */
  lemma SortedPrefixDominates<T>(s: seq<T>, key: T -> real, n: int, c: T)
    requires n >= 0 && c in s && c !in Prefix(SortDesc(s, key), n)
    ensures forall i :: 0 <= i < |Prefix(SortDesc(s, key), n)| ==> key(c) <= key(Prefix(SortDesc(s, key), n)[i])
  {
    var sorted := SortDesc(s, key);
    assert c in multiset(s);
    assert c in multiset(sorted);
    var j :| 0 <= j < |sorted| && sorted[j] == c;
    PrefixIsTake(sorted, n);
    forall i | 0 <= i < |Prefix(sorted, n)|
      ensures key(c) <= key(Prefix(sorted, n)[i])
    {
      PrefixOfSortedDominates(sorted, key, n, i, j);
    }
  }

  /** `s[1:n+1]` of a descending sequence: entries 1 .. min(n, |s| - 1),
      descending, and nothing after them above any of them. */
  lemma DropFirstWindow<T>(s: seq<T>, key: T -> real, n: int, w: seq<T>)
    requires SortedDesc(s, key) && s != [] && n >= 0 && w == Slice(s, 1, n + 1)
    ensures w == s[1..1 + Min(n, |s| - 1)]
    ensures SortedDesc(w, key)
    ensures forall i :: 0 <= i < |w| ==> w[i] == s[i + 1]
    ensures forall j, i :: 1 + |w| <= j < |s| && 0 <= i < |w| ==> key(s[j]) <= key(w[i])
  {
    SliceNonNegative(s, 1, n + 1);
    forall j, i | 1 + |w| <= j < |s| && 0 <= i < |w|
      ensures key(s[j]) <= key(w[i])
    {
      assert w[i] == s[i + 1];
    }
  }

  /** No two positions of s hold the same element. */
  predicate Distinct<T(==)>(s: seq<T>)
  {
    forall i, j :: 0 <= i < j < |s| ==> s[i] != s[j]
  }

  /** Strictly increasing integers; the shape `numpy.unique` returns. */
  predicate StrictlyIncreasing(s: seq<int>)
  {
    forall i, j :: 0 <= i < j < |s| ==> s[i] < s[j]
  }

  /** A strictly increasing sequence holding exactly the integers a .. b is
      a, a + 1, ..., b. */
  lemma {:induction false} IncreasingRange(r: seq<int>, a: int, b: int)
    requires StrictlyIncreasing(r)
    requires forall y :: y in r <==> a <= y <= b
    ensures forall i :: 0 <= i < |r| ==> r[i] == a + i
    ensures |r| == if a <= b then b - a + 1 else 0
    decreases |r|
  {
    if r == [] {
      assert a !in r;
    } else {
      assert r[0] in r;
      assert a in r;
      var j :| 0 <= j < |r| && r[j] == a;
      assert r[0] <= r[j];
      var t := r[1..];
      forall y | y in t
        ensures a + 1 <= y <= b
      {
        var i :| 0 <= i < |t| && t[i] == y;
        assert r[i + 1] == y && r[i + 1] in r;
        assert r[0] < r[i + 1];
      }
      forall y | a + 1 <= y <= b
        ensures y in t
      {
        assert y in r;
        var i :| 0 <= i < |r| && r[i] == y;
        assert i != 0 && t[i - 1] == y;
      }
      IncreasingRange(t, a + 1, b);
      forall i | 0 <= i < |r|
        ensures r[i] == a + i
      {
        if i > 0 {
          assert r[i] == t[i - 1];
        }
      }
    }
  }

  /** The indices 0 .. n-1 in order. */
  function Iota(n: nat): (r: seq<nat>)
    ensures |r| == n
    ensures forall i :: 0 <= i < n ==> r[i] == i
  {
    if n == 0 then [] else Iota(n - 1) + [n - 1]
  }

  /** Every entry of a is a valid index into a sequence of length n. */
  predicate InBounds(a: seq<nat>, n: nat)
  {
    forall i :: 0 <= i < |a| ==> a[i] < n
  }

  /** The elements of s at the positions listed in a, in that order. */
  function Pick<T>(s: seq<T>, a: seq<nat>): (r: seq<T>)
    requires InBounds(a, |s|)
    ensures |r| == |a|
    ensures forall i :: 0 <= i < |a| ==> r[i] == s[a[i]]
  {
    if a == [] then [] else [s[a[0]]] + Pick(s, a[1..])
  }

  /** order lists every index below n exactly once: a permutation of
      0 .. n-1. (Length and bounds follow from the multiset equation; they
      are spelled out so that Pick can be applied directly.) */
  predicate IsPermutation(order: seq<nat>, n: nat)
  {
    |order| == n && InBounds(order, n) && multiset(order) == multiset(Iota(n))
  }

  /** Picking by two index sequences with the same elements picks the same
      elements, in some order. */
  lemma {:induction false} PickMultiset<T>(s: seq<T>, a: seq<nat>, b: seq<nat>)
    requires InBounds(a, |s|) && InBounds(b, |s|)
    requires multiset(a) == multiset(b)
    ensures multiset(Pick(s, a)) == multiset(Pick(s, b))
    decreases |a|
  {
    if a == [] {
      assert |multiset(b)| == 0;
    } else {
      var x := a[0];
      assert x in multiset(b);
      var k :| 0 <= k < |b| && b[k] == x;
      PickRemove(s, a, 0);
      PickRemove(s, b, k);
      assert a[..0] + a[1..] == a[1..];
      PickMultiset(s, a[1..], b[..k] + b[k + 1..]);
    }
  }

  /** Taking one position out of the index list takes its element out of
      the picked multiset. */
  lemma PickRemove<T>(s: seq<T>, b: seq<nat>, k: int)
    requires InBounds(b, |s|) && 0 <= k < |b|
    ensures InBounds(b[..k] + b[k + 1..], |s|)
    ensures multiset(b[..k] + b[k + 1..]) == multiset(b) - multiset{b[k]}
    ensures multiset(Pick(s, b)) == multiset(Pick(s, b[..k] + b[k + 1..])) + multiset{s[b[k]]}
  {
    MultisetRemove(b, k);
    var u, v := b[..k], b[k + 1..];
    PickSplit(s, b, k);
    MultisetOfMiddle(Pick(s, u), s[b[k]], Pick(s, v));
  }

  lemma MultisetOfMiddle<U>(u: seq<U>, e: U, v: seq<U>)
    ensures multiset(u + ([e] + v)) == multiset(u + v) + multiset{e}
  {
    assert multiset(u + ([e] + v)) == multiset(u) + multiset{e} + multiset(v);
    assert multiset(u + v) == multiset(u) + multiset(v);
  }

  lemma MultisetRemove<U>(b: seq<U>, k: int)
    requires 0 <= k < |b|
    ensures multiset(b[..k] + b[k + 1..]) == multiset(b) - multiset{b[k]}
  {
    assert b == b[..k] + [b[k]] + b[k + 1..];
  }

  lemma PickSplit<T>(s: seq<T>, b: seq<nat>, k: int)
    requires InBounds(b, |s|) && 0 <= k < |b|
    ensures InBounds(b[..k], |s|) && InBounds(b[k + 1..], |s|) && InBounds(b[..k] + b[k + 1..], |s|)
    ensures Pick(s, b) == Pick(s, b[..k]) + ([s[b[k]]] + Pick(s, b[k + 1..]))
    ensures Pick(s, b[..k] + b[k + 1..]) == Pick(s, b[..k]) + Pick(s, b[k + 1..])
  {
    var u, v := b[..k], b[k + 1..];
    assert InBounds(u, |s|) && InBounds(v, |s|);
    PickAround(s, b, u, v, k);
    PickAppend(s, u, v);
  }

  lemma PickAround<T>(s: seq<T>, b: seq<nat>, u: seq<nat>, v: seq<nat>, k: int)
    requires InBounds(b, |s|) && 0 <= k < |b| && u == b[..k] && v == b[k + 1..]
    requires InBounds(u, |s|) && InBounds(v, |s|)
    ensures Pick(s, b) == Pick(s, u) + ([s[b[k]]] + Pick(s, v))
  {
    var l, r := Pick(s, b), Pick(s, u) + ([s[b[k]]] + Pick(s, v));
    assert |l| == |r|;
    forall i | 0 <= i < |l|
      ensures l[i] == r[i]
    {
      if i < k {
        assert r[i] == Pick(s, u)[i];
      } else if i > k {
        assert r[i] == Pick(s, v)[i - k - 1] && v[i - k - 1] == b[i];
      }
    }
  }

  lemma PickAppend<T>(s: seq<T>, u: seq<nat>, v: seq<nat>)
    requires InBounds(u, |s|) && InBounds(v, |s|)
    ensures InBounds(u + v, |s|)
    ensures Pick(s, u + v) == Pick(s, u) + Pick(s, v)
  {
    assert InBounds(u + v, |s|) by {
      forall i | 0 <= i < |u + v|
        ensures (u + v)[i] < |s|
      {
        if i >= |u| {
          assert (u + v)[i] == v[i - |u|];
        }
      }
    }
    var l, r := Pick(s, u + v), Pick(s, u) + Pick(s, v);
    assert |l| == |r|;
    forall i | 0 <= i < |l|
      ensures l[i] == r[i]
    {
      if i >= |u| {
        assert r[i] == Pick(s, v)[i - |u|] && (u + v)[i] == v[i - |u|];
      }
    }
  }

  /** Reordering a sequence by a permutation keeps its elements. */
  lemma PermutationKeepsElements<T>(s: seq<T>, order: seq<nat>)
    requires IsPermutation(order, |s|)
    ensures multiset(Pick(s, order)) == multiset(s)
  {
    PickMultiset(s, order, Iota(|s|));
    PickIota(s);
  }

  /** In a sequence without repeats every multiplicity is at most one. */
  lemma {:induction false} DistinctMultiplicity<T>(s: seq<T>)
    requires Distinct(s)
    ensures forall x :: multiset(s)[x] <= 1
  {
    if s != [] {
      assert s == [s[0]] + s[1..];
      assert Distinct(s[1..]);
      DistinctMultiplicity(s[1..]);
      assert s[0] !in s[1..];
      assert multiset(s[1..])[s[0]] == 0;
    }
  }

  /** A sequence whose multiplicities are at most one has no repeats. */
  lemma MultiplicityDistinct<T>(s: seq<T>)
    requires forall x :: multiset(s)[x] <= 1
    ensures Distinct(s)
  {
    forall i, j | 0 <= i < j < |s|
      ensures s[i] != s[j]
    {
      if s[i] == s[j] {
        TwoOccurrences(s, i, j);
      }
    }
  }

  /** Part of a sequence without repeats has no repeats either. */
  lemma SubMultisetDistinct<T>(s: seq<T>, t: seq<T>)
    requires Distinct(t) && multiset(s) <= multiset(t)
    ensures Distinct(s)
  {
    DistinctMultiplicity(t);
    MultiplicityDistinct(s);
  }

  lemma TwoOccurrences<T>(s: seq<T>, i: int, j: int)
    requires 0 <= i < j < |s| && s[i] == s[j]
    ensures multiset(s)[s[j]] >= 2
  {
    assert s == s[..j] + s[j..];
    assert s[i] in multiset(s[..j]);
    assert s[j] in multiset(s[j..]);
    assert multiset(s)[s[j]] == multiset(s[..j])[s[j]] + multiset(s[j..])[s[j]];
  }

  lemma PickIota<T>(s: seq<T>)
    ensures InBounds(Iota(|s|), |s|) && Pick(s, Iota(|s|)) == s
  {
    var p := Pick(s, Iota(|s|));
    assert forall i :: 0 <= i < |s| ==> p[i] == s[i];
  }

  /** A permutation lists no index twice. */
  lemma PermutationIsDistinct(order: seq<nat>, n: nat)
    requires IsPermutation(order, n)
    ensures Distinct(order)
  {
    DistinctMultiplicity(Iota(n));
    MultiplicityDistinct(order);
  }

  /** A permutation lists every index. */
  lemma PermutationCovers(order: seq<nat>, n: nat, j: nat)
    requires IsPermutation(order, n) && j < n
    ensures exists i :: 0 <= i < |order| && order[i] == j
  {
    assert Iota(n)[j] == j;
    assert j in multiset(order);
  }
}

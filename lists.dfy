/** Sequence operations the campaign code relies on: keeping the rows that satisfy a
    condition, ordering rows by a key with the largest first (SQL `ORDER BY … DESC`),
    taking a prefix (SQL `LIMIT`), and JavaScript's `Array.prototype.slice(0, end)`. */
module Lists {

  /** The elements of s that satisfy p, in their order. */
  function Filter<T>(s: seq<T>, p: T -> bool): (r: seq<T>)
    ensures |r| <= |s|
    ensures forall x :: x in r ==> x in s && p(x)
    ensures forall k :: 0 <= k < |s| && p(s[k]) ==> s[k] in r
    ensures multiset(r) <= multiset(s)
  {
    if |s| == 0 then []
    else
      var rest := Filter(s[1..], p);
      assert s == [s[0]] + s[1..];
      assert forall k :: 1 <= k < |s| ==> s[k] == s[1..][k - 1];
      if p(s[0]) then [s[0]] + rest else rest
  }

  /** Keeping the elements that satisfy p keeps each such element with all its copies. */
  lemma {:induction false} FilterCount<T>(s: seq<T>, p: T -> bool, x: T)
    ensures multiset(Filter(s, p))[x] == if p(x) then multiset(s)[x] else 0
  {
    if |s| > 0 {
      var h, t := s[0], s[1..];
      assert s == [h] + t;
      FilterCount(t, p, x);
      FilterCons(h, t, p);
      var rt := Filter(t, p);
      assert multiset(s)[x] == multiset{h}[x] + multiset(t)[x];
      if p(h) {
        assert multiset(Filter(s, p)) == multiset{h} + multiset(rt) by {
          assert Filter(s, p) == [h] + rt;
        }
      } else {
        assert Filter(s, p) == rt;
      }
    }
  }

  /** Filtering a sequence with one more element in front. */
  lemma FilterCons<T>(x: T, s: seq<T>, p: T -> bool)
    ensures Filter([x] + s, p) == if p(x) then [x] + Filter(s, p) else Filter(s, p)
  {
    assert ([x] + s)[1..] == s;
  }

  /** Filtering distributes over concatenation: what is kept keeps its order. */
  lemma {:induction false} FilterAppend<T>(a: seq<T>, b: seq<T>, p: T -> bool)
    ensures Filter(a + b, p) == Filter(a, p) + Filter(b, p)
  {
    if |a| > 0 {
      var x, t := a[0], a[1..];
      assert a == [x] + t;
      assert a + b == [x] + (t + b);
      FilterAppend(t, b, p);
      FilterCons(x, t + b, p);
      FilterCons(x, t, p);
      var ft, fb := Filter(t, p), Filter(b, p);
      if p(x) {
        assert Filter(a + b, p) == [x] + (ft + fb);
        assert [x] + (ft + fb) == ([x] + ft) + fb;
      }
    } else {
      assert a + b == b;
    }
  }

  /** A condition every element satisfies keeps the sequence as it is. */
  lemma {:induction false} FilterAll<T>(s: seq<T>, p: T -> bool)
    requires forall k :: 0 <= k < |s| ==> p(s[k])
    ensures Filter(s, p) == s
  {
    if |s| > 0 {
      FilterAll(s[1..], p);
      assert s == [s[0]] + s[1..];
    }
  }

  predicate SortedDesc<T>(s: seq<T>, key: T -> int) {
    forall i, j :: 0 <= i < j < |s| ==> key(s[i]) >= key(s[j])
  }

  /** Insert x before the first element whose key is not larger. */
  function InsertDesc<T>(x: T, s: seq<T>, key: T -> int): (r: seq<T>)
    ensures |r| == |s| + 1 && multiset(r) == multiset(s) + multiset{x}
  {
    if |s| == 0 then [x]
    else if key(x) >= key(s[0]) then [x] + s
    else
      assert s == [s[0]] + s[1..];
      [s[0]] + InsertDesc(x, s[1..], key)
  }

  /** Inserting into a sorted sequence keeps it sorted. */
  lemma {:induction false} InsertDescSorted<T>(x: T, s: seq<T>, key: T -> int)
    requires SortedDesc(s, key)
    ensures SortedDesc(InsertDesc(x, s, key), key)
  {
    if |s| > 0 && key(x) < key(s[0]) {
      var rest := InsertDesc(x, s[1..], key);
      InsertDescSorted(x, s[1..], key);
      forall y | y in rest ensures key(s[0]) >= key(y) {
        assert y in multiset(rest);
        if y != x {
          assert y in multiset(s[1..]);
          var k :| 0 <= k < |s[1..]| && s[1..][k] == y;
          assert s[k + 1] == y;
        }
      }
      assert InsertDesc(x, s, key) == [s[0]] + rest;
    }
  }

  /** Insertion sort, largest key first. */
  function SortDesc<T>(s: seq<T>, key: T -> int): (r: seq<T>)
    ensures |r| == |s| && multiset(r) == multiset(s) && SortedDesc(r, key)
  {
    if |s| == 0 then []
    else
      assert s == [s[0]] + s[1..];
      var sorted := SortDesc(s[1..], key);
      InsertDescSorted(s[0], sorted, key);
      InsertDesc(s[0], sorted, key)
  }

  /** Two conditions that agree everywhere keep the same elements. */
  lemma {:induction false} FilterSame<T>(s: seq<T>, p: T -> bool, p': T -> bool)
    requires forall x :: p(x) == p'(x)
    ensures Filter(s, p) == Filter(s, p')
  {
    if |s| > 0 {
      FilterSame(s[1..], p, p');
    }
  }

  /** A prefix holds part of the elements, each with at most its multiplicity. */
  lemma PrefixMultiset<T>(s: seq<T>, m: nat)
    requires m <= |s|
    ensures multiset(s[..m]) <= multiset(s)
    ensures multiset(s) - multiset(s[..m]) == multiset(s[m..])
  {
    assert s == s[..m] + s[m..];
  }

  /** After sorting largest first, what a prefix leaves out is never larger than what it
      keeps. */
  lemma TopOfSorted<T>(s: seq<T>, m: nat, key: T -> int)
    requires SortedDesc(s, key) && m <= |s|
    ensures forall x, y :: x in multiset(s) - multiset(s[..m]) && y in s[..m] ==> key(y) >= key(x)
  {
    PrefixMultiset(s, m);
    forall x, y | x in multiset(s) - multiset(s[..m]) && y in s[..m]
      ensures key(y) >= key(x)
    {
      assert x in s[m..];
      var j :| 0 <= j < |s[m..]| && s[m..][j] == x;
      var i :| 0 <= i < m && s[..m][i] == y;
      assert s[i] == y && s[m + j] == x;
    }
  }

  function Min(a: int, b: int): int {
    if a <= b then a else b
  }

  /** The first n elements, or all of s when it is shorter (SQL `LIMIT n`). */
  function Take<T>(s: seq<T>, n: nat): (r: seq<T>)
    ensures |r| == Min(n, |s|) && r == s[..|r|]
  {
    s[..Min(n, |s|)]
  }

  /** The end index `slice(0, end)` uses: a negative end counts from the back; the
      result is clamped to 0..|s|. */
  function SliceEnd(len: nat, end: int): (e: nat)
    ensures e <= len
    ensures end >= 0 ==> e == Min(end, len)
    ensures end < 0 ==> e == if len + end > 0 then len + end else 0
  {
    if end < 0 then (if len + end > 0 then len + end else 0)
    else if end > len then len else end
  }

  /** `s.slice(0, end)`. */
  function SliceTo<T>(s: seq<T>, end: int): (r: seq<T>)
    ensures r == s[..SliceEnd(|s|, end)]
  {
    s[..SliceEnd(|s|, end)]
  }
}

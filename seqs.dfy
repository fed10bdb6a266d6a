/**
 * The array operations the pipeline is written with: `Array.from(new Set(xs))`, `filter`,
 * `find`, `slice(0, n)`, and counting.
 */
module Seqs {
  import opened Wrappers

  function Min(a: int, b: int): int
  {
    if a <= b then a else b
  }

  predicate NoDuplicates<T(==)>(s: seq<T>)
  {
    forall i, j :: 0 <= i < j < |s| ==> s[i] != s[j]
  }

  /** The position of the first occurrence of x in s. */
  function IndexOf<T(==)>(s: seq<T>, x: T): (i: nat)
    requires x in s
    ensures i < |s| && s[i] == x && x !in s[..i]
  {
    if s[0] == x then 0 else 1 + IndexOf(s[1..], x)
  }

  /** `Array.from(new Set(s))`: every element once, at the place it first occurs. */
  function Distinct<T(==,!new)>(s: seq<T>): (r: seq<T>)
    ensures NoDuplicates(r)
    ensures forall x :: x in r <==> x in s
    ensures |r| <= |s|
  {
    if s == [] then []
    else
      var d := Distinct(s[..|s| - 1]);
      var x := s[|s| - 1];
      assert forall y :: y in s <==> y in s[..|s| - 1] || y == x;
      if x in d then d else d + [x]
  }

  /** A non-empty sequence is its prefix followed by its last element. */
  lemma SplitLast<T>(s: seq<T>)
    requires s != []
    ensures s == s[..|s| - 1] + [s[|s| - 1]]
  {
  }

  /** Adding one element at the end keeps the earlier distinct elements and adds the new one if unseen. */
  lemma DistinctSnoc<T(!new)>(s: seq<T>, x: T)
    ensures Distinct(s + [x]) == if x in s then Distinct(s) else Distinct(s) + [x]
  {
    assert (s + [x])[..|s|] == s;
  }

  lemma {:induction false} IndexOfPrefix<T>(s: seq<T>, n: nat, x: T)
    requires n <= |s| && x in s[..n]
    ensures IndexOf(s, x) == IndexOf(s[..n], x)
  {
    if s[0] != x {
      assert s[1..][..n - 1] == s[..n][1..];
      IndexOfPrefix(s[1..], n - 1, x);
    }
  }

  /** Distinct lists the elements in the order of their first occurrence in s. */
  lemma {:induction false} DistinctKeepsFirstOrder<T(!new)>(s: seq<T>)
    ensures forall i, j :: 0 <= i < j < |Distinct(s)| ==>
      IndexOf(s, Distinct(s)[i]) < IndexOf(s, Distinct(s)[j])
  {
    if s != [] {
      var p := s[..|s| - 1];
      var x := s[|s| - 1];
      DistinctKeepsFirstOrder(p);
      var d := Distinct(p);
      forall y | y in d ensures IndexOf(s, y) == IndexOf(p, y) && IndexOf(p, y) < |p| {
        IndexOfPrefix(s, |p|, y);
      }
      if x !in d {
        assert x !in p;
        assert IndexOf(s, x) == |p| by {
          assert s[..|p|] == p;
        }
      }
    }
  }

  lemma {:induction false} NoDuplicatesCardinality<T>(s: seq<T>)
    requires NoDuplicates(s)
    ensures |set x | x in s| == |s|
  {
    if s != [] {
      var p := s[..|s| - 1];
      var x := s[|s| - 1];
      NoDuplicatesCardinality(p);
      assert x !in p;
      assert (set y | y in s) == (set y | y in p) + {x};
    }
  }

  /** The length of Distinct(s) is the number of different elements of s. */
  lemma DistinctCardinality<T(!new)>(s: seq<T>)
    ensures |Distinct(s)| == |set x | x in s|
  {
    NoDuplicatesCardinality(Distinct(s));
    assert (set x | x in Distinct(s)) == (set x | x in s);
  }

  /** `s.filter(p)`: the elements satisfying p, in their original order. */
  function Filter<T(!new)>(s: seq<T>, p: T -> bool): (r: seq<T>)
    ensures |r| <= |s|
    ensures forall x :: x in r <==> x in s && p(x)
  {
    if s == [] then []
    else
      assert forall y :: y in s <==> y == s[0] || y in s[1..];
      if p(s[0]) then [s[0]] + Filter(s[1..], p) else Filter(s[1..], p)
  }

  /** Filtering commutes with concatenation, so the kept elements stay in input order. */
  lemma {:induction false} FilterAppend<T(!new)>(a: seq<T>, b: seq<T>, p: T -> bool)
    ensures Filter(a + b, p) == Filter(a, p) + Filter(b, p)
  {
    if a == [] {
      assert a + b == b;
    } else {
      assert (a + b)[1..] == a[1..] + b;
      FilterAppend(a[1..], b, p);
    }
  }

  lemma FilterSnoc<T(!new)>(s: seq<T>, x: T, p: T -> bool)
    ensures Filter(s + [x], p) == Filter(s, p) + (if p(x) then [x] else [])
  {
    FilterAppend(s, [x], p);
  }

  /** The position of an element of the tail is one past its position in the tail. */
  lemma IndexOfTail<T>(s: seq<T>, x: T)
    requires NoDuplicates(s) && |s| > 0 && x in s[1..]
    ensures IndexOf(s, x) == 1 + IndexOf(s[1..], x)
  {
    var k :| 1 <= k < |s| && s[k] == x;
    assert s[0] != s[k];
  }

  /** Filtering a sequence without repeats keeps the survivors in their original order. */
  lemma {:induction false} FilterKeepsOrder<T(!new)>(s: seq<T>, p: T -> bool)
    requires NoDuplicates(s)
    ensures forall i, j :: 0 <= i < j < |Filter(s, p)| ==> IndexOf(s, Filter(s, p)[i]) < IndexOf(s, Filter(s, p)[j])
  {
    if s != [] {
      var tail := Filter(s[1..], p);
      FilterKeepsOrder(s[1..], p);
      forall x | x in tail ensures IndexOf(s, x) == 1 + IndexOf(s[1..], x) {
        IndexOfTail(s, x);
      }
      if p(s[0]) {
        assert Filter(s, p) == [s[0]] + tail;
        ConsInOrder(s, tail);
      }
    }
  }

  /** Putting the head of s before a list of later elements in s-order keeps s-order. */
  lemma ConsInOrder<T>(s: seq<T>, tail: seq<T>)
    requires s != []
    requires forall x :: x in tail ==> x in s && IndexOf(s, x) > 0
    requires forall i, j :: 0 <= i < j < |tail| ==> IndexOf(s, tail[i]) < IndexOf(s, tail[j])
    ensures forall i, j :: 0 <= i < j < |[s[0]] + tail| ==> IndexOf(s, ([s[0]] + tail)[i]) < IndexOf(s, ([s[0]] + tail)[j])
  {
    var f := [s[0]] + tail;
    forall i, j | 0 <= i < j < |f| ensures IndexOf(s, f[i]) < IndexOf(s, f[j]) {
      assert f[j] == tail[j - 1];
      if i > 0 {
        assert f[i] == tail[i - 1];
      }
    }
  }

  /** Filtering keeps a sequence free of repeats. */
  lemma {:induction false} FilterNoDuplicates<T(!new)>(s: seq<T>, p: T -> bool)
    requires NoDuplicates(s)
    ensures NoDuplicates(Filter(s, p))
  {
    if s != [] {
      FilterNoDuplicates(s[1..], p);
      assert s[0] !in s[1..] by {
        forall k | 1 <= k < |s| ensures s[k] != s[0] {
        }
      }
      if p(s[0]) {
        var f := Filter(s, p);
        var tail := Filter(s[1..], p);
        assert f == [s[0]] + tail;
        forall i, j | 0 <= i < j < |f| ensures f[i] != f[j] {
          assert f[j] == tail[j - 1];
          if i > 0 {
            assert f[i] == tail[i - 1];
          }
        }
      }
    }
  }

  /** Filters with the same verdict on every element of s agree on s. */
  lemma {:induction false} FilterSame<T(!new)>(s: seq<T>, p: T -> bool, q: T -> bool)
    requires forall x :: x in s ==> p(x) == q(x)
    ensures Filter(s, p) == Filter(s, q)
  {
    if s != [] {
      FilterSame(s[1..], p, q);
    }
  }

  /** Filtering twice is filtering once by the conjunction. */
  lemma {:induction false} FilterFilter<T(!new)>(s: seq<T>, p: T -> bool, q: T -> bool, r: T -> bool)
    requires forall x :: r(x) == (p(x) && q(x))
    ensures Filter(Filter(s, p), q) == Filter(s, r)
  {
    if s != [] {
      FilterFilter(s[1..], p, q, r);
    }
  }

  /** A filter every element passes keeps the whole sequence. */
  lemma {:induction false} FilterAll<T(!new)>(s: seq<T>, p: T -> bool)
    requires forall x :: x in s ==> p(x)
    ensures Filter(s, p) == s
  {
    if s != [] {
      FilterAll(s[1..], p);
    }
  }

  /** No element before position i satisfies p. */
  predicate FirstMatch<T>(s: seq<T>, p: T -> bool, i: int)
  {
    forall j :: 0 <= j < i && j < |s| ==> !p(s[j])
  }

  /** `s.find(p)`: the first element satisfying p, or None. */
  function FindFirst<T>(s: seq<T>, p: T -> bool): (r: Option<T>)
    ensures r.None? <==> forall i :: 0 <= i < |s| ==> !p(s[i])
    ensures r.Some? ==> exists i :: 0 <= i < |s| && s[i] == r.value && p(s[i]) && FirstMatch(s, p, i)
  {
    if s == [] then None
    else if p(s[0]) then Some(s[0])
    else
      var r := FindFirst(s[1..], p);
      assert r.Some? ==> exists i :: 1 <= i < |s| && s[i] == r.value && p(s[i]) && FirstMatch(s, p, i) by {
        if r.Some? {
          var i :| 0 <= i < |s[1..]| && s[1..][i] == r.value && p(s[1..][i]) && FirstMatch(s[1..], p, i);
          assert FirstMatch(s, p, i + 1);
        }
      }
      r
  }

  /** The element at i is the first one satisfying p. */
  lemma {:induction false} FindFirstAt<T>(s: seq<T>, p: T -> bool, i: nat)
    requires i < |s| && p(s[i]) && FirstMatch(s, p, i)
    ensures FindFirst(s, p) == Some(s[i])
  {
    if i > 0 {
      FindFirstAt(s[1..], p, i - 1);
    }
  }

  /** The number of elements of s satisfying p. */
  function Count<T>(s: seq<T>, p: T -> bool): (n: nat)
    ensures n <= |s|
  {
    if s == [] then 0 else Count(s[..|s| - 1], p) + (if p(s[|s| - 1]) then 1 else 0)
  }

  lemma {:induction false} CountPositive<T>(s: seq<T>, p: T -> bool)
    requires Count(s, p) > 0
    ensures exists i :: 0 <= i < |s| && p(s[i])
  {
    if !p(s[|s| - 1]) {
      CountPositive(s[..|s| - 1], p);
    }
  }

  lemma {:induction false} CountAll<T>(s: seq<T>, p: T -> bool)
    requires forall i :: 0 <= i < |s| ==> p(s[i])
    ensures Count(s, p) == |s|
  {
    if s != [] {
      CountAll(s[..|s| - 1], p);
    }
  }

  lemma CountAppend<T>(s: seq<T>, x: T, p: T -> bool)
    ensures Count(s + [x], p) == Count(s, p) + (if p(x) then 1 else 0)
  {
    assert (s + [x])[..|s|] == s;
  }

  lemma TakeSnoc<T>(s: seq<T>, i: nat)
    requires i < |s|
    ensures s[..i + 1] == s[..i] + [s[i]]
  {
  }

  /** `s.slice(0, n)`. */
  function Take<T>(s: seq<T>, n: nat): (r: seq<T>)
    ensures |r| == Min(n, |s|) && r <= s
  {
    if n <= |s| then s[..n] else s
  }
}

/** Ordered sets whose order compares only a rank (`BTreeSet` over a type
    whose `Ord` is derived with `ModOrder`, which looks at the variant alone).
    A set is kept as a sequence strictly increasing by rank, so it never holds
    two elements of the same rank. */
module ModSets {

  /** Strictly increasing by rank: the sequence is a valid set. */
  predicate Sorted<T>(s: seq<T>, rank: T -> nat) {
    forall i, j :: 0 <= i < j < |s| ==> rank(s[i]) < rank(s[j])
  }

  /** The element of rank `k`, when there is one. */
  predicate HasRank<T>(s: seq<T>, rank: T -> nat, k: nat) {
    exists i :: 0 <= i < |s| && rank(s[i]) == k
  }

  lemma {:induction false} SortedTail<T>(s: seq<T>, rank: T -> nat)
    requires s != [] && Sorted(s, rank)
    ensures Sorted(s[1..], rank)
    ensures forall y :: y in s[1..] ==> rank(s[0]) < rank(y)
  {
    forall y | y in s[1..] ensures rank(s[0]) < rank(y) {
      var j :| 0 <= j < |s[1..]| && s[1..][j] == y;
      assert s[j + 1] == y;
    }
  }

  lemma {:induction false} SortedCons<T>(x: T, s: seq<T>, rank: T -> nat)
    requires Sorted(s, rank)
    requires forall y :: y in s ==> rank(x) < rank(y)
    ensures Sorted([x] + s, rank)
  {
    var r := [x] + s;
    forall i, j | 0 <= i < j < |r| ensures rank(r[i]) < rank(r[j]) {
      assert r[j] == s[j - 1];
      if i > 0 {
        assert r[i] == s[i - 1];
      } else {
        assert r[j] in s;
      }
    }
  }

  /** `BTreeSet::replace`: the element of the same rank, if any, is taken out
      and `x` put in its place. */
  function Replace<T(==,!new)>(s: seq<T>, x: T, rank: T -> nat): (r: seq<T>)
    requires Sorted(s, rank)
    ensures Sorted(r, rank)
    ensures forall y :: y in r <==> y == x || (y in s && rank(y) != rank(x))
    decreases |s|
  {
    if s == [] then [x]
    else
      SortedTail(s, rank);
      if rank(s[0]) < rank(x) then
        var tail := Replace(s[1..], x, rank);
        SortedCons(s[0], tail, rank);
        [s[0]] + tail
      else if rank(s[0]) == rank(x) then
        SortedCons(x, s[1..], rank);
        [x] + s[1..]
      else
        SortedCons(x, s, rank);
        [x] + s
  }

  /** `BTreeSet::insert`: `x` goes in only when no element of its rank is
      present; otherwise the set is unchanged. */
  function Insert<T(==,!new)>(s: seq<T>, x: T, rank: T -> nat): (r: seq<T>)
    requires Sorted(s, rank)
    ensures Sorted(r, rank)
    ensures (exists y :: y in s && rank(y) == rank(x)) ==> r == s
    ensures (forall y :: y in s ==> rank(y) != rank(x)) ==>
      forall y :: y in r <==> y == x || y in s
  {
    if exists y :: y in s && rank(y) == rank(x) then s else Replace(s, x, rank)
  }

  /** `retain`: the elements that satisfy `keep`, in order. */
  function Filter<T(==,!new)>(s: seq<T>, keep: T -> bool): (r: seq<T>)
    ensures forall y :: y in r <==> y in s && keep(y)
    ensures |r| <= |s|
    ensures |s| == 1 ==> r == if keep(s[0]) then s else []
  {
    if s == [] then []
    else (if keep(s[0]) then [s[0]] else []) + Filter(s[1..], keep)
  }

  /** Retaining keeps the order: the retained part of two runs is the
      retained part of the first followed by that of the second.  With the
      one-element case in `Filter`'s contract this determines `Filter`. */
  lemma {:induction false} FilterAppend<T(!new)>(a: seq<T>, b: seq<T>, keep: T -> bool)
    ensures Filter(a + b, keep) == Filter(a, keep) + Filter(b, keep)
    decreases |a|
  {
    if a == [] {
      assert a + b == b;
    } else {
      assert (a + b)[0] == a[0] && (a + b)[1..] == a[1..] + b;
      FilterAppend(a[1..], b, keep);
    }
  }

  /** Filtering a sequence with one more element at the end. */
  lemma {:induction false} FilterSnoc<T(!new)>(s: seq<T>, x: T, keep: T -> bool)
    ensures Filter(s + [x], keep) == Filter(s, keep) + (if keep(x) then [x] else [])
    decreases |s|
  {
    if s == [] {
      assert [] + [x] == [x];
    } else {
      assert (s + [x])[1..] == s[1..] + [x];
      FilterSnoc(s[1..], x, keep);
    }
  }

  /** Filtering keeps a sequence whose elements all pass the test. */
  lemma {:induction false} FilterAllKept<T(!new)>(s: seq<T>, keep: T -> bool)
    requires forall x :: x in s ==> keep(x)
    ensures Filter(s, keep) == s
    decreases |s|
  {
    if s != [] {
      assert s == [s[0]] + s[1..];
      FilterAllKept(s[1..], keep);
    }
  }

  /** Two filters whose tests agree everywhere keep the same elements. */
  lemma {:induction false} FilterSameTest<T(!new)>(s: seq<T>, f: T -> bool, g: T -> bool)
    requires forall x :: f(x) == g(x)
    ensures Filter(s, f) == Filter(s, g)
    decreases |s|
  {
    if s != [] {
      FilterSameTest(s[1..], f, g);
    }
  }

  /** `Vec::retain` as the source runs it: one pass over the elements,
      keeping those that satisfy `keep`. */
  method Retain<T(!new)>(s: seq<T>, keep: T -> bool) returns (r: seq<T>)
    ensures r == Filter(s, keep)
  {
    r := [];
    var i := 0;
    while i < |s|
      invariant 0 <= i <= |s|
      invariant r == Filter(s[..i], keep)
    {
      assert s[..i + 1] == s[..i] + [s[i]];
      FilterSnoc(s[..i], s[i], keep);
      if keep(s[i]) {
        r := r + [s[i]];
      }
      i := i + 1;
    }
    assert s[..i] == s;
  }

  /** A filtered set is still a set. */
  lemma {:induction false} FilterSorted<T(!new)>(s: seq<T>, keep: T -> bool, rank: T -> nat)
    requires Sorted(s, rank)
    ensures Sorted(Filter(s, keep), rank)
    decreases |s|
  {
    if s != [] {
      SortedTail(s, rank);
      FilterSorted(s[1..], keep, rank);
      if keep(s[0]) {
        SortedCons(s[0], Filter(s[1..], keep), rank);
      }
    }
  }

  /** `BTreeSet::append`: every element of `other` goes in, displacing any
      element of `s` of the same rank. */
  function Append<T(==,!new)>(s: seq<T>, other: seq<T>, rank: T -> nat): (r: seq<T>)
    requires Sorted(s, rank) && Sorted(other, rank)
    ensures Sorted(r, rank)
    ensures forall y :: y in r <==> y in other || (y in s && forall z :: z in other ==> rank(z) != rank(y))
    decreases |other|
  {
    if other == [] then s
    else
      SortedTail(other, rank);
      Append(Replace(s, other[0], rank), other[1..], rank)
  }
}

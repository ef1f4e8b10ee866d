/** Strings in `String`'s order and `BTreeSet<String>`: a set of strings
    is kept as a sequence strictly increasing in that order. `String`
    compares its UTF-8 bytes lexicographically, which orders characters
    by code point; here the characters are compared directly. */
module StringSets {

  /** `a < b` for strings: at the first position where they differ the
      character of `a` is smaller, or `a` is a proper prefix of `b`. */
  predicate Below(a: string, b: string)
    decreases |a|
  {
    if a == [] then b != []
    else if b == [] then false
    else if a[0] != b[0] then a[0] < b[0]
    else Below(a[1..], b[1..])
  }

  lemma {:induction false} BelowIrreflexive(a: string)
    ensures !Below(a, a)
    decreases |a|
  {
    if a != [] {
      BelowIrreflexive(a[1..]);
    }
  }

  lemma {:induction false} BelowTransitive(a: string, b: string, c: string)
    requires Below(a, b) && Below(b, c)
    ensures Below(a, c)
    decreases |a|
  {
    if a != [] && a[0] == b[0] && b[0] == c[0] {
      BelowTransitive(a[1..], b[1..], c[1..]);
    }
  }

  /** Any two different strings are ordered one way. */
  lemma {:induction false} BelowTotal(a: string, b: string)
    requires a != b
    ensures Below(a, b) || Below(b, a)
    decreases |a|
  {
    if a != [] && b != [] && a[0] == b[0] {
      assert a == [a[0]] + a[1..] && b == [b[0]] + b[1..];
      BelowTotal(a[1..], b[1..]);
    }
  }

  lemma {:induction false} BelowAsymmetric(a: string, b: string)
    requires Below(a, b)
    ensures !Below(b, a)
  {
    if Below(b, a) {
      BelowTransitive(a, b, a);
      BelowIrreflexive(a);
    }
  }

  /** Strictly increasing, hence without repeats. */
  predicate Increasing(s: seq<string>) {
    forall i, j :: 0 <= i < j < |s| ==> Below(s[i], s[j])
  }

  /** `BTreeSet::insert`: `x` goes in at its place unless it is there
      already. */
  function InsertName(s: seq<string>, x: string): (r: seq<string>)
    requires Increasing(s)
    ensures Increasing(r)
    ensures forall y :: y in r <==> y == x || y in s
  {
    if s == [] then [x]
    else if x == s[0] then s
    else if Below(x, s[0]) then
      forall i | 0 < i < |s| ensures Below(x, s[i]) {
        BelowTransitive(x, s[0], s[i]);
      }
      [x] + s
    else
      BelowTotal(x, s[0]);
      var rest := InsertName(s[1..], x);
      assert forall y :: y in s <==> y == s[0] || y in s[1..];
      forall i | 0 <= i < |rest| ensures Below(s[0], rest[i]) {
        assert rest[i] in rest;
        if rest[i] != x {
          assert rest[i] in s[1..];
          var k :| 0 <= k < |s[1..]| && s[1..][k] == rest[i];
          assert s[k + 1] == rest[i];
        }
      }
      [s[0]] + rest
  }

  /** `collect::<BTreeSet<String>>()` and back into a `Vec`: the distinct
      strings, in increasing order. */
  function SortedSet(names: seq<string>): (r: seq<string>)
    ensures Increasing(r)
    ensures forall y :: y in r <==> y in names
  {
    if names == [] then []
    else
      var n := |names| - 1;
      assert forall y :: y in names <==> y in names[..n] || y == names[n];
      InsertName(SortedSet(names[..n]), names[n])
  }

  /** A strictly increasing sequence is determined by its elements. */
  lemma {:induction false} IncreasingUnique(a: seq<string>, b: seq<string>)
    requires Increasing(a) && Increasing(b)
    requires forall y :: y in a <==> y in b
    ensures a == b
    decreases |a|
  {
    assert a != [] ==> a[0] in b;
    assert b != [] ==> b[0] in a;
    if a != [] && b != [] {
      if a[0] != b[0] {
        var i :| 0 <= i < |b| && b[i] == a[0];
        var j :| 0 <= j < |a| && a[j] == b[0];
        assert Below(b[0], a[0]);
        assert Below(a[0], b[0]);
        BelowAsymmetric(a[0], b[0]);
      }
      forall y ensures y in a[1..] <==> y in b[1..] {
        if y in a[1..] {
          var i :| 0 <= i < |a[1..]| && a[1..][i] == y;
          assert Below(a[0], y);
          BelowIrreflexive(y);
          assert y in b;
          assert y != b[0];
        }
        if y in b[1..] {
          var i :| 0 <= i < |b[1..]| && b[1..][i] == y;
          assert Below(b[0], y);
          BelowIrreflexive(y);
          assert y in a;
          assert y != a[0];
        }
      }
      IncreasingUnique(a[1..], b[1..]);
      assert a == [a[0]] + a[1..] && b == [b[0]] + b[1..];
    }
  }

  /** Collecting a sorted set twice changes nothing, and the order the
      strings come in does not matter. */
  lemma {:induction false} SortedSetOfSameElements(x: seq<string>, y: seq<string>)
    requires forall z :: z in x <==> z in y
    ensures SortedSet(x) == SortedSet(y)
  {
    IncreasingUnique(SortedSet(x), SortedSet(y));
  }
}

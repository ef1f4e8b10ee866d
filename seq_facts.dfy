/** Facts about concatenation, stated over plain sequences so that a proof
    about the slices of a staff or the lengths of a tie can use them
    without unfolding the functions that compute those sequences. */
module SeqFacts {

  /** Moving the first element of what is left onto what is done keeps the
      whole. */
  lemma ShiftFirst<T>(done: seq<T>, t: T, rest: seq<T>, left: seq<T>, all: seq<T>)
    requires left == [t] + rest && done + left == all
    ensures (done + [t]) + rest == all
  {
    assert (done + [t]) + rest == done + ([t] + rest);
  }

  /** Appending the same last part to a split whole: if `whole` is `init`
      followed by `last`, `init` is `a` followed by `b'`, and `b` is `b'`
      followed by `last`, then `whole` is `a` followed by `b`. */
  lemma JoinLast<T>(whole: seq<T>, init: seq<T>, last: seq<T>, a: seq<T>, b': seq<T>, b: seq<T>)
    requires whole == init + last && init == a + b' && b == b' + last
    ensures whole == a + b
  {
    assert (a + b') + last == a + (b' + last);
  }

  /** When the first `k` elements of `s` are followed by a non-empty `c`,
      the next element of `s` is the first of `c`, and taking it moves it
      from `c` to the prefix. */
  lemma TakeFirst<T>(s: seq<T>, k: nat, c: seq<T>, rest: seq<T>)
    requires k <= |s| && s == s[..k] + c + rest && c != []
    ensures k < |s| && s[k] == c[0]
    ensures s[..k + 1] + c[1..] == s[..k] + c
  {
    assert s[k] == (s[..k] + c + rest)[k];
    assert s[..k + 1] == s[..k] + [c[0]];
    assert [c[0]] + c[1..] == c;
  }

  /** A prefix grows by the next element. */
  lemma PrefixPush<T>(s: seq<T>, k: nat, x: T)
    requires k < |s| && x == s[k]
    ensures s[..k] + [x] == s[..k + 1]
  {
  }
}

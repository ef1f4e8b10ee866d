/** The slot placement of `MultiVoice::flatten`: the items of each voice
    are placed, one after another, into a list of slots ordered by start
    time, each at the time the items before it in its voice add up to.

    The placement is stated over any item type `X` with a length (`len`,
    an item's beats); start times are exact, so the source's tolerance of
    1e-6 is equality. */
module SlotLayout {
  import T = Temporal

  /** A start time and the items starting then. */
  type Slot<X> = (real, seq<X>)

  /** Where one item goes: appended in a new slot when the search starts
      past the end; otherwise into the first slot from `index` on that does
      not start earlier, when it starts at `t`, or in a new slot inserted
      before it, or appended when there is none. The index after the item's
      slot is returned. */
  function Placed<X>(slots: seq<Slot<X>>, index: nat, t: real, item: X): (r: (seq<Slot<X>>, nat))
  {
    if index >= |slots| then (slots + [(t, [item])], index + 1)
    else
      var j := T.NextSlot(slots, index, t);
      if j == |slots| then (slots + [(t, [item])], j + 1)
      else if slots[j].0 == t then (slots[j := (t, slots[j].1 + [item])], j + 1)
      else (slots[..j] + [(t, [item])] + slots[j..], j + 1)
  }

  /** The placement loop over one voice's items: each is placed at the
      running time, which then grows by the item's length. */
  function PlaceItems<X>(slots: seq<Slot<X>>, items: seq<X>, len: X -> real, index: nat, t: real): seq<Slot<X>>
    decreases |items|
  {
    if items == [] then slots
    else
      var placed := Placed(slots, index, t, items[0]);
      PlaceItems(placed.0, items[1..], len, placed.1, t + len(items[0]))
  }

  /** The lengths of the items, added from the first to the last. */
  function Sum<X>(items: seq<X>, len: X -> real): real
    decreases |items|
  {
    if items == [] then 0.0 else Sum(items[..|items| - 1], len) + len(items[|items| - 1])
  }

  /** Every voice laid out in turn, each from time 0 and index 0. */
  function PlaceAll<X>(slots: seq<Slot<X>>, voices: seq<seq<X>>, len: X -> real): seq<Slot<X>>
    decreases |voices|
  {
    if voices == [] then slots
    else PlaceAll(PlaceItems(slots, voices[0], len, 0, 0.0), voices[1..], len)
  }

  /** One item's placement: walks from `index` past the slots that start
      earlier (appending an empty slot at `t` when it runs off the end),
      then adds the item to the slot starting at `t` or inserts a new slot. */
  method PlaceOne<X>(slots: seq<Slot<X>>, index: nat, t: real, item: X) returns (r: seq<Slot<X>>, next: nat)
    ensures (r, next) == Placed(slots, index, t, item)
  {
    r := slots;
    var i := index;
    if i < |r| {
      var sliceTime := r[i].0;
      while t > sliceTime
        invariant index <= i <= |slots|
        invariant i < |slots| ==> r == slots && sliceTime == slots[i].0
        invariant i == |slots| ==> r == slots + [(t, [])] && sliceTime == t
        invariant forall k :: index <= k < i ==> slots[k].0 < t
        decreases |slots| - i
      {
        i := i + 1;
        if i < |r| {
          sliceTime := r[i].0;
        } else {
          r := r + [(t, [])];
          sliceTime := t;
        }
      }
      T.SlotFound(slots, index, i, t);
      if sliceTime == t {
        ghost var last := i == |slots|;
        if last {
          assert r[i].1 + [item] == [item];
        }
        r := r[i := (r[i].0, r[i].1 + [item])];
        if last {
          assert r == slots + [(t, [item])];
        }
      } else {
        r := r[..i] + [(t, [item])] + r[i..];
      }
    } else {
      r := r + [(t, [item])];
    }
    next := i + 1;
  }

  /** The placement loop over one voice, from time 0 and index 0. */
  method PlaceVoice<X>(slots: seq<Slot<X>>, items: seq<X>, len: X -> real) returns (r: seq<Slot<X>>)
    ensures r == PlaceItems(slots, items, len, 0, 0.0)
  {
    r := slots;
    var index, currTime := 0, 0.0;
    var i := 0;
    while i < |items|
      invariant 0 <= i <= |items|
      invariant PlaceItems(r, items[i..], len, index, currTime) == PlaceItems(slots, items, len, 0, 0.0)
    {
      assert items[i..][1..] == items[i + 1..];
      var sliceDuration := len(items[i]);
      r, index := PlaceOne(r, index, currTime, items[i]);
      currTime := currTime + sliceDuration;
      i := i + 1;
    }
  }

  /** The placement loop over all voices, into an initially empty list. */
  method PlaceVoices<X>(voices: seq<seq<X>>, len: X -> real) returns (r: seq<Slot<X>>)
    ensures r == PlaceAll([], voices, len)
  {
    r := [];
    var k := 0;
    while k < |voices|
      invariant 0 <= k <= |voices|
      invariant PlaceAll(r, voices[k..], len) == PlaceAll([], voices, len)
    {
      assert voices[k..][1..] == voices[k + 1..];
      r := PlaceVoice(r, voices[k], len);
      k := k + 1;
    }
  }

  // ---------------------------------------------------------------------
  // Properties of the placement

  /** Every item of `s` is among those of `u`. */
  ghost predicate Within<X>(s: seq<X>, u: seq<X>) {
    forall x :: x in s ==> x in u
  }

  /** Some slot of `b` starts at `t` and holds every item of `s`. */
  ghost predicate Found<X>(b: seq<Slot<X>>, t: real, s: seq<X>) {
    exists m :: 0 <= m < |b| && b[m].0 == t && Within(s, b[m].1)
  }

  /** Every slot of `a` is found in `b`, with the same start and at least
      its items. */
  ghost predicate Keeps<X>(a: seq<Slot<X>>, b: seq<Slot<X>>) {
    forall i :: 0 <= i < |a| ==> Found(b, a[i].0, a[i].1)
  }

  /** Some slot starting at `t` holds the item. */
  ghost predicate Lands<X>(r: seq<Slot<X>>, t: real, item: X) {
    exists m :: 0 <= m < |r| && r[m].0 == t && item in r[m].1
  }

  /** The slots are in strictly increasing order and those before `index`
      start before `t`: what placing an item at `t` from `index` needs. */
  ghost predicate Ready<X>(slots: seq<Slot<X>>, index: nat, t: real) {
    T.StartsIncrease(slots) && index <= |slots| && forall k :: 0 <= k < index ==> slots[k].0 < t
  }

  /** Every item lasts some time. */
  ghost predicate Lasts<X>(items: seq<X>, len: X -> real) {
    forall i :: 0 <= i < |items| ==> len(items[i]) > 0.0
  }

  /** Slots kept position by position are kept. */
  lemma {:induction false} KeepsInPlace<X>(a: seq<Slot<X>>, b: seq<Slot<X>>)
    requires |a| <= |b|
    requires forall i :: 0 <= i < |a| ==> b[i].0 == a[i].0 && Within(a[i].1, b[i].1)
    ensures Keeps(a, b)
  {
    forall i | 0 <= i < |a| ensures Found(b, a[i].0, a[i].1) {
      assert b[i].0 == a[i].0 && Within(a[i].1, b[i].1);
    }
  }

  lemma {:induction false} KeepsTrans<X>(a: seq<Slot<X>>, b: seq<Slot<X>>, c: seq<Slot<X>>)
    requires Keeps(a, b) && Keeps(b, c)
    ensures Keeps(a, c)
  {
    forall i | 0 <= i < |a| ensures Found(c, a[i].0, a[i].1) {
      assert Found(b, a[i].0, a[i].1);
      var m1 :| 0 <= m1 < |b| && b[m1].0 == a[i].0 && Within(a[i].1, b[m1].1);
      assert Found(c, b[m1].0, b[m1].1);
      var m2 :| 0 <= m2 < |c| && c[m2].0 == b[m1].0 && Within(b[m1].1, c[m2].1);
      assert Within(a[i].1, c[m2].1);
    }
  }

  /** What is kept keeps landing. */
  lemma {:induction false} LandsKept<X>(a: seq<Slot<X>>, b: seq<Slot<X>>, t: real, item: X)
    requires Lands(a, t, item) && Keeps(a, b)
    ensures Lands(b, t, item)
  {
    var m :| 0 <= m < |a| && a[m].0 == t && item in a[m].1;
    assert Found(b, a[m].0, a[m].1);
    var m' :| 0 <= m' < |b| && b[m'].0 == a[m].0 && Within(a[m].1, b[m'].1);
    assert item in b[m'].1;
  }

  /** From ready slots the item lands in a slot starting at `t`, just before
      the returned index, and the order stays strict. */
  lemma {:induction false} PlacedInOrder<X>(slots: seq<Slot<X>>, index: nat, t: real, item: X)
    requires Ready(slots, index, t)
    ensures var r := Placed(slots, index, t, item);
      T.StartsIncrease(r.0) && 1 <= r.1 <= |r.0| && r.0[r.1 - 1].0 == t && item in r.0[r.1 - 1].1
  {
    if index < |slots| {
      var n := T.NextSlot(slots, index, t);
      forall k | 0 <= k < n ensures slots[k].0 < t {
      }
    }
  }

  /** Placing an item loses no slot and no item. */
  lemma {:induction false} PlacedKeeps<X>(slots: seq<Slot<X>>, index: nat, t: real, item: X)
    ensures Keeps(slots, Placed(slots, index, t, item).0)
  {
    var r := Placed(slots, index, t, item).0;
    if index >= |slots| || T.NextSlot(slots, index, t) == |slots| {
      forall i | 0 <= i < |slots| ensures r[i].0 == slots[i].0 && Within(slots[i].1, r[i].1) {
        assert r[i] == slots[i];
      }
      KeepsInPlace(slots, r);
    } else {
      var n := T.NextSlot(slots, index, t);
      if slots[n].0 == t {
        forall i | 0 <= i < |slots| ensures r[i].0 == slots[i].0 && Within(slots[i].1, r[i].1) {
        }
        KeepsInPlace(slots, r);
      } else {
        forall i | 0 <= i < |slots|
          ensures Found(r, slots[i].0, slots[i].1)
        {
          if i < n {
            assert r[i] == slots[i] && Within(slots[i].1, r[i].1);
          } else {
            assert r[i + 1] == slots[i] && Within(slots[i].1, r[i + 1].1);
          }
        }
      }
    }
  }

  /** After an item that lasts, the slots are ready for the next item at
      the later time, and the item has landed at `t`. */
  lemma {:induction false} ReadyAfter<X>(slots: seq<Slot<X>>, index: nat, t: real, item: X, d: real)
    requires Ready(slots, index, t) && d > 0.0
    ensures var r := Placed(slots, index, t, item);
      Ready(r.0, r.1, t + d) && Lands(r.0, t, item) && Keeps(slots, r.0)
  {
    var r := Placed(slots, index, t, item);
    PlacedInOrder(slots, index, t, item);
    PlacedKeeps(slots, index, t, item);
    forall k | 0 <= k < r.1 ensures r.0[k].0 < t + d {
      if k < r.1 - 1 {
        assert r.0[k].0 < r.0[r.1 - 1].0;
      }
    }
  }

  /** The rest of a voice still lasts. */
  lemma {:induction false} LastsTail<X>(items: seq<X>, len: X -> real)
    requires Lasts(items, len) && items != []
    ensures Lasts(items[1..], len)
  {
    forall i | 0 <= i < |items| - 1 ensures items[1..][i] == items[i + 1] {
    }
  }

  /** One voice laid out from ready slots keeps the order strict. */
  lemma {:induction false} PlaceItemsInOrder<X>(slots: seq<Slot<X>>, items: seq<X>, len: X -> real, index: nat, t: real)
    requires Lasts(items, len) && Ready(slots, index, t)
    ensures T.StartsIncrease(PlaceItems(slots, items, len, index, t))
    decreases |items|
  {
    if items != [] {
      var next := Placed(slots, index, t, items[0]);
      var d := len(items[0]);
      assert Ready(next.0, next.1, t + d) by {
        ReadyAfter(slots, index, t, items[0], d);
      }
      assert Lasts(items[1..], len) by {
        LastsTail(items, len);
      }
      PlaceItemsInOrder(next.0, items[1..], len, next.1, t + d);
    }
  }

  /** Laying a voice out loses no slot and no item. */
  lemma {:induction false} PlaceItemsKeeps<X>(slots: seq<Slot<X>>, items: seq<X>, len: X -> real, index: nat, t: real)
    ensures Keeps(slots, PlaceItems(slots, items, len, index, t))
    decreases |items|
  {
    var r := PlaceItems(slots, items, len, index, t);
    if items == [] {
      KeepsInPlace(slots, r);
    } else {
      var next := Placed(slots, index, t, items[0]);
      PlacedKeeps(slots, index, t, items[0]);
      PlaceItemsKeeps(next.0, items[1..], len, next.1, t + len(items[0]));
      KeepsTrans(slots, next.0, r);
    }
  }

  /** The lengths of the first `i + 1` items are the first item's plus
      those of the next `i`. */
  lemma {:induction false} SumAfterFirst<X>(items: seq<X>, len: X -> real, i: nat)
    requires i < |items|
    ensures Sum(items[..i + 1], len) == len(items[0]) + Sum(items[1..][..i], len)
    decreases i
  {
    if i > 0 {
      SumAfterFirst(items, len, i - 1);
      assert items[..i + 1][..i] == items[..i];
      assert items[1..][..i][..i - 1] == items[1..][..i - 1];
      assert items[1..][..i][i - 1] == items[i];
    } else {
      assert items[..1][..0] == [];
    }
  }

  /** The first item of a voice laid out from time `t` lands in a slot
      starting at `t`. */
  lemma {:induction false} PlaceItemsLandsFirst<X>(slots: seq<Slot<X>>, items: seq<X>, len: X -> real, index: nat, t: real)
    requires Lasts(items, len) && Ready(slots, index, t) && items != []
    ensures Lands(PlaceItems(slots, items, len, index, t), t, items[0])
  {
    var next := Placed(slots, index, t, items[0]);
    var d := len(items[0]);
    var r := PlaceItems(next.0, items[1..], len, next.1, t + d);
    assert Lands(next.0, t, items[0]) by {
      ReadyAfter(slots, index, t, items[0], d);
    }
    assert Keeps(next.0, r) by {
      PlaceItemsKeeps(next.0, items[1..], len, next.1, t + d);
    }
    LandsKept(next.0, r, t, items[0]);
    assert PlaceItems(slots, items, len, index, t) == r;
  }

  /** Item `i` of a voice laid out from time `t` lands in a slot starting at
      `t` plus the lengths of the items before it. */
  lemma {:induction false} PlaceItemsLands<X>(slots: seq<Slot<X>>, items: seq<X>, len: X -> real, index: nat, t: real, i: nat)
    requires Lasts(items, len) && Ready(slots, index, t) && i < |items|
    ensures Lands(PlaceItems(slots, items, len, index, t), t + Sum(items[..i], len), items[i])
    decreases i
  {
    if i == 0 {
      PlaceItemsLandsFirst(slots, items, len, index, t);
      assert items[..0] == [];
    } else {
      var next := Placed(slots, index, t, items[0]);
      var d := len(items[0]);
      assert Ready(next.0, next.1, t + d) by {
        ReadyAfter(slots, index, t, items[0], d);
      }
      assert Lasts(items[1..], len) by {
        LastsTail(items, len);
      }
      PlaceItemsLands(next.0, items[1..], len, next.1, t + d, i - 1);
      SumAfterFirst(items, len, i - 1);
      assert items[1..][i - 1] == items[i];
    }
  }

  /** Every item of every voice lasts. */
  ghost predicate AllLast<X>(voices: seq<seq<X>>, len: X -> real) {
    forall k :: 0 <= k < |voices| ==> Lasts(voices[k], len)
  }

  /** The voices after the first still last. */
  lemma {:induction false} AllLastTail<X>(voices: seq<seq<X>>, len: X -> real)
    requires AllLast(voices, len) && voices != []
    ensures AllLast(voices[1..], len)
  {
    forall k | 0 <= k < |voices| - 1 ensures Lasts(voices[1..][k], len) {
      assert voices[1..][k] == voices[k + 1];
    }
  }

  /** Laying out every voice keeps the slots in strictly increasing order. */
  lemma {:induction false} PlaceAllInOrder<X>(slots: seq<Slot<X>>, voices: seq<seq<X>>, len: X -> real)
    requires T.StartsIncrease(slots) && AllLast(voices, len)
    ensures T.StartsIncrease(PlaceAll(slots, voices, len))
    decreases |voices|
  {
    if voices != [] {
      var next := PlaceItems(slots, voices[0], len, 0, 0.0);
      assert T.StartsIncrease(next) by {
        PlaceItemsInOrder(slots, voices[0], len, 0, 0.0);
      }
      assert AllLast(voices[1..], len) by {
        AllLastTail(voices, len);
      }
      PlaceAllInOrder(next, voices[1..], len);
    }
  }

  /** Laying out every voice loses no slot and no item. */
  lemma {:induction false} PlaceAllKeeps<X>(slots: seq<Slot<X>>, voices: seq<seq<X>>, len: X -> real)
    ensures Keeps(slots, PlaceAll(slots, voices, len))
    decreases |voices|
  {
    var r := PlaceAll(slots, voices, len);
    if voices == [] {
      KeepsInPlace(slots, r);
    } else {
      var next := PlaceItems(slots, voices[0], len, 0, 0.0);
      assert Keeps(slots, next) by {
        PlaceItemsKeeps(slots, voices[0], len, 0, 0.0);
      }
      assert Keeps(next, r) by {
        PlaceAllKeeps(next, voices[1..], len);
      }
      KeepsTrans(slots, next, r);
    }
  }

  /** Item `i` of voice `k` lands in a slot starting at the lengths of the
      items before it in its voice. */
  lemma {:induction false} PlaceAllLands<X>(slots: seq<Slot<X>>, voices: seq<seq<X>>, len: X -> real, k: nat, i: nat)
    requires T.StartsIncrease(slots) && AllLast(voices, len)
    requires k < |voices| && i < |voices[k]|
    ensures Lands(PlaceAll(slots, voices, len), Sum(voices[k][..i], len), voices[k][i])
    decreases k
  {
    var next := PlaceItems(slots, voices[0], len, 0, 0.0);
    var r := PlaceAll(slots, voices, len);
    assert r == PlaceAll(next, voices[1..], len);
    if k == 0 {
      assert Lands(next, 0.0 + Sum(voices[0][..i], len), voices[0][i]) by {
        PlaceItemsLands(slots, voices[0], len, 0, 0.0, i);
      }
      assert Keeps(next, r) by {
        PlaceAllKeeps(next, voices[1..], len);
      }
      LandsKept(next, r, Sum(voices[0][..i], len), voices[0][i]);
    } else {
      assert T.StartsIncrease(next) by {
        PlaceItemsInOrder(slots, voices[0], len, 0, 0.0);
      }
      assert AllLast(voices[1..], len) by {
        AllLastTail(voices, len);
      }
      assert voices[1..][k - 1] == voices[k];
      PlaceAllLands(next, voices[1..], len, k - 1, i);
    }
  }

  /** Every slot holds some item, and every item satisfies `ok`. */
  ghost predicate Holds<X>(slots: seq<Slot<X>>, ok: X -> bool) {
    forall m :: 0 <= m < |slots| ==> |slots[m].1| > 0 && forall x :: x in slots[m].1 ==> ok(x)
  }

  /** Every item of every voice satisfies `ok`. */
  ghost predicate VoicesHold<X>(voices: seq<seq<X>>, ok: X -> bool) {
    forall k :: 0 <= k < |voices| ==> forall x :: x in voices[k] ==> ok(x)
  }

  /** Placing an item satisfying `ok` leaves no slot empty and adds no other
      item. */
  lemma {:induction false} PlacedHolds<X>(slots: seq<Slot<X>>, index: nat, t: real, item: X, ok: X -> bool)
    requires Holds(slots, ok) && ok(item)
    ensures Holds(Placed(slots, index, t, item).0, ok)
  {
    var r := Placed(slots, index, t, item).0;
    if index < |slots| {
      var j := T.NextSlot(slots, index, t);
      if j < |slots| && slots[j].0 == t {
        forall m | 0 <= m < |r| ensures |r[m].1| > 0 && forall x :: x in r[m].1 ==> ok(x) {
          if m != j {
            assert r[m] == slots[m];
          }
        }
      } else if j < |slots| {
        forall m | 0 <= m < |r| ensures |r[m].1| > 0 && forall x :: x in r[m].1 ==> ok(x) {
          if m < j {
            assert r[m] == slots[m];
          } else if m > j {
            assert r[m] == slots[m - 1];
          }
        }
      }
    }
  }

  /** Laying out one voice whose items satisfy `ok` keeps `Holds`. */
  lemma {:induction false} PlaceItemsHolds<X>(slots: seq<Slot<X>>, items: seq<X>, len: X -> real, index: nat, t: real, ok: X -> bool)
    requires Holds(slots, ok) && forall x :: x in items ==> ok(x)
    ensures Holds(PlaceItems(slots, items, len, index, t), ok)
    decreases |items|
  {
    if items != [] {
      var next := Placed(slots, index, t, items[0]);
      assert Holds(next.0, ok) by {
        PlacedHolds(slots, index, t, items[0], ok);
      }
      assert forall x :: x in items[1..] ==> x in items;
      PlaceItemsHolds(next.0, items[1..], len, next.1, t + len(items[0]), ok);
    }
  }

  /** Laying out voices whose items satisfy `ok` keeps `Holds`: the slots
      are never empty and hold only items of the voices. */
  lemma {:induction false} PlaceAllHolds<X>(slots: seq<Slot<X>>, voices: seq<seq<X>>, len: X -> real, ok: X -> bool)
    requires Holds(slots, ok) && VoicesHold(voices, ok)
    ensures Holds(PlaceAll(slots, voices, len), ok)
    decreases |voices|
  {
    if voices != [] {
      var next := PlaceItems(slots, voices[0], len, 0, 0.0);
      assert Holds(next, ok) by {
        PlaceItemsHolds(slots, voices[0], len, 0, 0.0, ok);
      }
      assert VoicesHold(voices[1..], ok) by {
        forall k | 0 <= k < |voices| - 1 ensures voices[1..][k] == voices[k + 1] {
        }
      }
      PlaceAllHolds(next, voices[1..], len, ok);
    }
  }
}

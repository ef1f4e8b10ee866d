/** The countdown merge behind `MultiVoiceTimesliceIter`: each voice of a
    multivoice offers its slices one after another, and every call emits the
    slices of all voices that are due now, combined, then moves the clock on
    to the next instant at which some voice is due.

    The merge is stated over any item type `T` with a length (`len`, the
    beats of a slice) and a way to join two items (`combine`). A voice's
    own iterator is abstracted to the items it has still to yield. The
    parameter `intended` selects the corrected rule for the clock (see
    `Bounds`); `intended == false` is the code as written. Countdowns are
    exact, so the source's tolerance of 1e-6 around zero is equality. */
module VoiceMerge {
  import opened Wrappers

  /** `f64::MAX`, the starting bound of the search for the next instant. */
  const F64Max: real := 179769313486231570814527423731704356798070567525844996598917476803157260780028538760589558632766878171540458953514382464234321326889464182768467546703537516986049910576551282076245490090389328944075868508455133942304583236903222948165808559332123348274797826204144723168738177180919299881250404026184124858368.0

  /** One voice: the time left until its next item is due, the items its
      iterator has not yet yielded, and the item it holds ready. */
  datatype Voice<T> = Voice(countdown: real, rest: seq<T>, item: Option<T>)

  /** The voice's item is due now. */
  predicate Ready<T>(v: Voice<T>) {
    v.countdown == 0.0 && v.item.Some?
  }

  /** The voice holds an item it has not handed out. */
  predicate Pending<T>(v: Voice<T>) {
    v.item.Some?
  }

  /** The voice after handing out its item when ready: the next item from
      its iterator is held, and the countdown becomes the handed item's
      length. */
  function Advance<T>(v: Voice<T>, len: T -> real): (r: Voice<T>)
    ensures !Ready(v) ==> r == v
    ensures Ready(v) ==> (r.countdown == len(v.item.value)
      && (v.rest == [] ==> r.item.None? && r.rest == [])
      && (v.rest != [] ==> r.item == Some(v.rest[0]) && r.rest == v.rest[1..]))
  {
    if Ready(v) then
      Voice(len(v.item.value), if v.rest == [] then [] else v.rest[1..],
            if v.rest == [] then Option.None else Some(v.rest[0]))
    else v
  }

  /** Whether the voice bounds the step to the next instant: a voice handing
      out its item bounds it by that item's length when another item
      follows; any other voice with a non-negative countdown bounds it by
      that countdown, and under the corrected rule only when it still holds
      an item. */
  predicate Bounds<T>(v: Voice<T>, intended: bool) {
    if v.countdown == 0.0 then v.item.Some? && v.rest != []
    else v.countdown >= 0.0 && (!intended || v.item.Some?)
  }

  /** The bound a bounding voice sets. */
  function BoundOf<T>(v: Voice<T>, len: T -> real): real
    requires v.countdown == 0.0 ==> v.item.Some?
  {
    if v.countdown == 0.0 then len(v.item.value) else v.countdown
  }

  /** The next instant found by visiting the voices in order, starting from
      `f64::MAX` and keeping any strictly smaller bound: the smallest bound
      of a bounding voice, or `f64::MAX` when there is none below it. */
  function NextInstant<T>(vs: seq<Voice<T>>, len: T -> real, intended: bool): (d: real)
    ensures d <= F64Max
    ensures forall k :: 0 <= k < |vs| && Bounds(vs[k], intended) ==> d <= BoundOf(vs[k], len)
    ensures d == F64Max || exists k :: 0 <= k < |vs| && Bounds(vs[k], intended) && d == BoundOf(vs[k], len)
    decreases |vs|
  {
    if vs == [] then F64Max
    else
      var n := |vs| - 1;
      var m := NextInstant(vs[..n], len, intended);
      assert forall k :: 0 <= k < n ==> vs[..n][k] == vs[k];
      if Bounds(vs[n], intended) && BoundOf(vs[n], len) < m then BoundOf(vs[n], len) else m
  }

  /** The items of the ready voices, in voice order. */
  function ReadyItems<T>(vs: seq<Voice<T>>): (r: seq<T>)
    ensures |r| <= |vs|
    ensures r == [] <==> forall k :: 0 <= k < |vs| ==> !Ready(vs[k])
    decreases |vs|
  {
    if vs == [] then []
    else
      var n := |vs| - 1;
      assert forall k :: 0 <= k < n ==> vs[..n][k] == vs[k];
      ReadyItems(vs[..n]) + (if Ready(vs[n]) then [vs[n].item.value] else [])
  }

  /** Items combined one after another, the first as the start. */
  function Joined<T>(xs: seq<T>, combine: (T, T) -> T): (r: Option<T>)
    ensures r.None? <==> xs == []
    ensures |xs| == 1 ==> r == Some(xs[0])
    decreases |xs|
  {
    if xs == [] then Option.None
    else
      var n := |xs| - 1;
      var before := Joined(xs[..n], combine);
      Some(if before.Some? then combine(before.value, xs[n]) else xs[n])
  }

  /** Every voice advanced. */
  function Advanced<T>(vs: seq<Voice<T>>, len: T -> real): (r: seq<Voice<T>>)
    ensures |r| == |vs|
    ensures forall k :: 0 <= k < |vs| ==> r[k] == Advance(vs[k], len)
  {
    seq(|vs|, k requires 0 <= k < |vs| => Advance(vs[k], len))
  }

  /** Every countdown lowered by the same amount. */
  function Lowered<T>(vs: seq<Voice<T>>, d: real): (r: seq<Voice<T>>)
    ensures |r| == |vs|
    ensures forall k :: 0 <= k < |vs| ==> r[k] == vs[k].(countdown := vs[k].countdown - d)
  {
    seq(|vs|, k requires 0 <= k < |vs| => vs[k].(countdown := vs[k].countdown - d))
  }

  /** `MultiVoiceTimesliceIter::next`: the items of the voices due now,
      combined in voice order; when there are any, every voice afterwards
      has advanced and counts down from the next instant, and when there are
      none nothing changes. */
  function MergeStep<T>(vs: seq<Voice<T>>, len: T -> real, combine: (T, T) -> T, intended: bool): (r: (Option<T>, seq<Voice<T>>))
    ensures |r.1| == |vs|
    ensures r.0.None? <==> forall k :: 0 <= k < |vs| ==> !Ready(vs[k])
    ensures r.0.None? ==> r.1 == vs
  {
    var out := Joined(ReadyItems(vs), combine);
    if out.None? then (out, vs)
    else (out, Lowered(Advanced(vs, len), NextInstant(vs, len, intended)))
  }

  /** One more voice visited: how the next instant, the ready items and
      the advanced voices of a prefix grow by the voice at position `k`. */
  lemma {:induction false} VisitStep<T>(vs: seq<Voice<T>>, k: nat, len: T -> real, intended: bool)
    requires k < |vs|
    ensures NextInstant(vs[..k + 1], len, intended) ==
      (if Bounds(vs[k], intended) && BoundOf(vs[k], len) < NextInstant(vs[..k], len, intended) then BoundOf(vs[k], len)
       else NextInstant(vs[..k], len, intended))
    ensures ReadyItems(vs[..k + 1]) ==
      (if Ready(vs[k]) then ReadyItems(vs[..k]) + [vs[k].item.value] else ReadyItems(vs[..k]))
  {
    assert vs[..k + 1][..k] == vs[..k] && vs[..k + 1][k] == vs[k];
    assert ReadyItems(vs[..k]) + [] == ReadyItems(vs[..k]);
  }

  /** Advancing the voices one at a time, in place: after the voice at
      position `k` the first `k + 1` have advanced and the others are as
      they were. */
  lemma {:induction false} AdvanceOne<T>(vs: seq<Voice<T>>, cur: seq<Voice<T>>, k: nat, len: T -> real)
    requires k < |vs| == |cur|
    requires forall j :: 0 <= j < k ==> cur[j] == Advance(vs[j], len)
    requires forall j :: k <= j < |cur| ==> cur[j] == vs[j]
    ensures forall j :: 0 <= j < k + 1 ==> cur[k := Advance(vs[k], len)][j] == Advance(vs[j], len)
    ensures forall j :: k + 1 <= j < |cur| ==> cur[k := Advance(vs[k], len)][j] == vs[j]
  {
  }

  /** Joining one more item onto the items joined so far. */
  lemma {:induction false} JoinedStep<T>(xs: seq<T>, x: T, combine: (T, T) -> T)
    ensures Joined(xs + [x], combine) ==
      Some(if Joined(xs, combine).Some? then combine(Joined(xs, combine).value, x) else x)
  {
    assert (xs + [x])[..|xs|] == xs;
  }

  /** `MultiVoiceTimesliceIter::next` as the code runs it: a first pass
      over the voices, in order, hands out the items due now and combines
      them, and finds the next instant; when anything was handed out, a
      second pass lowers every countdown by it. */
  method Step<T>(vs: seq<Voice<T>>, len: T -> real, combine: (T, T) -> T, intended: bool)
    returns (out: Option<T>, after: seq<Voice<T>>)
    ensures (out, after) == MergeStep(vs, len, combine, intended)
  {
    var nextStart;
    after, out, nextStart := Visit(vs, len, combine, intended);
    if out.Some? {
      after := Lower(after, nextStart);
    } else {
      assert after == vs by {
        forall k | 0 <= k < |vs| ensures after[k] == vs[k] {
          assert !Ready(vs[k]);
        }
      }
    }
  }

  /** The first pass. A voice whose countdown has reached zero and that
      holds an item hands it out, takes its iterator's next item and counts
      down from the handed item's length, which bounds the next instant
      when another item follows; any other voice bounds it by its
      countdown when that is not negative (and, under the corrected rule,
      only when it still holds an item). */
  method Visit<T>(vs: seq<Voice<T>>, len: T -> real, combine: (T, T) -> T, intended: bool)
    returns (voices: seq<Voice<T>>, out: Option<T>, nextStart: real)
    ensures voices == Advanced(vs, len)
    ensures nextStart == NextInstant(vs, len, intended)
    ensures out == Joined(ReadyItems(vs), combine)
  {
    voices := vs;
    nextStart := F64Max;
    out := Option.None;
    var k := 0;
    while k < |voices|
      invariant 0 <= k <= |voices| && |voices| == |vs|
      invariant forall j :: 0 <= j < k ==> voices[j] == Advance(vs[j], len)
      invariant forall j :: k <= j < |voices| ==> voices[j] == vs[j]
      invariant nextStart == NextInstant(vs[..k], len, intended)
      invariant out == Joined(ReadyItems(vs[..k]), combine)
    {
      voices, out, nextStart := VisitOne(vs, k, voices, out, nextStart, len, combine, intended);
      k := k + 1;
    }
    assert vs[..k] == vs;
  }

  /** The first pass at the voice at position `k`. */
  method VisitOne<T>(ghost vs: seq<Voice<T>>, k: nat, voices: seq<Voice<T>>, out: Option<T>, nextStart: real,
                     len: T -> real, combine: (T, T) -> T, intended: bool)
    returns (voices': seq<Voice<T>>, out': Option<T>, nextStart': real)
    requires k < |voices| == |vs|
    requires forall j :: 0 <= j < k ==> voices[j] == Advance(vs[j], len)
    requires forall j :: k <= j < |voices| ==> voices[j] == vs[j]
    requires nextStart == NextInstant(vs[..k], len, intended)
    requires out == Joined(ReadyItems(vs[..k]), combine)
    ensures |voices'| == |vs|
    ensures forall j :: 0 <= j < k + 1 ==> voices'[j] == Advance(vs[j], len)
    ensures forall j :: k + 1 <= j < |voices'| ==> voices'[j] == vs[j]
    ensures nextStart' == NextInstant(vs[..k + 1], len, intended)
    ensures out' == Joined(ReadyItems(vs[..k + 1]), combine)
  {
    if voices[k].countdown == 0.0 && voices[k].item.Some? {
      voices', out', nextStart' := VisitReady(vs, k, voices, out, nextStart, len, combine, intended);
    } else {
      voices', out', nextStart' := VisitWaiting(vs, k, voices, out, nextStart, len, combine, intended);
    }
  }

  /** A voice due now hands out its item, takes the next one from its
      iterator and counts down from the item's length; that length bounds
      the next instant when another item follows. */
  method VisitReady<T>(ghost vs: seq<Voice<T>>, k: nat, voices: seq<Voice<T>>, out: Option<T>, nextStart: real,
                     len: T -> real, combine: (T, T) -> T, intended: bool)
    returns (voices': seq<Voice<T>>, out': Option<T>, nextStart': real)
    requires k < |voices| == |vs|
    requires forall j :: 0 <= j < k ==> voices[j] == Advance(vs[j], len)
    requires forall j :: k <= j < |voices| ==> voices[j] == vs[j]
    requires nextStart == NextInstant(vs[..k], len, intended)
    requires out == Joined(ReadyItems(vs[..k]), combine)
    requires voices[k].countdown == 0.0 && voices[k].item.Some?
    ensures |voices'| == |vs|
    ensures forall j :: 0 <= j < k + 1 ==> voices'[j] == Advance(vs[j], len)
    ensures forall j :: k + 1 <= j < |voices'| ==> voices'[j] == vs[j]
    ensures nextStart' == NextInstant(vs[..k + 1], len, intended)
    ensures out' == Joined(ReadyItems(vs[..k + 1]), combine)
  {
    var v := voices[k];
    assert v == vs[k];
    VisitStep(vs, k, len, intended);
    AdvanceOne(vs, voices, k, len);
    var item := v.item.value;
    var following := if v.rest == [] then Option.None else Some(v.rest[0]);
    var length := len(item);
    voices' := voices[k := Voice(length, if v.rest == [] then [] else v.rest[1..], following)];
    nextStart' := nextStart;
    if length < nextStart' && following.Some? {
      nextStart' := length;
    }
    JoinedStep(ReadyItems(vs[..k]), item, combine);
    if out.Some? {
      out' := Some(combine(out.value, item));
    } else {
      out' := Some(item);
    }
  }

  /** A voice not due now stays as it is and bounds the next instant by
      its countdown when that is not negative (and, under the corrected
      rule, only when it still holds an item). */
  method VisitWaiting<T>(ghost vs: seq<Voice<T>>, k: nat, voices: seq<Voice<T>>, out: Option<T>, nextStart: real,
                     len: T -> real, combine: (T, T) -> T, intended: bool)
    returns (voices': seq<Voice<T>>, out': Option<T>, nextStart': real)
    requires k < |voices| == |vs|
    requires forall j :: 0 <= j < k ==> voices[j] == Advance(vs[j], len)
    requires forall j :: k <= j < |voices| ==> voices[j] == vs[j]
    requires nextStart == NextInstant(vs[..k], len, intended)
    requires out == Joined(ReadyItems(vs[..k]), combine)
    requires !(voices[k].countdown == 0.0 && voices[k].item.Some?)
    ensures |voices'| == |vs|
    ensures forall j :: 0 <= j < k + 1 ==> voices'[j] == Advance(vs[j], len)
    ensures forall j :: k + 1 <= j < |voices'| ==> voices'[j] == vs[j]
    ensures nextStart' == NextInstant(vs[..k + 1], len, intended)
    ensures out' == Joined(ReadyItems(vs[..k + 1]), combine)
  {
    var v := voices[k];
    assert v == vs[k];
    VisitStep(vs, k, len, intended);
    AdvanceOne(vs, voices, k, len);
    assert voices[k := Advance(v, len)] == voices;
    voices', out', nextStart' := voices, out, nextStart;
    if v.countdown != 0.0 && v.countdown >= 0.0 && (!intended || v.item.Some?) && v.countdown < nextStart {
      nextStart' := v.countdown;
    }
  }

  /** The second pass: every countdown lowered by the same amount. */
  method Lower<T>(vs: seq<Voice<T>>, d: real) returns (voices: seq<Voice<T>>)
    ensures voices == Lowered(vs, d)
  {
    voices := vs;
    var k := 0;
    while k < |voices|
      invariant 0 <= k <= |voices| && |voices| == |vs|
      invariant forall j :: 0 <= j < k ==> voices[j] == vs[j].(countdown := vs[j].countdown - d)
      invariant forall j :: k <= j < |voices| ==> voices[j] == vs[j]
    {
      voices := voices[k := voices[k].(countdown := voices[k].countdown - d)];
      k := k + 1;
    }
  }

  /** The number of items the voices have still to hand out. */
  function Remaining<T>(vs: seq<Voice<T>>): nat
    decreases |vs|
  {
    if vs == [] then 0
    else
      var n := |vs| - 1;
      Remaining(vs[..n]) + |vs[n].rest| + (if vs[n].item.Some? then 1 else 0)
  }

  /** Advancing the voices takes away exactly the ready items. */
  lemma {:induction false} AdvanceConsumes<T>(vs: seq<Voice<T>>, len: T -> real)
    ensures Remaining(Advanced(vs, len)) + |ReadyItems(vs)| == Remaining(vs)
    decreases |vs|
  {
    if vs != [] {
      var n := |vs| - 1;
      AdvanceConsumes(vs[..n], len);
      assert Advanced(vs, len)[..n] == Advanced(vs[..n], len);
    }
  }

  /** Lowering countdowns takes no item away. */
  lemma {:induction false} LoweredKeepsItems<T>(vs: seq<Voice<T>>, d: real)
    ensures Remaining(Lowered(vs, d)) == Remaining(vs)
    decreases |vs|
  {
    if vs != [] {
      var n := |vs| - 1;
      LoweredKeepsItems(vs[..n], d);
      assert Lowered(vs, d)[..n] == Lowered(vs[..n], d);
    }
  }

  /** A step that emits something hands out at least one item. */
  lemma {:induction false} StepConsumes<T>(vs: seq<Voice<T>>, len: T -> real, combine: (T, T) -> T, intended: bool)
    ensures var r := MergeStep(vs, len, combine, intended);
      r.0.Some? ==> Remaining(r.1) < Remaining(vs)
  {
    AdvanceConsumes(vs, len);
    LoweredKeepsItems(Advanced(vs, len), NextInstant(vs, len, intended));
  }

  /** Calling `next` until it returns `None`: everything emitted, and the
      voices at that point. */
  function Drain<T>(vs: seq<Voice<T>>, len: T -> real, combine: (T, T) -> T, intended: bool): (r: (seq<T>, seq<Voice<T>>))
    ensures |r.1| == |vs|
    ensures MergeStep(r.1, len, combine, intended).0.None?
    ensures |r.0| <= Remaining(vs)
    decreases Remaining(vs)
  {
    var (out, after) := MergeStep(vs, len, combine, intended);
    StepConsumes(vs, len, combine, intended);
    if out.None? then ([], vs)
    else
      var (more, last) := Drain(after, len, combine, intended);
      ([out.value] + more, last)
  }

  /** The voices of a fresh iterator: each holds its first item, and every
      countdown is zero. */
  function Start<T>(outputs: seq<seq<T>>): (vs: seq<Voice<T>>)
    ensures |vs| == |outputs|
    ensures forall k :: 0 <= k < |vs| ==> (vs[k].countdown == 0.0
      && (outputs[k] == [] ==> vs[k].item.None? && vs[k].rest == [])
      && (outputs[k] != [] ==> vs[k].item == Some(outputs[k][0]) && vs[k].rest == outputs[k][1..]))
  {
    seq(|outputs|, k requires 0 <= k < |outputs| =>
      if outputs[k] == [] then Voice(0.0, [], Option.None) else Voice(0.0, outputs[k][1..], Some(outputs[k][0])))
  }

  /** Every item's length lies between zero and `f64::MAX`. */
  predicate LengthsInRange<T>(vs: seq<Voice<T>>, len: T -> real) {
    forall k :: 0 <= k < |vs| ==>
      (vs[k].item.Some? ==> 0.0 <= len(vs[k].item.value) <= F64Max)
      && forall j :: 0 <= j < |vs[k].rest| ==> 0.0 <= len(vs[k].rest[j]) <= F64Max
  }

  /** The state the corrected rule keeps: every voice holding an item counts
      down from within range, and while any voice holds an item some such
      voice is due now. */
  predicate Live<T>(vs: seq<Voice<T>>) {
    (forall k :: 0 <= k < |vs| && Pending(vs[k]) ==> 0.0 <= vs[k].countdown <= F64Max)
    && ((exists k :: 0 <= k < |vs| && Pending(vs[k])) ==> exists k :: 0 <= k < |vs| && Ready(vs[k]))
  }

  /** A fresh iterator is live. */
  lemma {:induction false} StartIsLive<T>(outputs: seq<seq<T>>)
    ensures Live(Start(outputs))
  {
    var vs := Start(outputs);
    if exists k :: 0 <= k < |vs| && Pending(vs[k]) {
      var k :| 0 <= k < |vs| && Pending(vs[k]);
      assert Ready(vs[k]);
    }
  }

  /** Lengths stay in range as items are handed out. */
  lemma {:induction false} StepKeepsLengths<T>(vs: seq<Voice<T>>, len: T -> real, combine: (T, T) -> T, intended: bool)
    requires LengthsInRange(vs, len)
    ensures LengthsInRange(MergeStep(vs, len, combine, intended).1, len)
  {
    var r := MergeStep(vs, len, combine, intended).1;
    forall k | 0 <= k < |r|
      ensures (r[k].item.Some? ==> 0.0 <= len(r[k].item.value) <= F64Max)
        && forall j :: 0 <= j < |r[k].rest| ==> 0.0 <= len(r[k].rest[j]) <= F64Max
    {
      if Ready(vs[k]) && vs[k].rest != [] {
        forall j | 0 <= j < |r[k].rest| ensures 0.0 <= len(r[k].rest[j]) <= F64Max {
          assert r[k].rest[j] == vs[k].rest[j + 1];
        }
      }
    }
  }

  /** After an emitting step under the corrected rule, a voice still holding
      an item was a bounding voice, and counts down from its bound less the
      step. */
  lemma {:induction false} PendingAfterStep<T>(vs: seq<Voice<T>>, len: T -> real, combine: (T, T) -> T, k: nat)
    requires Live(vs) && LengthsInRange(vs, len)
    requires 0 <= k < |vs| && MergeStep(vs, len, combine, true).0.Some?
    requires Pending(MergeStep(vs, len, combine, true).1[k])
    ensures Bounds(vs[k], true)
    ensures MergeStep(vs, len, combine, true).1[k].countdown == BoundOf(vs[k], len) - NextInstant(vs, len, true)
  {
  }

  /** After an emitting step under the corrected rule some voice still
      holding an item is due, when any holds one. */
  lemma {:induction false} SomePendingReady<T>(vs: seq<Voice<T>>, len: T -> real, combine: (T, T) -> T, k: nat)
    requires Live(vs) && LengthsInRange(vs, len)
    requires 0 <= k < |vs| && MergeStep(vs, len, combine, true).0.Some?
    requires Pending(MergeStep(vs, len, combine, true).1[k])
    ensures exists m :: 0 <= m < |vs| && Ready(MergeStep(vs, len, combine, true).1[m])
  {
    var r := MergeStep(vs, len, combine, true).1;
    var d := NextInstant(vs, len, true);
    PendingAfterStep(vs, len, combine, k);
    var m :| 0 <= m < |vs| && Bounds(vs[m], true) && d == BoundOf(vs[m], len) by {
      if d == F64Max {
        assert d <= BoundOf(vs[k], len) <= F64Max;
      }
    }
    assert r[m] == Advance(vs[m], len).(countdown := Advance(vs[m], len).countdown - d);
    assert Ready(r[m]);
  }

  /** Under the corrected rule a live iterator stays live after each step. */
  lemma {:induction false} StepKeepsLive<T>(vs: seq<Voice<T>>, len: T -> real, combine: (T, T) -> T)
    requires Live(vs) && LengthsInRange(vs, len)
    ensures Live(MergeStep(vs, len, combine, true).1)
  {
    var s := MergeStep(vs, len, combine, true);
    var r := s.1;
    if s.0.Some? {
      forall k | 0 <= k < |r| && Pending(r[k]) ensures 0.0 <= r[k].countdown <= F64Max {
        PendingAfterStep(vs, len, combine, k);
      }
      if exists k :: 0 <= k < |r| && Pending(r[k]) {
        var k :| 0 <= k < |r| && Pending(r[k]);
        SomePendingReady(vs, len, combine, k);
      }
    }
  }

  /** Under the corrected rule a live iterator stops only when no voice
      holds an item, and stays live after each step. */
  lemma {:induction false} IntendedNeverStopsEarly<T>(vs: seq<Voice<T>>, len: T -> real, combine: (T, T) -> T)
    requires Live(vs) && LengthsInRange(vs, len)
    ensures var r := MergeStep(vs, len, combine, true);
      (r.0.None? <==> forall k :: 0 <= k < |vs| ==> !Pending(vs[k]))
      && Live(r.1)
  {
    StepKeepsLive(vs, len, combine);
  }

  /** One more call of `next` when the last one emitted something. */
  lemma {:induction false} DrainUnfolds<T>(vs: seq<Voice<T>>, len: T -> real, combine: (T, T) -> T, intended: bool)
    ensures var s := MergeStep(vs, len, combine, intended);
      (s.0.None? ==> Drain(vs, len, combine, intended) == ([], vs))
      && (s.0.Some? ==>
            Drain(vs, len, combine, intended)
            == ([s.0.value] + Drain(s.1, len, combine, intended).0, Drain(s.1, len, combine, intended).1))
  {
  }

  /** Draining after a call that emitted `out` and left `after`. */
  lemma {:induction false} DrainAfter<T>(vs: seq<Voice<T>>, len: T -> real, combine: (T, T) -> T, intended: bool, out: T, after: seq<Voice<T>>)
    requires MergeStep(vs, len, combine, intended) == (Some(out), after)
    ensures Drain(vs, len, combine, intended).0 == [out] + Drain(after, len, combine, intended).0
  {
    DrainUnfolds(vs, len, combine, intended);
  }

  /** Under the corrected rule, draining a live iterator hands out every
      item. */
  lemma {:induction false} IntendedDrainsAll<T>(vs: seq<Voice<T>>, len: T -> real, combine: (T, T) -> T)
    requires Live(vs) && LengthsInRange(vs, len)
    ensures var last := Drain(vs, len, combine, true).1;
      forall k :: 0 <= k < |last| ==> !Pending(last[k])
    decreases Remaining(vs)
  {
    IntendedNeverStopsEarly(vs, len, combine);
    DrainUnfolds(vs, len, combine, true);
    var s := MergeStep(vs, len, combine, true);
    if s.0.Some? {
      StepConsumes(vs, len, combine, true);
      StepKeepsLengths(vs, len, combine, true);
      IntendedDrainsAll(s.1, len, combine);
    }
  }

  /** The bound one voice leaves after it is visited. */
  function Pick<T>(v: Voice<T>, m: real, len: T -> real, intended: bool): real {
    if Bounds(v, intended) && BoundOf(v, len) < m then BoundOf(v, len) else m
  }

  /** The item one voice hands out, if it is ready. */
  function ReadyItem<T>(v: Voice<T>): seq<T> {
    if Ready(v) then [v.item.value] else []
  }

  /** The ready items of three voices. */
  lemma {:induction false} ThreeReady<T>(a: Voice<T>, b: Voice<T>, c: Voice<T>)
    ensures ReadyItems([a, b, c]) == ReadyItem(a) + ReadyItem(b) + ReadyItem(c)
  {
    assert [a, b, c][..2] == [a, b];
    assert [a, b][..1] == [a];
    assert [a][..0] == [];
    assert ReadyItems([a]) == ReadyItem(a);
    assert ReadyItems([a, b]) == ReadyItem(a) + ReadyItem(b);
  }

  /** The next instant over three voices. */
  lemma {:induction false} ThreeBound<T>(a: Voice<T>, b: Voice<T>, c: Voice<T>, len: T -> real, intended: bool)
    ensures NextInstant([a, b, c], len, intended) == Pick(c, Pick(b, Pick(a, F64Max, len, intended), len, intended), len, intended)
  {
    assert [a, b, c][..2] == [a, b];
    assert [a, b][..1] == [a];
    assert [a][..0] == [];
    assert NextInstant([a], len, intended) == Pick(a, F64Max, len, intended);
    assert NextInstant([a, b], len, intended) == Pick(b, Pick(a, F64Max, len, intended), len, intended);
  }

  /** One voice advanced and lowered by `d`. */
  function Moved<T>(v: Voice<T>, len: T -> real, d: real): Voice<T> {
    Advance(v, len).(countdown := Advance(v, len).countdown - d)
  }

  /** A step over three voices, visit by visit. */
  lemma {:induction false} ThreeVoices<T>(a: Voice<T>, b: Voice<T>, c: Voice<T>, len: T -> real, combine: (T, T) -> T, intended: bool)
    ensures MergeStep([a, b, c], len, combine, intended).0 == Joined(ReadyItem(a) + ReadyItem(b) + ReadyItem(c), combine)
    ensures MergeStep([a, b, c], len, combine, intended).0.Some? ==>
      var d := Pick(c, Pick(b, Pick(a, F64Max, len, intended), len, intended), len, intended);
      MergeStep([a, b, c], len, combine, intended).1 == [Moved(a, len, d), Moved(b, len, d), Moved(c, len, d)]
  {
    ThreeReady(a, b, c);
    ThreeBound(a, b, c, len, intended);
    ThreeLowered(a, b, c, len, Pick(c, Pick(b, Pick(a, F64Max, len, intended), len, intended), len, intended));
  }

  /** Three voices advanced and lowered. */
  lemma {:induction false} ThreeLowered<T>(a: Voice<T>, b: Voice<T>, c: Voice<T>, len: T -> real, d: real)
    ensures Lowered(Advanced([a, b, c], len), d) == [Moved(a, len, d), Moved(b, len, d), Moved(c, len, d)]
  {
    assert Advanced([a, b, c], len) == [Advance(a, len), Advance(b, len), Advance(c, len)];
  }

  /** Two or three items combined in order. */
  lemma {:induction false} JoinedSmall<T>(x: T, y: T, z: T, combine: (T, T) -> T)
    ensures Joined([x, y], combine) == Some(combine(x, y))
    ensures Joined([x, y, z], combine) == Some(combine(combine(x, y), z))
  {
    assert [x, y, z][..2] == [x, y];
    assert [x, y][..1] == [x];
  }

  /** The example below, in beats: the voices of a fresh iterator, then
      after each call. */
  const Fresh: seq<Voice<real>> := [Voice(0.0, [], Some(2.0)), Voice(0.0, [1.0], Some(6.0)), Voice(0.0, [4.0, 1.0], Some(1.0))]
  const AfterFirst: seq<Voice<real>> := [Voice(1.0, [], Option.None), Voice(5.0, [], Some(1.0)), Voice(0.0, [1.0], Some(4.0))]
  /** As written: a dry first voice and two voices holding one slice each. */
  const Stalled: seq<Voice<real>> := [Voice(0.0, [], Option.None), Voice(4.0, [], Some(1.0)), Voice(3.0, [], Some(1.0))]
  /** Corrected: the dry first voice no longer bounds the step. */
  const AfterSecond: seq<Voice<real>> := [Voice(-3.0, [], Option.None), Voice(1.0, [], Some(1.0)), Voice(0.0, [], Some(1.0))]
  const AfterThird: seq<Voice<real>> := [Voice(-4.0, [], Option.None), Voice(0.0, [], Some(1.0)), Voice(0.0, [], Option.None)]
  const Finished: seq<Voice<real>> := [Voice(-4.0 - F64Max, [], Option.None), Voice(1.0 - F64Max, [], Option.None), Voice(-F64Max, [], Option.None)]

  /** The beats of a slice in the example are the number itself. */
  function Beats(x: real): real { x }

  /** Combining two slices of the example adds them. */
  function Sum(a: real, b: real): real { a + b }

  lemma {:induction false} FreshIsStart()
    ensures Start([[2.0], [6.0, 1.0], [1.0, 4.0, 1.0]]) == Fresh
  {
  }

  lemma {:induction false} FirstCall(intended: bool)
    ensures MergeStep(Fresh, Beats, Sum, intended) == (Some(9.0), AfterFirst)
  {
    ThreeVoices(Fresh[0], Fresh[1], Fresh[2], Beats, Sum, intended);
    JoinedSmall(2.0, 6.0, 1.0, Sum);
  }

  lemma {:induction false} SecondCallAsWritten()
    ensures MergeStep(AfterFirst, Beats, Sum, false) == (Some(4.0), Stalled)
  {
    ThreeVoices(AfterFirst[0], AfterFirst[1], AfterFirst[2], Beats, Sum, false);
  }

  lemma {:induction false} ThirdCallAsWritten()
    ensures MergeStep(Stalled, Beats, Sum, false) == (Option.None, Stalled)
  {
    ThreeVoices(Stalled[0], Stalled[1], Stalled[2], Beats, Sum, false);
  }

  lemma {:induction false} SecondCallIntended()
    ensures MergeStep(AfterFirst, Beats, Sum, true) == (Some(4.0), AfterSecond)
  {
    ThreeVoices(AfterFirst[0], AfterFirst[1], AfterFirst[2], Beats, Sum, true);
  }

  lemma {:induction false} ThirdCallIntended()
    ensures MergeStep(AfterSecond, Beats, Sum, true) == (Some(1.0), AfterThird)
  {
    ThreeVoices(AfterSecond[0], AfterSecond[1], AfterSecond[2], Beats, Sum, true);
  }

  lemma {:induction false} FourthCallIntended()
    ensures MergeStep(AfterThird, Beats, Sum, true) == (Some(1.0), Finished)
  {
    ThreeVoices(AfterThird[0], AfterThird[1], AfterThird[2], Beats, Sum, true);
  }

  lemma {:induction false} FifthCallIntended()
    ensures MergeStep(Finished, Beats, Sum, true) == (Option.None, Finished)
  {
    ThreeVoices(Finished[0], Finished[1], Finished[2], Beats, Sum, true);
  }

  /** The code as written: voices yielding slices of 2, of 6 and 1, and of
      1, 4 and 1 beats. After the first voice runs dry with 1 beat left on
      its countdown, that countdown still bounds the next step, so the third
      call finds no voice due and ends the iteration while the other two
      voices still hold a slice each. */
  lemma {:induction false} AsWrittenStopsEarly()
    ensures var (out, last) := Drain(Start([[2.0], [6.0, 1.0], [1.0, 4.0, 1.0]]), Beats, Sum, false);
      out == [9.0, 4.0] && Pending(last[1]) && Pending(last[2])
  {
    FreshIsStart();
    FirstCall(false);
    SecondCallAsWritten();
    ThirdCallAsWritten();
    DrainUnfolds(Fresh, Beats, Sum, false);
    DrainUnfolds(AfterFirst, Beats, Sum, false);
    DrainUnfolds(Stalled, Beats, Sum, false);
  }

  lemma {:induction false} DrainFromThird()
    ensures Drain(AfterThird, Beats, Sum, true).0 == [1.0]
  {
    FourthCallIntended();
    FifthCallIntended();
    DrainUnfolds(Finished, Beats, Sum, true);
    DrainUnfolds(AfterThird, Beats, Sum, true);
  }

  lemma {:induction false} DrainFromSecond()
    ensures Drain(AfterSecond, Beats, Sum, true).0 == [1.0, 1.0]
  {
    DrainFromThird();
    ThirdCallIntended();
    DrainAfter(AfterSecond, Beats, Sum, true, 1.0, AfterThird);
  }

  lemma {:induction false} DrainFromFirst()
    ensures Drain(AfterFirst, Beats, Sum, true).0 == [4.0] + Drain(AfterSecond, Beats, Sum, true).0
  {
    SecondCallIntended();
    DrainAfter(AfterFirst, Beats, Sum, true, 4.0, AfterSecond);
  }

  lemma {:induction false} DrainFromFresh()
    ensures Drain(Fresh, Beats, Sum, true).0 == [9.0] + Drain(AfterFirst, Beats, Sum, true).0
  {
    FirstCall(true);
    DrainAfter(Fresh, Beats, Sum, true, 9.0, AfterFirst);
  }

  /** The same voices under the corrected rule: all four slices come out. */
  lemma {:induction false} IntendedEmitsAll()
    ensures Drain(Fresh, Beats, Sum, true).0 == [9.0] + [4.0, 1.0, 1.0]
  {
    DrainFromFresh();
    DrainFromFirst();
    DrainFromSecond();
    EmittedInTurn(Drain(Fresh, Beats, Sum, true).0, Drain(AfterFirst, Beats, Sum, true).0,
                  Drain(AfterSecond, Beats, Sum, true).0);
  }

  /** The three drains of the example, put together. */
  lemma EmittedInTurn(fromFresh: seq<real>, fromFirst: seq<real>, fromSecond: seq<real>)
    requires fromFresh == [9.0] + fromFirst && fromFirst == [4.0] + fromSecond && fromSecond == [1.0, 1.0]
    ensures fromFresh == [9.0] + [4.0, 1.0, 1.0]
  {
    assert [4.0] + [1.0, 1.0] == [4.0, 1.0, 1.0];
  }
}

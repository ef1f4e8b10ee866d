/** The timeslices a phrase plays, in order. A phrase hands out the slices
    of its notes, chords, sub-phrases and multivoices one after another;
    when it has modifications it adds its own phrase details (position and
    length) to every note of every slice, and it holds each slice back one
    call so as to tell it the pitch that follows. A multivoice interleaves
    the slices of its voices by the countdown merge of `VoiceMerge`.

    The functions below state what the iterators hand out; the classes at
    the end are the iterators, proved to hand out exactly that. Where the
    source clones a note and the clone draws a fresh id, the model keeps
    the id of the note it copies (and its modifications keep theirs); a
    chord's clones are numbered from the chord's id. */
module PhraseSlices {
  import opened Wrappers
  import SeqFacts
  import opened Durations
  import opened Pitches
  import opened Accidentals
  import opened Notes
  import C = Chords
  import opened Timeslices
  import M = VoiceMerge
  import opened Phrases
  import P = PhraseModifications

  // ---------------------------------------------------------------------
  // One slice per note or chord

  /** The ids of a note's modifications, which its clone reuses. */
  function ModIds(n: Note): (r: seq<nat>)
    ensures |r| == |n.modifications|
    ensures forall i :: 0 <= i < |r| ==> r[i] == n.modifications[i].id
  {
    seq(|n.modifications|, i requires 0 <= i < |n.modifications| => n.modifications[i].id)
  }

  /** The base a multivoice measures its slices in: a 2048th note. */
  const SliceBase := Duration(TwoThousandFortyEighth, 0)

  /** `Timeslice::get_beats` at the 2048th base, the countdown a voice
      waits after handing out a slice. A slice whose tuplet squeezes zero
      beats has no finite length; it is taken as 0. */
  function SliceLength(t: Timeslice): real {
    if Measurable(t) then TimesliceBeats(t, SliceBase) else 0.0
  }

  /** `combine_with` as the merge uses it. It needs both slices' sets in
      variant order; slices of notes and chords have no directions or
      tempo details at all, so they always are. */
  function Join(a: Timeslice, b: Timeslice): Timeslice {
    if ValidTimeslice(a) && ValidTimeslice(b) then Combined(a, b) else a
  }

  // ---------------------------------------------------------------------
  // The details a phrase adds

  /** The details the phrase adds to a note of its `index`-th slice. */
  function DetailFor(index: nat, length: nat, mods: seq<P.PhraseModification>): TimeslicePhraseDetails {
    TimeslicePhraseDetails(ModKinds(mods), index, length, NewRest(), Accidental.None)
  }

  /** The first half of `update_timeslice_details`: when the phrase has
      modifications, every note of its `index`-th slice gets one more
      detail, last, holding the position, the phrase's length in slices and
      its modification types; without modifications the slice is left as
      it is. */
  function Detailed(t: Timeslice, index: nat, length: nat, mods: seq<P.PhraseModification>): (r: Timeslice)
    ensures r.arpeggiated == t.arpeggiated && r.directions == t.directions && r.tempoDetails == t.tempoDetails
    ensures |r.content| == |t.content|
    ensures forall i :: 0 <= i < |t.content| ==> r.content[i].note == t.content[i].note
    ensures mods == [] ==> r == t
    ensures mods != [] ==> forall i :: 0 <= i < |t.content| ==>
      r.content[i].phraseDetails == t.content[i].phraseDetails + [DetailFor(index, length, mods)]
  {
    if mods == [] then t
    else t.(content := seq(|t.content|, i requires 0 <= i < |t.content| =>
      t.content[i].(phraseDetails := t.content[i].phraseDetails + [DetailFor(index, length, mods)])))
  }

  /** The second half of `update_timeslice_details`: every phrase detail
      of every note of the held slice learns the pitch and accidental that
      follow it. */
  function WithNext(t: Timeslice, pitch: Pitch, accidental: Accidental): (r: Timeslice)
    ensures r.arpeggiated == t.arpeggiated && r.directions == t.directions && r.tempoDetails == t.tempoDetails
    ensures |r.content| == |t.content|
    ensures forall i :: 0 <= i < |t.content| ==>
      r.content[i].note == t.content[i].note
      && |r.content[i].phraseDetails| == |t.content[i].phraseDetails|
      && forall j :: 0 <= j < |t.content[i].phraseDetails| ==>
        r.content[i].phraseDetails[j] == t.content[i].phraseDetails[j].(nextPitch := pitch, nextAccidental := accidental)
  {
    t.(content := seq(|t.content|, i requires 0 <= i < |t.content| => ContentWithNext(t.content[i], pitch, accidental)))
  }

  function ContentWithNext(c: TimesliceContent, pitch: Pitch, accidental: Accidental): (r: TimesliceContent)
    ensures r.note == c.note && |r.phraseDetails| == |c.phraseDetails|
    ensures forall j :: 0 <= j < |c.phraseDetails| ==>
      r.phraseDetails[j] == c.phraseDetails[j].(nextPitch := pitch, nextAccidental := accidental)
  {
    c.(phraseDetails := seq(|c.phraseDetails|, j requires 0 <= j < |c.phraseDetails| =>
      c.phraseDetails[j].(nextPitch := pitch, nextAccidental := accidental)))
  }

  /** The `index`-th slice the phrase hands out: its own details added, and
      told the pitch of the next slice when that slice has a note. */
  function DecoratedAt(raws: seq<Timeslice>, index: nat, length: nat, mods: seq<P.PhraseModification>): Timeslice
    requires index < |raws|
  {
    var d := Detailed(raws[index], index, length, mods);
    if index + 1 < |raws| && raws[index + 1].content != [] then
      WithNext(d, raws[index + 1].content[0].note.pitch, raws[index + 1].content[0].note.accidental)
    else d
  }

  /** Every slice decorated, in order. */
  function Decorated(raws: seq<Timeslice>, length: nat, mods: seq<P.PhraseModification>): (r: seq<Timeslice>)
    ensures |r| == |raws|
    ensures forall k :: 0 <= k < |raws| ==> r[k] == DecoratedAt(raws, k, length, mods)
  {
    seq(|raws|, k requires 0 <= k < |raws| => DecoratedAt(raws, k, length, mods))
  }

  // ---------------------------------------------------------------------
  // What the iterators hand out

  /** `Phrase::iter_timeslices`, all of it. */
  function PhraseSlices(p: Phrase): seq<Timeslice>
    requires WellFormed(p)
    decreases p, 3
  {
    Decorated(RawSlices(p.content), NumTimeslices(p), p.modifications)
  }

  /** `Phrase::num_timeslices`: one per note or chord, a sub-phrase's own
      count, and for a multivoice the number of slices its iterator
      hands out. */
  function NumTimeslices(p: Phrase): nat
    requires WellFormed(p)
    decreases p, 2
  {
    ItemsCount(p.content)
  }

  function ItemsCount(items: seq<PhraseContent>): nat
    requires ItemsWellFormed(items)
    decreases items, 1
  {
    if items == [] then 0
    else ItemsCount(items[..|items| - 1]) + ItemCount(items[|items| - 1])
  }

  function ItemCount(item: PhraseContent): nat
    requires ItemWellFormed(item)
    decreases item, 0
  {
    match item
    case NoteItem(_) => 1
    case ChordItem(_) => 1
    case PhraseItem(q) => NumTimeslices(q)
    case MultiVoiceItem(m) => |MultiVoiceSlices(m)|
  }

  /** `MultiVoice::iter_timeslices`, all of it: the voices' slices merged
      by countdown, under the corrected clock rule. */
  function MultiVoiceSlices(m: MultiVoice): seq<Timeslice>
    requires ItemWellFormed(MultiVoiceItem(m))
    decreases m, 1
  {
    M.Drain(M.Start(VoiceOutputs(m.voices)), SliceLength, Join, true).0
  }

  /** What each voice's own iterator hands out. */
  function VoiceOutputs(voices: seq<Phrase>): (r: seq<seq<Timeslice>>)
    requires forall k :: 0 <= k < |voices| ==> WellFormed(voices[k])
    ensures |r| == |voices|
    ensures forall k :: 0 <= k < |voices| ==> r[k] == PhraseSlices(voices[k])
    decreases voices, 0
  {
    seq(|voices|, k requires 0 <= k < |voices| && WellFormed(voices[k]) => PhraseSlices(voices[k]))
  }

  /** The slices of the items, before the phrase adds its details: each
      item's in turn. */
  function RawSlices(items: seq<PhraseContent>): seq<Timeslice>
    requires ItemsWellFormed(items)
    decreases items, 1
  {
    if items == [] then []
    else RawSlices(items[..|items| - 1]) + RawItem(items[|items| - 1])
  }

  /** The slices of one item: a clone of a note, a chord's slice, or all
      the slices of a sub-phrase or multivoice. */
  function RawItem(item: PhraseContent): seq<Timeslice>
    requires ItemWellFormed(item)
    decreases item, 0
  {
    match item
    case NoteItem(n) => [NoteToTimeslice(n, n.id, ModIds(n))]
    case ChordItem(c) => [C.ToTimeslice(c, c.id).0]
    case PhraseItem(q) => PhraseSlices(q)
    case MultiVoiceItem(m) => MultiVoiceSlices(m)
  }

  // ---------------------------------------------------------------------
  // Properties of the slices

  /** The items' slices come in item order: those of a run of items
      followed by those of the next run. */
  lemma {:induction false} RawSlicesAppend(a: seq<PhraseContent>, b: seq<PhraseContent>)
    requires ItemsWellFormed(a) && ItemsWellFormed(b)
    ensures ItemsWellFormed(a + b)
    ensures RawSlices(a + b) == RawSlices(a) + RawSlices(b)
    decreases |b|
  {
    ConcatKeeps(a, b);
    if b == [] {
      assert a + b == a;
    } else {
      var n := |b| - 1;
      SliceKeeps(b, 0, n);
      assert b[..n] == b[0..n];
      RawSlicesAppend(a, b[..n]);
      assert (a + b)[..|a + b| - 1] == a + b[..n];
      assert (a + b)[|a + b| - 1] == b[n];
      SeqFacts.JoinLast(RawSlices(a + b), RawSlices(a + b[..n]), RawItem(b[n]), RawSlices(a), RawSlices(b[..n]), RawSlices(b));
    }
  }

  /** The slices of the first `i + 1` items: those of the first `i`, then
      the `i`-th item's. */
  lemma {:induction false} RawSlicesStep(items: seq<PhraseContent>, i: nat)
    requires ItemsWellFormed(items) && i < |items|
    ensures ItemsWellFormed(items[..i]) && ItemsWellFormed(items[..i + 1]) && ItemWellFormed(items[i])
    ensures RawSlices(items[..i + 1]) == RawSlices(items[..i]) + RawItem(items[i])
  {
    SliceKeeps(items, 0, i);
    SliceKeeps(items, 0, i + 1);
    assert items[..i] == items[0..i] && items[..i + 1] == items[0..i + 1];
    assert items[..i + 1][..i] == items[..i];
  }

  /** The slices of the first `i` items start the slices of all of them. */
  lemma {:induction false} RawSlicesPrefix(items: seq<PhraseContent>, i: nat)
    requires ItemsWellFormed(items) && i <= |items|
    ensures ItemsWellFormed(items[..i]) && ItemsWellFormed(items[i..])
    ensures RawSlices(items) == RawSlices(items[..i]) + RawSlices(items[i..])
  {
    SliceKeeps(items, 0, i);
    SliceKeeps(items, i, |items|);
    assert items[..i] == items[0..i] && items[i..] == items[i..|items|];
    RawSlicesAppend(items[..i], items[i..]);
    assert items[..i] + items[i..] == items;
  }

  /** `num_timeslices` counts exactly the slices the iterator hands out. */
  lemma {:induction false} PhraseSlicesCount(p: Phrase)
    requires WellFormed(p)
    ensures |PhraseSlices(p)| == NumTimeslices(p)
    decreases p
  {
    RawSlicesCount(p.content);
  }

  lemma {:induction false} RawSlicesCount(items: seq<PhraseContent>)
    requires ItemsWellFormed(items)
    ensures |RawSlices(items)| == ItemsCount(items)
    decreases items
  {
    if items != [] {
      var n := |items| - 1;
      RawSlicesStep(items, n);
      assert items[..n + 1] == items;
      RawSlicesCount(items[..n]);
      RawItemCount(items[n]);
    }
  }

  lemma {:induction false} RawItemCount(item: PhraseContent)
    requires ItemWellFormed(item)
    ensures |RawItem(item)| == ItemCount(item)
    decreases item
  {
    match item
    case NoteItem(_) =>
    case ChordItem(_) =>
    case PhraseItem(q) => PhraseSlicesCount(q);
    case MultiVoiceItem(_) =>
  }

  /** Decorating keeps every slice's notes, in order. */
  lemma {:induction false} DecoratedKeepsNotes(raws: seq<Timeslice>, length: nat, mods: seq<P.PhraseModification>, k: nat)
    requires k < |raws|
    ensures var d := Decorated(raws, length, mods)[k];
      |d.content| == |raws[k].content| && d.arpeggiated == raws[k].arpeggiated
      && forall i :: 0 <= i < |d.content| ==> d.content[i].note == raws[k].content[i].note
  {
  }

  /** With modifications, the last detail of every note of the `k`-th
      slice is the phrase's own: position `k`, the phrase's length in
      slices, and its modification types. Without, no detail is added. */
  lemma {:induction false} PhraseDetails(p: Phrase, k: nat, i: nat)
    requires WellFormed(p) && k < |PhraseSlices(p)|
    requires i < |PhraseSlices(p)[k].content|
    ensures var raw := RawSlices(p.content)[k].content[i];
      var c := PhraseSlices(p)[k].content[i];
      c.note == raw.note
      && (p.modifications == [] ==> |c.phraseDetails| == |raw.phraseDetails|)
      && (p.modifications != [] ==>
            |c.phraseDetails| == |raw.phraseDetails| + 1
            && var d := c.phraseDetails[|raw.phraseDetails|];
            d.indexInPhrase == k && d.phraseLength == NumTimeslices(p) && d.modifications == ModKinds(p.modifications))
  {
    var raws := RawSlices(p.content);
    DecoratedKeepsNotes(raws, NumTimeslices(p), p.modifications, k);
  }

  /** Each slice's phrase details name the first pitch of the slice after
      it, when that slice has a note. */
  lemma {:induction false} NextPitch(p: Phrase, k: nat, i: nat, j: nat)
    requires WellFormed(p) && k + 1 < |PhraseSlices(p)|
    requires PhraseSlices(p)[k + 1].content != []
    requires i < |PhraseSlices(p)[k].content| && j < |PhraseSlices(p)[k].content[i].phraseDetails|
    ensures var next := PhraseSlices(p)[k + 1].content[0].note;
      PhraseSlices(p)[k].content[i].phraseDetails[j].nextPitch == next.pitch
      && PhraseSlices(p)[k].content[i].phraseDetails[j].nextAccidental == next.accidental
  {
    var raws := RawSlices(p.content);
    DecoratedKeepsNotes(raws, NumTimeslices(p), p.modifications, k + 1);
  }

  // ---------------------------------------------------------------------
  // The work of `update_timeslice_details`, loop by loop

  /** The inner `for_each` over the phrase's modifications: their types
      pushed, in order, onto the detail just added. */
  method PushKinds(d: TimeslicePhraseDetails, mods: seq<P.PhraseModification>) returns (r: TimeslicePhraseDetails)
    ensures r == d.(modifications := d.modifications + ModKinds(mods))
  {
    r := d;
    var k := 0;
    while k < |mods|
      invariant 0 <= k <= |mods|
      invariant r == d.(modifications := d.modifications + ModKinds(mods)[..k])
    {
      assert ModKinds(mods)[..k + 1] == ModKinds(mods)[..k] + [mods[k].kind];
      r := r.(modifications := r.modifications + [mods[k].kind]);
      k := k + 1;
    }
    assert ModKinds(mods)[..k] == ModKinds(mods);
  }

  /** The nested `for_each` over the held slice: every phrase detail of
      every note takes the next pitch and accidental. */
  method TellNext(t: Timeslice, pitch: Pitch, accidental: Accidental) returns (r: Timeslice)
    ensures r == WithNext(t, pitch, accidental)
  {
    var content := t.content;
    var i := 0;
    while i < |content|
      invariant 0 <= i <= |content| && |content| == |t.content|
      invariant forall a :: 0 <= a < i ==> content[a] == ContentWithNext(t.content[a], pitch, accidental)
      invariant forall a :: i <= a < |content| ==> content[a] == t.content[a]
    {
      var details := content[i].phraseDetails;
      var j := 0;
      while j < |details|
        invariant 0 <= j <= |details| && |details| == |t.content[i].phraseDetails|
        invariant forall b :: 0 <= b < j ==> details[b] == t.content[i].phraseDetails[b].(nextPitch := pitch, nextAccidental := accidental)
        invariant forall b :: j <= b < |details| ==> details[b] == t.content[i].phraseDetails[b]
      {
        details := details[j := details[j].(nextPitch := pitch, nextAccidental := accidental)];
        j := j + 1;
      }
      content := content[i := content[i].(phraseDetails := details)];
      i := i + 1;
    }
    r := t.(content := content);
    assert r.content == WithNext(t, pitch, accidental).content;
  }

  // ---------------------------------------------------------------------
  // The iterators

  /** `PhraseTimesliceIter`. The content iterator is the position reached
      in the phrase's items; a child iterator (of a sub-phrase or a
      multivoice, one at a time) is what it has still to hand out. The
      ghost fields name the phrase, the slices its items produce, and how
      many slices have been handed out. */
  class PhraseTimesliceIter {
    var index: nat
    const numTimeslices: nat
    var pending: Option<Timeslice>
    const content: seq<PhraseContent>
    var position: nat
    var child: seq<Timeslice>
    const modifications: seq<P.PhraseModification>
    ghost const phrase: Phrase
    ghost const raws: seq<Timeslice>
    ghost var emitted: nat

    /** The slices produced so far are the first `index` of the phrase's,
        followed by what the child still holds; the held slice is the last
        of them with the phrase's details added; all but the held one have
        been handed out. */
    ghost predicate Valid()
      reads this
    {
      WellFormed(phrase) && content == phrase.content && modifications == phrase.modifications
      && numTimeslices == NumTimeslices(phrase) && raws == RawSlices(content)
      && position <= |content| && index <= |raws|
      && ItemsWellFormed(content[..position])
      && RawSlices(content[..position]) == raws[..index] + child
      && (child != [] ==> pending.Some?)
      && (pending.Some? ==>
            (0 < index && emitted == index - 1
             && pending.value == Detailed(raws[index - 1], index - 1, numTimeslices, modifications)))
      && (pending.None? ==> (emitted == index && (0 < index ==> position == |content| && child == [])))
    }

    /** `Phrase::iter_timeslices`. */
    constructor (p: Phrase)
      requires WellFormed(p)
      ensures Valid() && phrase == p && emitted == 0
    {
      index := 0;
      numTimeslices := NumTimeslices(p);
      pending := Option.None;
      content := p.content;
      position := 0;
      child := [];
      modifications := p.modifications;
      phrase := p;
      raws := RawSlices(p.content);
      emitted := 0;
      new;
      assert content[..0] == [];
    }

    /** `update_timeslice_details`: the new slice gets the phrase's details
        and is held; the slice held before learns the new slice's first
        pitch and is returned. */
    method UpdateDetails(t: Timeslice) returns (r: Option<Timeslice>)
      modifies this
      ensures index == old(index) + 1
      ensures pending == Some(Detailed(t, old(index), numTimeslices, modifications))
      ensures r == (if old(pending).None? then Option.None
                    else if t.content == [] then old(pending)
                    else Some(WithNext(old(pending).value, t.content[0].note.pitch, t.content[0].note.accidental)))
      ensures position == old(position) && child == old(child) && emitted == old(emitted)
    {
      var slice := t.content;
      var pendingUpdated := false;
      var i := 0;
      while i < |slice|
        invariant 0 <= i <= |slice| && |slice| == |t.content|
        invariant forall a :: 0 <= a < i ==> slice[a] == Detailed(t, old(index), numTimeslices, modifications).content[a]
        invariant forall a :: i <= a < |slice| ==> slice[a] == t.content[a]
        invariant pendingUpdated == (i > 0)
        invariant index == old(index) && position == old(position) && child == old(child) && emitted == old(emitted)
        invariant pending == (if old(pending).None? || i == 0 then old(pending)
                              else Some(WithNext(old(pending).value, t.content[0].note.pitch, t.content[0].note.accidental)))
      {
        if modifications != [] {
          var c := AddPhraseDetails(slice[i], index, numTimeslices);
          var n := |slice[i].phraseDetails|;
          var d := PushKinds(c.phraseDetails[n], modifications);
          assert slice[i] == t.content[i];
          assert [] + ModKinds(modifications) == ModKinds(modifications);
          assert d == DetailFor(index, numTimeslices, modifications);
          slice := slice[i := c.(phraseDetails := c.phraseDetails[..n] + [d])];
        }
        if !pendingUpdated {
          if pending.Some? {
            var held := TellNext(pending.value, slice[i].note.pitch, slice[i].note.accidental);
            pending := Some(held);
          }
          pendingUpdated := true;
        }
        i := i + 1;
      }
      index := index + 1;
      r := pending;
      pending := Some(t.(content := slice));
      assert pending.value.content == Detailed(t, old(index), numTimeslices, modifications).content;
    }

    /** `Iterator::next`: the next slice of the phrase, in order, each with
        its details, and `None` once all have been handed out. */
    method Next() returns (r: Option<Timeslice>)
      requires Valid()
      modifies this
      ensures Valid()
      ensures old(emitted) < |raws| ==> r == Some(PhraseSlices(phrase)[old(emitted)]) && emitted == old(emitted) + 1
      ensures old(emitted) == |raws| ==> r.None? && emitted == old(emitted)
    {
      var valid := false;
      r := Option.None;
      while !valid
        invariant Valid()
        invariant !valid ==> emitted == old(emitted) && r.None?
        invariant valid ==> (old(emitted) < |raws| && r == Some(PhraseSlices(phrase)[old(emitted)]) && emitted == old(emitted) + 1)
                            || (old(emitted) == |raws| && r.None? && emitted == old(emitted))
        decreases |content| - position, if valid then 0 else 1
      {
        if child != [] {
          r := FromChild();
          return;
        }
        if position < |content| {
          r := FromItem();
          valid := r.Some?;
        } else {
          r := Flush();
          valid := true;
        }
      }
    }

    /** The child iterator hands out its next slice, which goes through
        `update_timeslice_details`. */
    method FromChild() returns (r: Option<Timeslice>)
      requires Valid() && child != []
      modifies this
      ensures Valid()
      ensures old(emitted) < |raws| && r == Some(PhraseSlices(phrase)[old(emitted)]) && emitted == old(emitted) + 1
    {
      var t := child[0];
      ChildIsNext();
      child := child[1..];
      r := Emit(t);
    }

    /** The state between taking the next raw slice `t` and passing it
        through `update_timeslice_details`: `t` is the `index`-th raw
        slice, and everything else is as `Valid` says. */
    ghost predicate Taken(t: Timeslice)
      reads this
    {
      WellFormed(phrase) && content == phrase.content && modifications == phrase.modifications
      && numTimeslices == NumTimeslices(phrase) && raws == RawSlices(content)
      && position <= |content| && index < |raws| && raws[index] == t
      && ItemsWellFormed(content[..position])
      && RawSlices(content[..position]) == raws[..index + 1] + child
      && (pending.Some? ==>
            (0 < index && emitted == index - 1
             && pending.value == Detailed(raws[index - 1], index - 1, numTimeslices, modifications)))
      && (pending.None? ==> emitted == index == 0)
    }

    /** The slice taken goes through `update_timeslice_details`; the slice
        held before, if any, is handed out. */
    method Emit(t: Timeslice) returns (r: Option<Timeslice>)
      requires Taken(t)
      modifies this
      ensures Valid() && position == old(position)
      ensures old(pending).Some? ==> r == Some(PhraseSlices(phrase)[old(emitted)]) && emitted == old(emitted) + 1
      ensures old(pending).None? ==> r.None? && emitted == old(emitted)
    {
      ghost var k := index - 1;
      r := UpdateDetails(t);
      if r.Some? {
        emitted := emitted + 1;
        assert r == Some(DecoratedAt(raws, k, numTimeslices, modifications));
      }
    }

    /** The next item: a note or chord gives one slice, a sub-phrase or
        multivoice starts a child iterator and gives its first slice; that
        slice goes through `update_timeslice_details`, and an item with no
        slice gives nothing. */
    method FromItem() returns (r: Option<Timeslice>)
      requires Valid() && child == [] && position < |content|
      modifies this
      ensures Valid() && position == old(position) + 1
      ensures r.Some? ==> old(emitted) < |raws| && r == Some(PhraseSlices(phrase)[old(emitted)]) && emitted == old(emitted) + 1
      ensures r.None? ==> emitted == old(emitted)
    {
      var item := content[position];
      RawSlicesStep(content, position);
      var out := RawItem(item);
      if out == [] {
        ItemEmpty();
        position := position + 1;
        r := Option.None;
      } else {
        r := StartItem(out);
      }
    }

    /** An item with no slice leaves the slices produced as they are. */
    lemma ItemEmpty()
      requires Valid() && child == [] && position < |content|
      requires ItemWellFormed(content[position]) && RawItem(content[position]) == []
      ensures ItemsWellFormed(content[..position + 1])
      ensures RawSlices(content[..position + 1]) == raws[..index] + child
    {
      RawSlicesStep(content, position);
      assert RawSlices(content[..position + 1]) == RawSlices(content[..position]);
    }

    /** An item that gives slices: the first goes through
        `update_timeslice_details`, the child keeps the rest. */
    method StartItem(out: seq<Timeslice>) returns (r: Option<Timeslice>)
      requires Valid() && child == [] && position < |content| && out != []
      requires ItemsWellFormed(content[..position + 1])
      requires RawSlices(content[..position + 1]) == RawSlices(content[..position]) + out
      modifies this
      ensures Valid() && position == old(position) + 1
      ensures r.Some? ==> old(emitted) < |raws| && r == Some(PhraseSlices(phrase)[old(emitted)]) && emitted == old(emitted) + 1
      ensures r.None? ==> emitted == old(emitted)
    {
      position := position + 1;
      assert RawSlices(content[..position]) == raws[..index] + out;
      OutIsNext(out);
      child := out[1..];
      r := Emit(out[0]);
    }

    /** The items are used up: the held slice, if any, is handed out as it
        is, since no slice follows it. */
    method Flush() returns (r: Option<Timeslice>)
      requires Valid() && child == [] && position == |content|
      modifies this
      ensures Valid() && position == old(position)
      ensures old(emitted) < |raws| ==> r == Some(PhraseSlices(phrase)[old(emitted)]) && emitted == old(emitted) + 1
      ensures old(emitted) == |raws| ==> r.None? && emitted == old(emitted)
    {
      Exhausted();
      r := pending;
      pending := Option.None;
      if r.Some? {
        emitted := emitted + 1;
        assert r == Some(DecoratedAt(raws, index - 1, numTimeslices, modifications));
      }
    }

    /** What the child holds first is the next slice of the phrase. */
    lemma ChildIsNext()
      requires Valid() && child != []
      ensures index < |raws| && raws[index] == child[0]
      ensures raws[..index + 1] + child[1..] == raws[..index] + child
    {
      RawSlicesPrefix(content, position);
      SeqFacts.TakeFirst(raws, index, child, RawSlices(content[position..]));
    }

    /** The slices of the item just taken follow those produced so far. */
    lemma OutIsNext(out: seq<Timeslice>)
      requires WellFormed(phrase) && content == phrase.content && raws == RawSlices(content)
      requires position <= |content| && index <= |raws| && ItemsWellFormed(content[..position])
      requires RawSlices(content[..position]) == raws[..index] + out && out != []
      ensures index < |raws| && raws[index] == out[0]
      ensures raws[..index + 1] + out[1..] == raws[..index] + out
    {
      RawSlicesPrefix(content, position);
      SeqFacts.TakeFirst(raws, index, out, RawSlices(content[position..]));
    }

    /** Once the items are used up, every slice has been produced. */
    lemma Exhausted()
      requires Valid() && position == |content|
      ensures child == [] || pending.Some?
      ensures child == [] ==> index == |raws|
    {
      assert content[..position] == content;
    }
  }

  /** `MultiVoiceTimesliceIter`: one voice per phrase of the multivoice,
      each with its countdown, what its iterator has still to hand out, and
      the slice it holds. `intended` selects the clock rule: `false` is
      the code as written, `true` the correction. */
  class MultiVoiceTimesliceIter {
    var voices: seq<M.Voice<Timeslice>>
    const intended: bool

    /** `MultiVoice::iter_timeslices`: every voice's iterator started, its
        first slice held, at countdown 0. */
    constructor (m: MultiVoice, intended: bool)
      requires ItemWellFormed(MultiVoiceItem(m))
      ensures voices == M.Start(VoiceOutputs(m.voices)) && this.intended == intended
    {
      voices := M.Start(VoiceOutputs(m.voices));
      this.intended := intended;
    }

    /** `Iterator::next`, by the two passes of `VoiceMerge.Step`. */
    method Next() returns (r: Option<Timeslice>)
      modifies this
      ensures (r, voices) == M.MergeStep(old(voices), SliceLength, Join, intended)
    {
      r, voices := M.Step(voices, SliceLength, Join, intended);
    }

    /** `Iterator::count`, as `MultiVoice::num_timeslices` uses it:
        `next` called until it returns `None`. */
    method Count() returns (n: nat)
      modifies this
      ensures n == |M.Drain(old(voices), SliceLength, Join, intended).0|
      ensures voices == M.Drain(old(voices), SliceLength, Join, intended).1
    {
      n := 0;
      var done := false;
      ghost var start := voices;
      while !done
        invariant !done ==> n + |M.Drain(voices, SliceLength, Join, intended).0| == |M.Drain(start, SliceLength, Join, intended).0|
        invariant !done ==> M.Drain(voices, SliceLength, Join, intended).1 == M.Drain(start, SliceLength, Join, intended).1
        invariant done ==> n == |M.Drain(start, SliceLength, Join, intended).0|
        invariant done ==> voices == M.Drain(start, SliceLength, Join, intended).1
        decreases M.Remaining(voices), if done then 0 else 1
      {
        ghost var before := voices;
        M.StepConsumes(before, SliceLength, Join, intended);
        var r := Next();
        if r.None? {
          done := true;
        } else {
          n := n + 1;
        }
      }
    }
  }

  /** `MultiVoice::num_timeslices`: what a fresh iterator counts, under
      the clock rule as written (`intended` false) or corrected; the
      corrected count is the number of slices the multivoice plays. */
  method CountMultiVoice(m: MultiVoice, intended: bool) returns (n: nat)
    requires ItemWellFormed(MultiVoiceItem(m))
    ensures n == |M.Drain(M.Start(VoiceOutputs(m.voices)), SliceLength, Join, intended).0|
    ensures intended ==> n == |MultiVoiceSlices(m)|
  {
    var it := new MultiVoiceTimesliceIter(m, intended);
    n := it.Count();
  }
}

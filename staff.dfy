/** Staves: a named line of music holding notes, chords, phrases,
    multivoices and directions, in order. Apart from directions, a staff
    holds what a phrase holds, so most of what a staff does is what
    `Phrases` does for the matching phrase item; a direction lasts no beats
    and plays as one slice of its own. */
module Staves {
  import opened Wrappers
  import SeqFacts
  import ModSets
  import opened Durations
  import opened Pitches
  import opened Accidentals
  import N = Notes
  import C = Chords
  import Ph = Phrases
  import D = Directions
  import T = Timeslices
  import PS = PhraseSlices
  import Simp = PhraseSimplify
  import Tempos

  datatype StaffContent =
    | NoteEntry(note: N.Note)
    | ChordEntry(chord: C.Chord)
    | PhraseEntry(phrase: Ph.Phrase)
    | MultiVoiceEntry(multivoice: Ph.MultiVoice)
    | DirectionEntry(direction: D.Direction)

  datatype Staff = Staff(id: nat, name: string, content: seq<StaffContent>)

  /** An entry other than a direction, as the phrase item of the same kind. */
  function AsItem(e: StaffContent): Ph.PhraseContent
    requires !e.DirectionEntry?
  {
    match e
    case NoteEntry(n) => Ph.NoteItem(n)
    case ChordEntry(c) => Ph.ChordItem(c)
    case PhraseEntry(q) => Ph.PhraseItem(q)
    case MultiVoiceEntry(m) => Ph.MultiVoiceItem(m)
  }

  /** A phrase item as the staff entry of the same kind (the `map` that
      `Staff::simplify` applies to a spliced phrase's items). */
  function Lift(item: Ph.PhraseContent): (r: StaffContent)
    ensures !r.DirectionEntry? && AsItem(r) == item
  {
    match item
    case NoteItem(n) => NoteEntry(n)
    case ChordItem(c) => ChordEntry(c)
    case PhraseItem(q) => PhraseEntry(q)
    case MultiVoiceItem(m) => MultiVoiceEntry(m)
  }

  function LiftAll(items: seq<Ph.PhraseContent>): (r: seq<StaffContent>)
    ensures |r| == |items|
    ensures forall i :: 0 <= i < |items| ==> r[i] == Lift(items[i])
  {
    seq(|items|, i requires 0 <= i < |items| => Lift(items[i]))
  }

  /** The id of an entry, whatever its kind. */
  function EntryId(e: StaffContent): nat {
    if e.DirectionEntry? then e.direction.id else Ph.ItemId(AsItem(e))
  }

  /** The ids of the entries, in order. */
  function EntryIds(entries: seq<StaffContent>): (r: seq<nat>)
    ensures |r| == |entries|
    ensures forall i :: 0 <= i < |entries| ==> r[i] == EntryId(entries[i])
  {
    seq(|entries|, i requires 0 <= i < |entries| => EntryId(entries[i]))
  }

  // ---------------------------------------------------------------------
  // Well-formedness

  /** Every modification set below the entries is a set, and every chord
      valid. */
  ghost predicate EntriesWellFormed(entries: seq<StaffContent>) {
    forall i :: 0 <= i < |entries| ==> entries[i].DirectionEntry? || Ph.ItemWellFormed(AsItem(entries[i]))
  }

  ghost predicate WellFormed(s: Staff) {
    EntriesWellFormed(s.content)
  }

  /** Every tuplet below the entries has a non-zero number of beats. */
  predicate EntriesMeasured(entries: seq<StaffContent>) {
    forall i :: 0 <= i < |entries| ==> entries[i].DirectionEntry? || Ph.ItemMeasured(AsItem(entries[i]))
  }

  predicate Measured(s: Staff) {
    EntriesMeasured(s.content)
  }

  /** Joining two runs of entries keeps both properties. */
  lemma {:induction false} ConcatKeeps(a: seq<StaffContent>, b: seq<StaffContent>)
    ensures EntriesWellFormed(a) && EntriesWellFormed(b) ==> EntriesWellFormed(a + b)
    ensures EntriesMeasured(a) && EntriesMeasured(b) ==> EntriesMeasured(a + b)
  {
    forall i | |a| <= i < |a + b| ensures (a + b)[i] == b[i - |a|] {
    }
  }

  /** A run cut out of entries keeps both properties. */
  lemma {:induction false} SliceKeeps(s: seq<StaffContent>, i: nat, j: nat)
    requires i <= j <= |s|
    ensures EntriesWellFormed(s) ==> EntriesWellFormed(s[i..j])
    ensures EntriesMeasured(s) ==> EntriesMeasured(s[i..j])
  {
    forall k | 0 <= k < j - i ensures s[i..j][k] == s[i + k] {
    }
  }

  /** Lifted phrase items keep both properties. */
  lemma {:induction false} LiftKeeps(items: seq<Ph.PhraseContent>)
    ensures Ph.ItemsWellFormed(items) ==> EntriesWellFormed(LiftAll(items))
    ensures Ph.ItemsMeasured(items) ==> EntriesMeasured(LiftAll(items))
  {
  }

  // ---------------------------------------------------------------------
  // Construction

  /** `Staff::new`: the name and no content. */
  function NewStaff(name: string, freshId: nat): (s: Staff)
    ensures s.id == freshId && s.name == name && s.content == []
    ensures WellFormed(s) && Measured(s)
  {
    Staff(freshId, name, [])
  }

  /** The `claim_*` methods: the entry goes in last and the earlier content
      stays as it was. */
  function Claim(s: Staff, e: StaffContent): (r: Staff)
    ensures r.id == s.id && r.name == s.name
    ensures |r.content| == |s.content| + 1
    ensures r.content[..|s.content|] == s.content && r.content[|s.content|] == e
    ensures WellFormed(s) && EntriesWellFormed([e]) ==> WellFormed(r)
    ensures Measured(s) && EntriesMeasured([e]) ==> Measured(r)
  {
    ConcatKeeps(s.content, [e]);
    s.(content := s.content + [e])
  }

  /** `Staff::add_note`: a new note goes in last. */
  function AddNote(s: Staff, pitch: Pitch, duration: Duration, accidental: Option<Accidental>, freshId: nat): (r: Staff)
    ensures r.id == s.id && r.name == s.name
    ensures |r.content| == |s.content| + 1 && r.content[..|s.content|] == s.content
    ensures r.content[|s.content|] == NoteEntry(N.NewNote(pitch, duration, accidental, freshId))
    ensures WellFormed(s) ==> WellFormed(r)
  {
    Claim(s, NoteEntry(N.NewNote(pitch, duration, accidental, freshId)))
  }

  /** `Staff::add_chord`: a new empty chord goes in last. */
  function AddChord(s: Staff, freshId: nat): (r: Staff)
    ensures r.id == s.id && r.name == s.name
    ensures |r.content| == |s.content| + 1 && r.content[..|s.content|] == s.content
    ensures r.content[|s.content|] == ChordEntry(C.NewChord(freshId))
    ensures WellFormed(s) ==> WellFormed(r)
  {
    Claim(s, ChordEntry(C.NewChord(freshId)))
  }

  /** `Staff::add_phrase`: a new empty phrase goes in last. */
  function AddPhrase(s: Staff, freshId: nat): (r: Staff)
    ensures r.id == s.id && r.name == s.name
    ensures |r.content| == |s.content| + 1 && r.content[..|s.content|] == s.content
    ensures r.content[|s.content|] == PhraseEntry(Ph.NewPhrase(freshId))
    ensures WellFormed(s) ==> WellFormed(r)
  {
    Claim(s, PhraseEntry(Ph.NewPhrase(freshId)))
  }

  /** `Staff::add_multivoice`: a new multivoice without voices goes in last. */
  function AddMultiVoice(s: Staff, freshId: nat): (r: Staff)
    ensures r.id == s.id && r.name == s.name
    ensures |r.content| == |s.content| + 1 && r.content[..|s.content|] == s.content
    ensures r.content[|s.content|] == MultiVoiceEntry(Ph.NewMultiVoice(freshId))
    ensures WellFormed(s) ==> WellFormed(r)
  {
    Claim(s, MultiVoiceEntry(Ph.NewMultiVoice(freshId)))
  }

  /** `Staff::add_direction`: a new direction of the type goes in last. */
  function AddDirection(s: Staff, kind: D.DirectionType, freshId: nat): (r: Staff)
    ensures r.id == s.id && r.name == s.name
    ensures |r.content| == |s.content| + 1 && r.content[..|s.content|] == s.content
    ensures r.content[|s.content|] == DirectionEntry(D.NewDirection(kind, freshId))
    ensures WellFormed(s) ==> WellFormed(r)
  {
    Claim(s, DirectionEntry(D.NewDirection(kind, freshId)))
  }

  /** `Vec::insert` as the `insert_*` methods use it: the entry takes
      position `index` and the entries from there on move one place up.
      `Vec::insert` panics beyond the end, hence the precondition. */
  function Insert(s: Staff, index: nat, e: StaffContent): (r: Staff)
    requires index <= |s.content|
    ensures r.id == s.id && r.name == s.name
    ensures |r.content| == |s.content| + 1 && r.content[index] == e
    ensures forall i :: 0 <= i < index ==> r.content[i] == s.content[i]
    ensures forall i :: index < i < |r.content| ==> r.content[i] == s.content[i - 1]
    ensures WellFormed(s) && EntriesWellFormed([e]) ==> WellFormed(r)
    ensures Measured(s) && EntriesMeasured([e]) ==> Measured(r)
  {
    SliceKeeps(s.content, 0, index);
    SliceKeeps(s.content, index, |s.content|);
    ConcatKeeps(s.content[..index], [e]);
    ConcatKeeps(s.content[..index] + [e], s.content[index..]);
    s.(content := s.content[..index] + [e] + s.content[index..])
  }

  /** `Staff::insert_note`: a new note at position `index`. */
  function InsertNote(s: Staff, index: nat, pitch: Pitch, duration: Duration, accidental: Option<Accidental>, freshId: nat): (r: Staff)
    requires index <= |s.content|
    ensures r == Insert(s, index, NoteEntry(N.NewNote(pitch, duration, accidental, freshId)))
    ensures r.content[index].note.id == freshId && r.content[index].note.modifications == []
  {
    Insert(s, index, NoteEntry(N.NewNote(pitch, duration, accidental, freshId)))
  }

  /** `Staff::insert_chord`: a new empty chord at position `index`. */
  function InsertChord(s: Staff, index: nat, freshId: nat): (r: Staff)
    requires index <= |s.content|
    ensures r == Insert(s, index, ChordEntry(C.NewChord(freshId)))
    ensures r.content[index].chord.id == freshId && r.content[index].chord.content == []
  {
    Insert(s, index, ChordEntry(C.NewChord(freshId)))
  }

  /** `Staff::insert_phrase`: a new empty phrase at position `index`. */
  function InsertPhrase(s: Staff, index: nat, freshId: nat): (r: Staff)
    requires index <= |s.content|
    ensures r == Insert(s, index, PhraseEntry(Ph.NewPhrase(freshId)))
    ensures r.content[index].phrase.id == freshId && r.content[index].phrase.content == []
  {
    Insert(s, index, PhraseEntry(Ph.NewPhrase(freshId)))
  }

  /** `Staff::insert_multivoice`: a new multivoice at position `index`. */
  function InsertMultiVoice(s: Staff, index: nat, freshId: nat): (r: Staff)
    requires index <= |s.content|
    ensures r == Insert(s, index, MultiVoiceEntry(Ph.NewMultiVoice(freshId)))
    ensures r.content[index].multivoice.id == freshId && r.content[index].multivoice.voices == []
  {
    Insert(s, index, MultiVoiceEntry(Ph.NewMultiVoice(freshId)))
  }

  /** `Staff::insert_direction`: a new direction at position `index`. */
  function InsertDirection(s: Staff, index: nat, kind: D.DirectionType, freshId: nat): (r: Staff)
    requires index <= |s.content|
    ensures r == Insert(s, index, DirectionEntry(D.NewDirection(kind, freshId)))
    ensures r.content[index].direction.id == freshId && r.content[index].direction.kind == kind
  {
    Insert(s, index, DirectionEntry(D.NewDirection(kind, freshId)))
  }

  /** Inserting at the end is claiming. */
  lemma {:induction false} InsertAtEndIsClaim(s: Staff, e: StaffContent)
    ensures Insert(s, |s.content|, e) == Claim(s, e)
  {
    assert s.content[|s.content|..] == [];
    assert s.content[..|s.content|] == s.content;
  }

  // ---------------------------------------------------------------------
  // Beats

  /** The beats of one entry, with no tuplet ratio above it: a direction
      lasts none. */
  function EntryBeats(e: StaffContent, beatBase: Duration): (r: real)
    requires EntriesMeasured([e])
    ensures r >= 0.0
  {
    if e.DirectionEntry? then 0.0
    else
      assert Ph.ItemMeasured(AsItem([e][0]));
      Ph.ItemBeats(AsItem(e), beatBase, Option.None)
  }

  /** The `sum` of the entries' beats, added from the first to the last. */
  function EntriesBeats(entries: seq<StaffContent>, beatBase: Duration): (r: real)
    requires EntriesMeasured(entries)
    ensures r >= 0.0
  {
    if entries == [] then 0.0
    else
      var n := |entries| - 1;
      SliceKeeps(entries, 0, n);
      SliceKeeps(entries, n, n + 1);
      assert entries[0..n] == entries[..n] && entries[n..n + 1] == [entries[n]];
      EntriesBeats(entries[..n], beatBase) + EntryBeats(entries[n], beatBase)
  }

  /** `Staff::get_beats`. */
  function StaffBeats(s: Staff, beatBase: Duration): (r: real)
    requires Measured(s)
    ensures r >= 0.0
  {
    EntriesBeats(s.content, beatBase)
  }

  /** `Staff::get_duration`: the beats at the tempo's base note, in seconds
      at its beats per minute; none at 0 bpm, where the source divides by
      zero. */
  function StaffDuration(s: Staff, tempo: Tempos.Tempo): (r: Option<real>)
    requires Measured(s)
    ensures Tempos.Lasts(r, StaffBeats(s, tempo.baseNote), tempo.beatsPerMinute)
  {
    Tempos.Seconds(StaffBeats(s, tempo.baseNote), tempo.beatsPerMinute)
  }

  /** Sums over a split: the beats of two runs of entries add up. */
  lemma {:induction false} EntriesBeatsAppend(a: seq<StaffContent>, b: seq<StaffContent>, beatBase: Duration)
    requires EntriesMeasured(a) && EntriesMeasured(b)
    ensures EntriesMeasured(a + b)
    ensures EntriesBeats(a + b, beatBase) == EntriesBeats(a, beatBase) + EntriesBeats(b, beatBase)
    decreases |b|
  {
    ConcatKeeps(a, b);
    if b == [] {
      assert a + b == a;
    } else {
      var n := |b| - 1;
      SliceKeeps(b, 0, n);
      assert b[0..n] == b[..n];
      EntriesBeatsAppend(a, b[..n], beatBase);
      assert (a + b)[..|a + b| - 1] == a + b[..n];
      assert (a + b)[|a + b| - 1] == b[n];
    }
  }

  /** Claiming an entry adds its beats; a direction adds none. */
  lemma {:induction false} ClaimAddsBeats(s: Staff, e: StaffContent, beatBase: Duration)
    requires Measured(s) && EntriesMeasured([e])
    ensures Measured(Claim(s, e))
    ensures StaffBeats(Claim(s, e), beatBase) == StaffBeats(s, beatBase) + EntryBeats(e, beatBase)
    ensures e.DirectionEntry? ==> StaffBeats(Claim(s, e), beatBase) == StaffBeats(s, beatBase)
  {
    var r := Claim(s, e);
    assert r.content[..|s.content|] == s.content;
  }

  /** Inserting an entry anywhere adds its beats. */
  lemma {:induction false} InsertAddsBeats(s: Staff, index: nat, e: StaffContent, beatBase: Duration)
    requires Measured(s) && EntriesMeasured([e]) && index <= |s.content|
    ensures Measured(Insert(s, index, e))
    ensures StaffBeats(Insert(s, index, e), beatBase) == StaffBeats(s, beatBase) + EntryBeats(e, beatBase)
  {
    var pre := s.content[..index];
    var post := s.content[index..];
    SliceKeeps(s.content, 0, index);
    SliceKeeps(s.content, index, |s.content|);
    assert s.content[0..index] == pre && s.content[index..|s.content|] == post;
    EntriesBeatsAppend(pre, [e], beatBase);
    EntriesBeatsAppend(pre + [e], post, beatBase);
    EntriesBeatsAppend(pre, post, beatBase);
    assert pre + post == s.content;
    assert [e][..0] == [];
  }

  /** Lifted phrase items last as long as the items, with no ratio above. */
  lemma {:induction false} LiftedBeats(items: seq<Ph.PhraseContent>, beatBase: Duration)
    requires Ph.ItemsMeasured(items)
    ensures EntriesMeasured(LiftAll(items))
    ensures EntriesBeats(LiftAll(items), beatBase) == Ph.ItemsBeats(items, beatBase, Option.None)
    decreases |items|
  {
    if items != [] {
      var n := |items| - 1;
      Ph.SliceKeeps(items, 0, n);
      assert items[0..n] == items[..n];
      LiftedBeats(items[..n], beatBase);
      assert LiftAll(items)[..n] == LiftAll(items[..n]);
    }
  }

  // ---------------------------------------------------------------------
  // Timeslices

  /** The slices of one entry: a direction's own slice (its clone keeps the
      id), or what the phrase item of the same kind gives; a note, chord or
      direction gives exactly one. */
  function EntrySlices(e: StaffContent): (r: seq<T.Timeslice>)
    requires EntriesWellFormed([e])
    ensures e.DirectionEntry? || e.NoteEntry? || e.ChordEntry? ==> |r| == 1
  {
    if e.DirectionEntry? then [T.DirectionToTimeslice(e.direction, e.direction.id)]
    else
      assert Ph.ItemWellFormed(AsItem([e][0]));
      PS.RawItem(AsItem(e))
  }

  /** Everything `StaffTimesliceIter` hands out: each entry's slices in
      turn. */
  function EntriesSlices(entries: seq<StaffContent>): seq<T.Timeslice>
    requires EntriesWellFormed(entries)
  {
    if entries == [] then []
    else
      var n := |entries| - 1;
      SliceKeeps(entries, 0, n);
      SliceKeeps(entries, n, n + 1);
      assert entries[0..n] == entries[..n] && entries[n..n + 1] == [entries[n]];
      EntriesSlices(entries[..n]) + EntrySlices(entries[n])
  }

  function StaffSlices(s: Staff): seq<T.Timeslice>
    requires WellFormed(s)
  {
    EntriesSlices(s.content)
  }

  /** `num_timeslices` for one entry: 1 for a note, chord or direction, the
      child's own count for a phrase or multivoice. */
  function EntryCount(e: StaffContent): nat
    requires EntriesWellFormed([e])
  {
    if e.DirectionEntry? then 1
    else
      assert Ph.ItemWellFormed(AsItem([e][0]));
      PS.ItemCount(AsItem(e))
  }

  function EntriesCount(entries: seq<StaffContent>): nat
    requires EntriesWellFormed(entries)
  {
    if entries == [] then 0
    else
      var n := |entries| - 1;
      SliceKeeps(entries, 0, n);
      SliceKeeps(entries, n, n + 1);
      assert entries[0..n] == entries[..n] && entries[n..n + 1] == [entries[n]];
      EntriesCount(entries[..n]) + EntryCount(entries[n])
  }

  /** `Staff::num_timeslices`. */
  function NumTimeslices(s: Staff): nat
    requires WellFormed(s)
  {
    EntriesCount(s.content)
  }

  /** `num_timeslices` counts exactly the slices the iterator hands out. */
  lemma {:induction false} StaffSlicesCount(s: Staff)
    requires WellFormed(s)
    ensures |StaffSlices(s)| == NumTimeslices(s)
  {
    EntriesSlicesCount(s.content);
  }

  lemma {:induction false} EntriesSlicesCount(entries: seq<StaffContent>)
    requires EntriesWellFormed(entries)
    ensures |EntriesSlices(entries)| == EntriesCount(entries)
    decreases |entries|
  {
    if entries != [] {
      var n := |entries| - 1;
      SliceKeeps(entries, 0, n);
      SliceKeeps(entries, n, n + 1);
      assert entries[0..n] == entries[..n] && entries[n..n + 1] == [entries[n]];
      EntriesSlicesCount(entries[..n]);
      EntrySlicesCount(entries[n]);
    }
  }

  /** One entry hands out as many slices as it counts. */
  lemma {:induction false} EntrySlicesCount(e: StaffContent)
    requires EntriesWellFormed([e])
    ensures |EntrySlices(e)| == EntryCount(e)
  {
    if !e.DirectionEntry? {
      assert Ph.ItemWellFormed(AsItem([e][0]));
      PS.RawItemCount(AsItem(e));
    }
  }

  /** The slices of the first `i + 1` entries: those of the first `i`,
      then the `i`-th entry's. */
  lemma {:induction false} EntriesSlicesStep(entries: seq<StaffContent>, i: nat)
    requires EntriesWellFormed(entries) && i < |entries|
    ensures EntriesWellFormed(entries[..i]) && EntriesWellFormed(entries[..i + 1]) && EntriesWellFormed([entries[i]])
    ensures EntriesSlices(entries[..i + 1]) == EntriesSlices(entries[..i]) + EntrySlices(entries[i])
  {
    SliceKeeps(entries, 0, i);
    SliceKeeps(entries, 0, i + 1);
    SliceKeeps(entries, i, i + 1);
    assert entries[..i] == entries[0..i] && entries[..i + 1] == entries[0..i + 1];
    assert entries[i..i + 1] == [entries[i]];
    assert entries[..i + 1][..i] == entries[..i];
  }

  /** The last entry of `b` closes both the slices of `b` and those of
      `a + b`. */
  lemma {:induction false} EntriesSlicesLast(a: seq<StaffContent>, b: seq<StaffContent>)
    requires EntriesWellFormed(a) && EntriesWellFormed(b) && b != []
    ensures EntriesWellFormed(b[..|b| - 1]) && EntriesWellFormed(a + b[..|b| - 1]) && EntriesWellFormed(a + b)
    ensures EntriesWellFormed([b[|b| - 1]])
    ensures EntriesSlices(b) == EntriesSlices(b[..|b| - 1]) + EntrySlices(b[|b| - 1])
    ensures EntriesSlices(a + b) == EntriesSlices(a + b[..|b| - 1]) + EntrySlices(b[|b| - 1])
  {
    var n := |b| - 1;
    var ab := a + b;
    var m := |ab| - 1;
    ConcatKeeps(a, b);
    SliceKeeps(b, 0, n);
    assert b[0..n] == b[..n];
    ConcatKeeps(a, b[..n]);
    EntriesSlicesStep(b, n);
    assert b[..n + 1] == b;
    EntriesSlicesStep(ab, m);
    assert ab[..m + 1] == ab;
    assert ab[..m] == a + b[..n] && ab[m] == b[n];
  }

  /** Sums over a split: the slices of two runs of entries, one after the
      other. */
  lemma {:induction false} EntriesSlicesAppend(a: seq<StaffContent>, b: seq<StaffContent>)
    requires EntriesWellFormed(a) && EntriesWellFormed(b)
    ensures EntriesWellFormed(a + b)
    ensures EntriesSlices(a + b) == EntriesSlices(a) + EntriesSlices(b)
    decreases |b|
  {
    ConcatKeeps(a, b);
    if b == [] {
      assert a + b == a;
    } else {
      var n := |b| - 1;
      EntriesSlicesLast(a, b);
      EntriesSlicesAppend(a, b[..n]);
      SeqFacts.JoinLast(EntriesSlices(a + b), EntriesSlices(a + b[..n]), EntrySlices(b[n]),
        EntriesSlices(a), EntriesSlices(b[..n]), EntriesSlices(b));
    }
  }

  /** The slices of the first `i` entries start the slices of all of them. */
  lemma {:induction false} EntriesSlicesPrefix(entries: seq<StaffContent>, i: nat)
    requires EntriesWellFormed(entries) && i <= |entries|
    ensures EntriesWellFormed(entries[..i]) && EntriesWellFormed(entries[i..])
    ensures EntriesSlices(entries) == EntriesSlices(entries[..i]) + EntriesSlices(entries[i..])
  {
    SliceKeeps(entries, 0, i);
    SliceKeeps(entries, i, |entries|);
    assert entries[..i] == entries[0..i] && entries[i..] == entries[i..|entries|];
    EntriesSlicesAppend(entries[..i], entries[i..]);
    assert entries[..i] + entries[i..] == entries;
  }

  /** `StaffTimesliceIter`. The content iterator is the position reached in
      the entries; the child iterator (of a phrase or a multivoice, one at a
      time) is what it has still to hand out. The ghost fields name the
      slices of the whole staff and how many have been handed out. */
  class StaffTimesliceIter {
    const content: seq<StaffContent>
    var position: nat
    var child: seq<T.Timeslice>
    ghost const slices: seq<T.Timeslice>
    ghost var emitted: nat

    /** The slices of the entries taken so far are those handed out,
        followed by what the child still holds. */
    ghost predicate Valid()
      reads this
    {
      EntriesWellFormed(content) && slices == EntriesSlices(content)
      && position <= |content| && emitted <= |slices|
      && EntriesWellFormed(content[..position])
      && EntriesSlices(content[..position]) == slices[..emitted] + child
    }

    /** `Staff::iter_timeslices`. */
    constructor (s: Staff)
      requires WellFormed(s)
      ensures Valid() && content == s.content && slices == StaffSlices(s) && emitted == 0
    {
      content := s.content;
      position := 0;
      child := [];
      slices := EntriesSlices(s.content);
      emitted := 0;
      new;
      SliceKeeps(content, 0, 0);
      assert content[..0] == content[0..0] == [];
    }

    /** `next`: the child's next slice while it has one; otherwise the next
        entries are taken until one gives a slice (a note, chord or
        direction gives its own, a phrase or multivoice its first and the
        child keeps the rest, an empty one gives nothing); None once the
        entries are used up. */
    method Next() returns (r: Option<T.Timeslice>)
      requires Valid()
      modifies this
      ensures Valid()
      ensures old(emitted) < |slices| ==> r == Some(slices[old(emitted)]) && emitted == old(emitted) + 1
      ensures old(emitted) == |slices| ==> r.None? && emitted == old(emitted)
    {
      if child != [] {
        r := FromChild();
        return;
      }
      var valid := false;
      r := Option.None;
      while !valid
        invariant Valid() && (!valid ==> child == [])
        invariant !valid ==> emitted == old(emitted) && r.None?
        invariant valid ==> (old(emitted) < |slices| && r == Some(slices[old(emitted)]) && emitted == old(emitted) + 1)
                            || (old(emitted) == |slices| && r.None? && emitted == old(emitted))
        decreases |content| - position, if valid then 0 else 1
      {
        if position == |content| {
          Exhausted();
          valid := true;
        } else {
          r := FromEntry();
          valid := r.Some?;
        }
      }
    }

    /** The child iterator hands out its next slice. */
    method FromChild() returns (r: Option<T.Timeslice>)
      requires Valid() && child != []
      modifies this
      ensures Valid()
      ensures old(emitted) < |slices| && r == Some(slices[old(emitted)]) && emitted == old(emitted) + 1
    {
      ChildIsNext();
      r := Some(child[0]);
      child := child[1..];
      emitted := emitted + 1;
    }

    /** The next entry: its first slice, if it has one, and the child keeps
        the rest. */
    method FromEntry() returns (r: Option<T.Timeslice>)
      requires Valid() && child == [] && position < |content|
      modifies this
      ensures Valid() && position == old(position) + 1
      ensures r.Some? ==> old(emitted) < |slices| && r == Some(slices[old(emitted)]) && emitted == old(emitted) + 1
      ensures r.None? ==> emitted == old(emitted) && child == []
    {
      var out := EntrySlices(content[position]);
      EntryTaken(out);
      position := position + 1;
      if out == [] {
        r := Option.None;
      } else {
        OutIsNext(out);
        r := Some(out[0]);
        child := out[1..];
        emitted := emitted + 1;
      }
    }

    /** With the child used up, the entry at `position` brings its own
        slices after those handed out. */
    lemma EntryTaken(out: seq<T.Timeslice>)
      requires Valid() && child == [] && position < |content| && out == EntrySlices(content[position])
      ensures EntriesWellFormed(content[..position + 1])
      ensures EntriesSlices(content[..position + 1]) == slices[..emitted] + out
    {
      EntriesSlicesStep(content, position);
      assert slices[..emitted] + child == slices[..emitted];
    }

    /** What the child holds first is the next slice of the staff. */
    lemma ChildIsNext()
      requires Valid() && child != []
      ensures emitted < |slices| && slices[emitted] == child[0]
      ensures slices[..emitted + 1] + child[1..] == slices[..emitted] + child
    {
      EntriesSlicesPrefix(content, position);
      SeqFacts.TakeFirst(slices, emitted, child, EntriesSlices(content[position..]));
    }

    /** The slices of the entry just taken follow those handed out. */
    lemma OutIsNext(out: seq<T.Timeslice>)
      requires EntriesWellFormed(content) && slices == EntriesSlices(content)
      requires position <= |content| && emitted <= |slices| && EntriesWellFormed(content[..position])
      requires EntriesSlices(content[..position]) == slices[..emitted] + out && out != []
      ensures emitted < |slices| && slices[emitted] == out[0]
      ensures slices[..emitted + 1] + out[1..] == slices[..emitted] + out
    {
      EntriesSlicesPrefix(content, position);
      SeqFacts.TakeFirst(slices, emitted, out, EntriesSlices(content[position..]));
    }

    /** Once the entries are used up and the child is empty, every slice
        has been handed out. */
    lemma Exhausted()
      requires Valid() && position == |content| && child == []
      ensures emitted == |slices|
    {
      assert content[..position] == content;
    }
  }

  /** Running the iterator to its end hands out the staff's slices, in
      order, and as many as `num_timeslices` says. */
  method CollectSlices(s: Staff) returns (out: seq<T.Timeslice>)
    requires WellFormed(s)
    ensures out == StaffSlices(s)
    ensures |out| == NumTimeslices(s)
  {
    var it := new StaffTimesliceIter(s);
    out := [];
    var done := false;
    while !done
      invariant it.Valid() && it.slices == StaffSlices(s)
      invariant out == it.slices[..it.emitted]
      invariant done ==> it.emitted == |it.slices|
      decreases |it.slices| - it.emitted, if done then 0 else 1
    {
      var r := it.Next();
      if r.Some? {
        SeqFacts.PrefixPush(it.slices, it.emitted - 1, r.value);
        out := out + [r.value];
      } else {
        done := true;
      }
    }
    assert out == it.slices;
    StaffSlicesCount(s);
  }

  // ---------------------------------------------------------------------
  // Removing items and modifications

  /** No entry has the id, and nothing inside an entry other than a
      direction has it either. */
  ghost predicate EntriesFree(entries: seq<StaffContent>, id: nat) {
    forall i :: 0 <= i < |entries| ==>
      EntryId(entries[i]) != id && (entries[i].DirectionEntry? || Ph.InnerFree(AsItem(entries[i]), id))
  }

  /** The test that keeps every entry with another id. */
  function OtherEntryId(id: nat): StaffContent -> bool {
    (e: StaffContent) => EntryId(e) != id
  }

  /** `Staff::remove_item`: the entries with the id go, then every
      remaining chord, phrase and multivoice has it removed in turn; the
      staff's id and name stay. */
  function RemoveItem(s: Staff, id: nat): (r: Staff)
    ensures r.id == s.id && r.name == s.name
    ensures EntryIds(r.content) == Ph.Without(EntryIds(s.content), id)
    ensures EntriesFree(r.content, id)
    ensures var kept := ModSets.Filter(s.content, OtherEntryId(id));
      |r.content| == |kept| && forall i :: 0 <= i < |kept| ==> r.content[i] == RemoveInsideEntry(kept[i], id)
  {
    s.(content := RemoveFromEntries(s.content, id))
  }

  /** The `retain` and then the `for_each`, entry by entry: the entries
      kept are those with another id, in order, each with the id removed
      inside it. */
  function RemoveFromEntries(entries: seq<StaffContent>, id: nat): (r: seq<StaffContent>)
    ensures EntryIds(r) == Ph.Without(EntryIds(entries), id)
    ensures EntriesFree(r, id)
    ensures var kept := ModSets.Filter(entries, OtherEntryId(id));
      |r| == |kept| && forall i :: 0 <= i < |kept| ==> r[i] == RemoveInsideEntry(kept[i], id)
  {
    if entries == [] then []
    else
      var n := |entries| - 1;
      var before := RemoveFromEntries(entries[..n], id);
      assert EntryIds(entries)[..n] == EntryIds(entries[..n]);
      RemovedEntriesSnoc(entries, id, before);
      if EntryId(entries[n]) == id then before
      else
        var last := RemoveInsideEntry(entries[n], id);
        assert EntryIds(before + [last]) == EntryIds(before) + [EntryId(last)];
        before + [last]
  }

  /** One more entry: kept and edited when its id differs, dropped
      otherwise. */
  lemma {:induction false} RemovedEntriesSnoc(entries: seq<StaffContent>, id: nat, before: seq<StaffContent>)
    requires entries != []
    requires var kept := ModSets.Filter(entries[..|entries| - 1], OtherEntryId(id));
      |before| == |kept| && forall i :: 0 <= i < |kept| ==> before[i] == RemoveInsideEntry(kept[i], id)
    ensures var kept := ModSets.Filter(entries, OtherEntryId(id));
      var e := entries[|entries| - 1];
      var r := if EntryId(e) == id then before else before + [RemoveInsideEntry(e, id)];
      |r| == |kept| && forall i :: 0 <= i < |kept| ==> r[i] == RemoveInsideEntry(kept[i], id)
  {
    var n := |entries| - 1;
    var keep := OtherEntryId(id);
    var keptBefore := ModSets.Filter(entries[..n], keep);
    ModSets.FilterSnoc(entries[..n], entries[n], keep);
    assert entries[..n] + [entries[n]] == entries;
    if EntryId(entries[n]) != id {
      var last := RemoveInsideEntry(entries[n], id);
      assert ModSets.Filter(entries, keep) == keptBefore + [entries[n]];
      forall i | 0 <= i < |keptBefore| + 1
        ensures (before + [last])[i] == RemoveInsideEntry((keptBefore + [entries[n]])[i], id)
      {
        if i < |keptBefore| {
          assert (before + [last])[i] == before[i];
          assert (keptBefore + [entries[n]])[i] == keptBefore[i];
        }
      }
    }
  }

  /** A kept entry with the id removed inside it: a direction or a note is
      unchanged, and a chord, phrase or multivoice is its own
      `remove_item`. */
  function RemoveInsideEntry(e: StaffContent, id: nat): (r: StaffContent)
    ensures EntryId(r) == EntryId(e) && r.DirectionEntry? == e.DirectionEntry?
    ensures e.DirectionEntry? || e.NoteEntry? ==> r == e
    ensures e.ChordEntry? ==> r == ChordEntry(C.RemoveItem(e.chord, id))
    ensures e.PhraseEntry? ==> r == PhraseEntry(Ph.RemoveItem(e.phrase, id))
    ensures e.MultiVoiceEntry? ==> r == MultiVoiceEntry(Ph.MultiVoiceRemoveItem(e.multivoice, id))
    ensures !r.DirectionEntry? ==> Ph.InnerFree(AsItem(r), id)
  {
    if e.DirectionEntry? then e else Lift(Ph.RemoveInside(AsItem(e), id))
  }

  /** Removing an id that occurs nowhere in the staff changes nothing. */
  lemma {:induction false} RemoveAbsentItem(s: Staff, id: nat)
    requires EntriesFree(s.content, id)
    ensures RemoveItem(s, id) == s
  {
    RemoveAbsentFromEntries(s.content, id);
  }

  lemma {:induction false} RemoveAbsentFromEntries(entries: seq<StaffContent>, id: nat)
    requires EntriesFree(entries, id)
    ensures RemoveFromEntries(entries, id) == entries
  {
    var r := RemoveFromEntries(entries, id);
    forall e | e in entries ensures OtherEntryId(id)(e) {
      var i :| 0 <= i < |entries| && entries[i] == e;
    }
    ModSets.FilterAllKept(entries, OtherEntryId(id));
    forall i | 0 <= i < |entries| ensures r[i] == entries[i] {
      var e := entries[i];
      if !e.DirectionEntry? {
        Ph.RemoveAbsentInside(AsItem(e), id);
        LiftAsItem(e);
      }
    }
  }

  /** An entry other than a direction is the lift of its phrase item. */
  lemma {:induction false} LiftAsItem(e: StaffContent)
    requires !e.DirectionEntry?
    ensures Lift(AsItem(e)) == e
  {
    match e
    case NoteEntry(_) =>
    case ChordEntry(_) =>
    case PhraseEntry(_) =>
    case MultiVoiceEntry(_) =>
  }

  /** Removing an id twice is removing it once. */
  lemma {:induction false} RemoveItemIdempotent(s: Staff, id: nat)
    ensures RemoveItem(RemoveItem(s, id), id) == RemoveItem(s, id)
  {
    RemoveAbsentItem(RemoveItem(s, id), id);
  }

  /** No modification anywhere below an entry other than a direction has
      the id. */
  ghost predicate EntriesModsFree(entries: seq<StaffContent>, id: nat) {
    forall i :: 0 <= i < |entries| ==> entries[i].DirectionEntry? || Ph.ItemModsFree(AsItem(entries[i]), id)
  }

  /** `Staff::remove_modification`: every note, chord, phrase and
      multivoice has the modification id removed; directions and the
      entries themselves, in order, stay. */
  function RemoveModification(s: Staff, id: nat): (r: Staff)
    requires WellFormed(s)
    ensures WellFormed(r) && r.id == s.id && r.name == s.name
    ensures EntryIds(r.content) == EntryIds(s.content)
    ensures forall i :: 0 <= i < |s.content| && s.content[i].DirectionEntry? ==> r.content[i] == s.content[i]
    ensures |r.content| == |s.content|
    ensures forall i :: 0 <= i < |s.content| && !s.content[i].DirectionEntry? ==>
      r.content[i] == Lift(Ph.RemoveModsInside(AsItem(s.content[i]), id))
    ensures EntriesModsFree(r.content, id)
  {
    s.(content := RemoveModsFromEntries(s.content, id))
  }

  function RemoveModsFromEntries(entries: seq<StaffContent>, id: nat): (r: seq<StaffContent>)
    requires EntriesWellFormed(entries)
    ensures EntriesWellFormed(r) && EntryIds(r) == EntryIds(entries)
    ensures forall i :: 0 <= i < |entries| && entries[i].DirectionEntry? ==> r[i] == entries[i]
    ensures |r| == |entries|
    ensures forall i :: 0 <= i < |entries| && !entries[i].DirectionEntry? ==>
      r[i] == Lift(Ph.RemoveModsInside(AsItem(entries[i]), id))
    ensures EntriesModsFree(r, id)
  {
    if entries == [] then []
    else
      var n := |entries| - 1;
      SliceKeeps(entries, 0, n);
      assert entries[0..n] == entries[..n];
      var before := RemoveModsFromEntries(entries[..n], id);
      var e := entries[n];
      var last := if e.DirectionEntry? then e
        else
          assert Ph.ItemWellFormed(AsItem(e));
          Lift(Ph.RemoveModsInside(AsItem(e), id));
      ModsEntriesSnoc(entries, id, before, last);
      before + [last]
  }

  /** One more entry, a direction kept as it is or anything else edited by
      its own kind's `remove_modification`: the ids, well-formedness and
      absence of the id carry over. */
  lemma {:induction false} ModsEntriesSnoc(entries: seq<StaffContent>, id: nat, before: seq<StaffContent>, last: StaffContent)
    requires entries != [] && EntriesWellFormed(entries)
    requires var front := entries[..|entries| - 1];
      EntriesWellFormed(before) && EntryIds(before) == EntryIds(front) && |before| == |front| &&
      (forall i :: 0 <= i < |front| && front[i].DirectionEntry? ==> before[i] == front[i]) &&
      (forall i :: 0 <= i < |front| && !front[i].DirectionEntry? ==>
        before[i] == Lift(Ph.RemoveModsInside(AsItem(front[i]), id))) &&
      EntriesModsFree(before, id)
    requires var e := entries[|entries| - 1];
      if e.DirectionEntry? then last == e else last == Lift(Ph.RemoveModsInside(AsItem(e), id))
    ensures var r := before + [last];
      EntriesWellFormed(r) && EntryIds(r) == EntryIds(entries) && |r| == |entries| && EntriesModsFree(r, id)
    ensures var r := before + [last];
      (forall i :: 0 <= i < |entries| && entries[i].DirectionEntry? ==> r[i] == entries[i]) &&
      forall i :: 0 <= i < |entries| && !entries[i].DirectionEntry? ==>
        r[i] == Lift(Ph.RemoveModsInside(AsItem(entries[i]), id))
  {
    var n := |entries| - 1;
    var e := entries[n];
    ConcatKeeps(before, [last]);
    assert entries[..n] + [e] == entries;
    assert EntryIds(entries) == EntryIds(entries[..n]) + [EntryId(e)];
    assert EntryIds(before + [last]) == EntryIds(before) + [EntryId(last)];
    ModsEntriesKept(entries, id, before, last);
  }

  /** The per-entry half of `ModsEntriesSnoc`: every entry lines up with its
      edited copy. */
  lemma {:induction false} ModsEntriesKept(entries: seq<StaffContent>, id: nat, before: seq<StaffContent>, last: StaffContent)
    requires entries != [] && EntriesWellFormed(entries)
    requires var front := entries[..|entries| - 1];
      |before| == |front| &&
      (forall i :: 0 <= i < |front| && front[i].DirectionEntry? ==> before[i] == front[i]) &&
      forall i :: 0 <= i < |front| && !front[i].DirectionEntry? ==>
        before[i] == Lift(Ph.RemoveModsInside(AsItem(front[i]), id))
    requires var e := entries[|entries| - 1];
      if e.DirectionEntry? then last == e else last == Lift(Ph.RemoveModsInside(AsItem(e), id))
    ensures var r := before + [last];
      (forall i :: 0 <= i < |entries| && entries[i].DirectionEntry? ==> r[i] == entries[i]) &&
      forall i :: 0 <= i < |entries| && !entries[i].DirectionEntry? ==>
        r[i] == Lift(Ph.RemoveModsInside(AsItem(entries[i]), id))
  {
    var n := |entries| - 1;
    var r := before + [last];
    forall i | 0 <= i < n ensures r[i] == before[i] && entries[..n][i] == entries[i] {
    }
  }

  // ---------------------------------------------------------------------
  // Equality

  /** `PartialEq for Staff`: the same name and equal entries position by
      position; the id is not compared. */
  predicate SameStaff(a: Staff, b: Staff) {
    a.name == b.name && |a.content| == |b.content|
    && forall i :: 0 <= i < |a.content| ==> SameEntry(a.content[i], b.content[i])
  }

  /** The derived `PartialEq for StaffContent`: the same kind of entry, and
      equal under that kind's own equality. */
  predicate SameEntry(a: StaffContent, b: StaffContent) {
    if a.DirectionEntry? then b.DirectionEntry? && D.SameModification(a.direction, b.direction)
    else !b.DirectionEntry? && Ph.SameItem(AsItem(a), AsItem(b))
  }

  /** `Clone for Staff`: the same name and content under a fresh id. */
  function CloneStaff(s: Staff, freshId: nat): (r: Staff)
    ensures r.id == freshId && SameStaff(r, s)
  {
    SameStaffReflexive(s);
    s.(id := freshId)
  }

  /** Every staff equals itself. */
  lemma {:induction false} SameStaffReflexive(s: Staff)
    ensures SameStaff(s, s)
  {
    forall i | 0 <= i < |s.content| ensures SameEntry(s.content[i], s.content[i]) {
      if !s.content[i].DirectionEntry? {
        Ph.SameItemReflexive(AsItem(s.content[i]));
      }
    }
  }

  /** `Staff::rename`. */
  function Rename(s: Staff, name: string): (r: Staff)
    ensures r.name == name && r.id == s.id && r.content == s.content
  {
    s.(name := name)
  }

  // ---------------------------------------------------------------------
  // Simplifying

  /** The number of entries, counting everything inside phrases and
      multivoices, which every round that edits makes smaller. */
  function EntrySize(e: StaffContent): (r: nat)
    ensures r >= 1
  {
    if e.DirectionEntry? then 1 else Simp.ItemSize(AsItem(e))
  }

  function EntriesSize(entries: seq<StaffContent>): nat {
    if entries == [] then 0
    else EntriesSize(entries[..|entries| - 1]) + EntrySize(entries[|entries| - 1])
  }

  /** Every phrase and multivoice of the staff is simplified all the way
      down: no phrase is empty or without modifications, and no multivoice
      has fewer than two voices. */
  ghost predicate EntriesSimplified(entries: seq<StaffContent>) {
    forall i :: 0 <= i < |entries| ==> entries[i].DirectionEntry? || Simp.ItemSimplified(AsItem(entries[i]))
  }

  lemma {:induction false} EntriesSizeAppend(a: seq<StaffContent>, b: seq<StaffContent>)
    ensures EntriesSize(a + b) == EntriesSize(a) + EntriesSize(b)
    decreases |b|
  {
    if b == [] {
      assert a + b == a;
    } else {
      var n := |b| - 1;
      EntriesSizeAppend(a, b[..n]);
      assert (a + b)[..|a + b| - 1] == a + b[..n];
      assert (a + b)[|a + b| - 1] == b[n];
    }
  }

  /** The size of a prefix one entry longer. */
  lemma {:induction false} EntriesSizeStep(entries: seq<StaffContent>, i: nat)
    requires i < |entries|
    ensures EntriesSize(entries[..i + 1]) == EntriesSize(entries[..i]) + EntrySize(entries[i])
  {
    assert entries[..i + 1][..i] == entries[..i];
  }

  /** The beats of a prefix one entry longer. */
  lemma {:induction false} EntriesBeatsStep(entries: seq<StaffContent>, i: nat, beatBase: Duration)
    requires i < |entries| && EntriesMeasured(entries)
    ensures EntriesMeasured(entries[..i]) && EntriesMeasured(entries[..i + 1]) && EntriesMeasured([entries[i]])
    ensures EntriesBeats(entries[..i + 1], beatBase) == EntriesBeats(entries[..i], beatBase) + EntryBeats(entries[i], beatBase)
  {
    SliceKeeps(entries, 0, i);
    SliceKeeps(entries, 0, i + 1);
    SliceKeeps(entries, i, i + 1);
    assert entries[..i] == entries[0..i] && entries[..i + 1] == entries[0..i + 1];
    assert entries[i..i + 1] == [entries[i]];
    assert entries[..i + 1][..i] == entries[..i];
  }

  /** Lifted phrase items are as large as the items. */
  lemma {:induction false} LiftedSize(items: seq<Ph.PhraseContent>)
    ensures EntriesSize(LiftAll(items)) == Simp.ItemsSize(items)
    decreases |items|
  {
    if items != [] {
      var n := |items| - 1;
      LiftedSize(items[..n]);
      assert LiftAll(items)[..n] == LiftAll(items[..n]);
    }
  }

  /** `Staff::simplify`: rounds over the entries until one changes
      nothing. The staff keeps its id, name and beats, and comes out
      simplified: every direct phrase has items and modifications, and
      every direct multivoice at least two voices. */
  method Simplify(s: Staff) returns (r: Staff)
    ensures r.id == s.id && r.name == s.name
    ensures EntriesSimplified(r.content)
    ensures forall i :: 0 <= i < |r.content| && r.content[i].PhraseEntry? ==>
      r.content[i].phrase.content != [] && r.content[i].phrase.modifications != []
    ensures forall i :: 0 <= i < |r.content| && r.content[i].MultiVoiceEntry? ==>
      |r.content[i].multivoice.voices| >= 2
    ensures WellFormed(s) ==> WellFormed(r)
    ensures Measured(s) ==> Measured(r) && forall b :: StaffBeats(r, b) == StaffBeats(s, b)
  {
    var content := s.content;
    var changed := true;
    while changed
      invariant !changed ==> EntriesSimplified(content)
      invariant WellFormed(s) ==> EntriesWellFormed(content)
      invariant Measured(s) ==> EntriesMeasured(content)
      invariant Measured(s) ==> forall b :: EntriesBeats(content, b) == EntriesBeats(s.content, b)
      decreases 2 * EntriesSize(content) + (if changed then 1 else 0)
    {
      content, changed := SimplifyRound(content);
    }
    r := s.(content := content);
    forall i | 0 <= i < |content| && !content[i].DirectionEntry?
      ensures Simp.ItemSimplified(AsItem(content[i]))
    {
    }
  }

  /** One round of the `while content_changed` loop: every phrase and
      multivoice is simplified, then the edits collected are applied (the
      source splices them in from the back, which comes to the same). The
      round reports whether it edited anything. */
  method SimplifyRound(entries: seq<StaffContent>) returns (out: seq<StaffContent>, changed: bool)
    ensures EntriesSize(out) <= EntriesSize(entries)
    ensures changed ==> EntriesSize(out) < EntriesSize(entries)
    ensures !changed ==> EntriesSimplified(out)
    ensures EntriesWellFormed(entries) ==> EntriesWellFormed(out)
    ensures EntriesMeasured(entries) ==> EntriesMeasured(out)
    ensures EntriesMeasured(entries) ==> forall b :: EntriesBeats(out, b) == EntriesBeats(entries, b)
  {
    out := [];
    changed := false;
    var i := 0;
    while i < |entries|
      invariant 0 <= i <= |entries|
      invariant EntriesSize(out) <= EntriesSize(entries[..i])
      invariant changed ==> EntriesSize(out) < EntriesSize(entries[..i])
      invariant !changed ==> EntriesSimplified(out)
      invariant EntriesWellFormed(entries) ==> EntriesWellFormed(out)
      invariant EntriesMeasured(entries) ==> EntriesMeasured(out)
      invariant EntriesMeasured(entries) ==> forall b :: EntriesBeats(out, b) == EntriesBeats(entries[..i], b)
    {
      var e := entries[i];
      EntriesSizeStep(entries, i);
      if EntriesWellFormed(entries) {
        SliceKeeps(entries, i, i + 1);
        assert entries[i..i + 1] == [e];
      }
      var add: seq<StaffContent>;
      var edited: bool;
      add, edited := SimplifyEntry(e);
      EntriesSizeAppend(out, add);
      ConcatKeeps(out, add);
      if EntriesMeasured(entries) {
        forall b ensures EntriesBeats(out + add, b) == EntriesBeats(entries[..i + 1], b) {
          EntriesBeatsStep(entries, i, b);
          EntriesBeatsAppend(out, add, b);
        }
      }
      if !changed && !edited {
        forall j | 0 <= j < |out + add| && !(out + add)[j].DirectionEntry?
          ensures Simp.ItemSimplified(AsItem((out + add)[j]))
        {
          if j >= |out| {
            assert (out + add)[j] == add[j - |out|];
          }
        }
      }
      out := out + add;
      changed := changed || edited;
      i := i + 1;
    }
    assert entries[..i] == entries;
  }

  /** What one entry becomes in a round: a phrase or multivoice goes the
      way `PhraseSimplify` takes the phrase item of the same kind, lifted
      back into staff entries; a note, chord or direction stays. `edited`
      says whether an edit was made. */
  method SimplifyEntry(e: StaffContent) returns (add: seq<StaffContent>, edited: bool)
    ensures EntriesSize(add) <= EntrySize(e)
    ensures edited ==> EntriesSize(add) < EntrySize(e)
    ensures !edited ==> EntriesSimplified(add)
    ensures EntriesWellFormed([e]) ==> EntriesWellFormed(add)
    ensures EntriesMeasured([e]) ==> EntriesMeasured(add)
    ensures EntriesMeasured([e]) ==> forall b :: EntriesBeats(add, b) == EntryBeats(e, b)
  {
    if e.DirectionEntry? {
      add, edited := [e], false;
      assert [e][..0] == [];
    } else {
      var item := AsItem(e);
      var items: seq<Ph.PhraseContent>;
      items, edited := Simp.SimplifyItem(item);
      add := LiftAll(items);
      LiftedSize(items);
      LiftKeeps(items);
      if EntriesWellFormed([e]) {
        assert Ph.ItemWellFormed(AsItem([e][0]));
      }
      if EntriesMeasured([e]) {
        assert Ph.ItemMeasured(AsItem([e][0]));
        forall b ensures EntriesBeats(add, b) == EntryBeats(e, b) {
          LiftedBeats(items, b);
        }
      }
    }
  }
}

/** Notes: a pitch, a duration, an accidental and a set of note
    modifications, with their MIDI number and length in beats. */
module Notes {
  import opened Ints
  import opened Wrappers
  import opened Durations
  import opened Pitches
  import opened Accidentals
  import Keys
  import opened ModSets
  import opened NoteModifications

  /** MIDI number of A4. */
  const MidiNumberA4: I8 := 69

  datatype Note = Note(id: nat, pitch: Pitch, duration: Duration, accidental: Accidental,
                       modifications: seq<NoteModification>)

  /** The modification set is a set: at most one modification per variant,
      kept in variant order. */
  ghost predicate ValidNote(n: Note) {
    Sorted(n.modifications, ModRank)
  }

  /** `Note::new`: no accidental means `Accidental::None`, and there are no
      modifications yet. */
  function NewNote(pitch: Pitch, duration: Duration, accidental: Option<Accidental>, freshId: nat): (n: Note)
    ensures n.id == freshId && n.pitch == pitch && n.duration == duration
    ensures accidental.Some? ==> n.accidental == accidental.value
    ensures accidental.None? ==> n.accidental == Accidental.None
    ensures n.modifications == [] && ValidNote(n)
  {
    Note(freshId, pitch, duration, accidental.UnwrapOr(DefaultAccidental), [])
  }

  /** `Note::from_midi` for MIDI numbers 0 and 255, which stand for a rest. */
  function FromMidiRest(midiNumber: U8, duration: Duration, freshId: nat): (n: Note)
    requires midiNumber == 0 || midiNumber == 255
    ensures IsRest(n.pitch) && n.pitch.octave == 0
    ensures n.duration == duration && n.accidental == Accidental.None && n.modifications == []
  {
    NewNote(NewRest(), duration, Option.None, freshId)
  }

  /** `Note::is_rest`. */
  predicate IsRestNote(n: Note) {
    IsRest(n.pitch)
  }

  /** `Note::is_grace_note`: some modification is a grace note. */
  predicate IsGraceNote(n: Note) {
    exists m :: m in n.modifications && m.kind.Grace?
  }

  /** `Note::semitone_distance`: the pitch's offset from A4 plus the note's own
      accidental, or the key's accidental for the letter when the note has
      none; the `i8` sum wraps. */
  function SemitoneDistance(n: Note, keyAccidentals: seq<Accidental>): (r: I8)
    requires |keyAccidentals| == 8
  {
    var (index, offset) := PitchValue(n.pitch);
    WrapI8(offset + AccidentalValue(if n.accidental == Accidental.None then keyAccidentals[index] else n.accidental))
  }

  /** The key is consulted only when the note has no accidental of its own,
      and then only for the note's letter. */
  lemma {:induction false} KeyOnlyForBareNotes(n: Note, k1: seq<Accidental>, k2: seq<Accidental>)
    requires |k1| == 8 && |k2| == 8
    ensures n.accidental != Accidental.None ==> SemitoneDistance(n, k1) == SemitoneDistance(n, k2)
    ensures k1[NameIndex(n.pitch.name)] == k2[NameIndex(n.pitch.name)] ==>
      SemitoneDistance(n, k1) == SemitoneDistance(n, k2)
    ensures n.accidental == Accidental.None && k1[NameIndex(n.pitch.name)] != Accidental.None ==>
      SemitoneDistance(n, k1) == SemitoneDistance(n.(accidental := k1[NameIndex(n.pitch.name)]), k2)
  {
  }

  /** Below octave 15, no sum wraps: the distance is the exact semitone count
      of the letter and octave plus the accidental that applies. */
  lemma {:induction false} SemitoneDistanceExact(n: Note, keyAccidentals: seq<Accidental>)
    requires |keyAccidentals| == 8 && n.pitch.name != Rest && n.pitch.octave <= 14
    ensures var applied := if n.accidental == Accidental.None then keyAccidentals[NameIndex(n.pitch.name)] else n.accidental;
      SemitoneDistance(n, keyAccidentals) == ExactOffset(n.pitch.name, n.pitch.octave) + AccidentalValue(applied)
  {
    OffsetExact(n.pitch);
  }

  /** `Note::midi_number`: 69 plus the semitone distance under the key (C
      major when none is given); the `i8` sum wraps and is reinterpreted as
      `u8`. */
  function MidiNumber(n: Note, key: Option<Keys.Key>): (r: U8)
    ensures var d := SemitoneDistance(n, Keys.KeyAccidentals(key.UnwrapOr(Keys.DefaultKey)));
      0 <= MidiNumberA4 + d < 256 ==> r == MidiNumberA4 + d
  {
    var d := SemitoneDistance(n, Keys.KeyAccidentals(key.UnwrapOr(Keys.DefaultKey)));
    WrapU8(WrapI8(MidiNumberA4 as int + d))
  }

  /** C major alters no letter. */
  lemma {:induction false} CMajorHasNoAccidentals()
    ensures forall i :: 0 <= i < 8 ==> Keys.KeyAccidentals(Keys.DefaultKey)[i] == Accidental.None
  {
    assert Keys.Fifths(Keys.DefaultKey) == 0;
  }

  /** MIDI numbers of reference notes, in C major: A4 is 69, C4 is 60, a
      sharp C4 is 61, and a flat written on B3 is 58. */
  lemma {:induction false} MidiExamples(freshId: nat)
    ensures MidiNumber(NewNote(Pitch(A, 4), DefaultDuration, Option.None, freshId), Option.None) == 69
    ensures MidiNumber(NewNote(Pitch(C, 4), DefaultDuration, Option.None, freshId), Option.None) == 60
    ensures MidiNumber(NewNote(Pitch(C, 4), DefaultDuration, Some(Sharp), freshId), Option.None) == 61
    ensures MidiNumber(NewNote(Pitch(B, 3), DefaultDuration, Some(Flat), freshId), Option.None) == 58
  {
    CMajorHasNoAccidentals();
  }

  /** In a key with sharps, a bare F takes the key's sharp, a natural F does not. */
  lemma {:induction false} KeySharpApplies(freshId: nat)
    ensures MidiNumber(NewNote(Pitch(F, 4), DefaultDuration, Option.None, freshId), Some(Keys.Key(Keys.Major, Keys.G))) == 66
    ensures MidiNumber(NewNote(Pitch(F, 4), DefaultDuration, Some(Natural), freshId), Some(Keys.Key(Keys.Major, Keys.G))) == 65
  {
    assert Keys.Fifths(Keys.Key(Keys.Major, Keys.G)) == 1;
    assert Keys.KeyAccidentals(Keys.Key(Keys.Major, Keys.G))[NameIndex(F)] == Sharp;
  }

  /** `Note::beats`: 0 for a grace note, otherwise the duration counted in
      beats of the given value. */
  function NoteBeats(n: Note, baseBeatValue: real): (r: real)
    requires baseBeatValue > 0.0
    ensures IsGraceNote(n) ==> r == 0.0
    ensures !IsGraceNote(n) ==> r * baseBeatValue == Value(n.duration) && r > 0.0
  {
    if IsGraceNote(n) then 0.0
    else
      ValueBounds(n.duration);
      Beats(n.duration, baseBeatValue)
  }

  /** `Note::get_beats`: the beats at the beat base's value, scaled by the
      tuplet ratio (1 when there is none). */
  function GetBeats(n: Note, beatBase: Duration, tupletRatio: Option<real>): (r: real)
    ensures IsGraceNote(n) ==> r == 0.0
    ensures tupletRatio.None? ==> r == NoteBeats(n, BaseValue(beatBase))
  {
    match tupletRatio
    case None => NoteBeats(n, BaseValue(beatBase))
    case Some(ratio) => NoteBeats(n, BaseValue(beatBase)) * ratio
  }

  /** The value of a beat base, which is always positive. */
  function BaseValue(d: Duration): (r: real)
    ensures r == Value(d) && r > 0.0
  {
    ValueBounds(d);
    Value(d)
  }

  /** `Note::add_modification`: the new modification, under a fresh id,
      replaces any of the same variant; the id is returned with the note. */
  function AddModification(n: Note, kind: NoteModificationType, freshId: nat): (r: (Note, nat))
    requires ValidNote(n)
    ensures ValidNote(r.0) && r.1 == freshId
    ensures r.0 == n.(modifications := r.0.modifications)
    ensures NoteModification(freshId, kind) in r.0.modifications
    ensures forall m :: m in r.0.modifications && Rank(m.kind) == Rank(kind) ==> m == NoteModification(freshId, kind)
    ensures forall m :: m in n.modifications && Rank(m.kind) != Rank(kind) ==> m in r.0.modifications
    ensures forall m :: m in r.0.modifications ==> m in n.modifications || m == NoteModification(freshId, kind)
  {
    var m := NewNoteModification(kind, freshId);
    (n.(modifications := Replace(n.modifications, m, ModRank)), freshId)
  }

  /** The test that keeps every modification with another id. */
  function OtherModId(id: nat): NoteModification -> bool {
    (m: NoteModification) => m.id != id
  }

  /** `Note::remove_modification`: drops the modifications with that id and
      keeps the others. */
  function RemoveModification(n: Note, id: nat): (r: Note)
    requires ValidNote(n)
    ensures ValidNote(r)
    ensures r == n.(modifications := r.modifications)
    ensures forall m :: m in r.modifications <==> m in n.modifications && m.id != id
  {
    var keep := OtherModId(id);
    FilterSorted(n.modifications, keep, ModRank);
    n.(modifications := Filter(n.modifications, keep))
  }

  /** Adding a modification and then removing it by the returned id leaves
      the modifications of other variants as they were. */
  lemma {:induction false} AddThenRemove(n: Note, kind: NoteModificationType, freshId: nat)
    requires ValidNote(n)
    requires forall m :: m in n.modifications ==> m.id != freshId
    ensures var (added, id) := AddModification(n, kind, freshId);
      forall m :: m in RemoveModification(added, id).modifications <==> m in n.modifications && Rank(m.kind) != Rank(kind)
  {
    var (added, id) := AddModification(n, kind, freshId);
    var removed := RemoveModification(added, id);
    forall m ensures m in removed.modifications <==> m in n.modifications && Rank(m.kind) != Rank(kind) {
      if m in n.modifications && Rank(m.kind) != Rank(kind) {
        assert m in added.modifications;
      }
    }
  }

  /** The types of a modification set, in order: what `BTreeSet` equality
      compares, since modification equality ignores ids. */
  function Kinds(s: seq<NoteModification>): (r: seq<NoteModificationType>)
    ensures |r| == |s| && forall i :: 0 <= i < |s| ==> r[i] == s[i].kind
  {
    if s == [] then [] else [s[0].kind] + Kinds(s[1..])
  }

  /** `PartialEq for Note`: the same semitone distance in C major, the same
      beats at a quarter-note base, and the same modification types; ids,
      and the spelling of the pitch, are not compared. */
  predicate SameNote(a: Note, b: Note) {
    var cMajor := Keys.KeyAccidentals(Keys.DefaultKey);
    SemitoneDistance(a, cMajor) == SemitoneDistance(b, cMajor)
    && NoteBeats(a, Value(DefaultDuration)) == NoteBeats(b, Value(DefaultDuration))
    && Kinds(a.modifications) == Kinds(b.modifications)
  }

  /** Enharmonic spellings are equal notes: a sharp C4 equals a flat D4. */
  lemma {:induction false} EnharmonicNotesEqual(id1: nat, id2: nat)
    ensures SameNote(NewNote(Pitch(C, 4), DefaultDuration, Some(Sharp), id1),
                     NewNote(Pitch(D, 4), DefaultDuration, Some(Flat), id2))
  {
  }

  /** Clones of the modifications in order, each under its fresh id. */
  function CloneModifications(s: seq<NoteModification>, freshIds: seq<nat>): (r: seq<NoteModification>)
    requires |freshIds| == |s|
    ensures |r| == |s|
    ensures forall i :: 0 <= i < |s| ==> r[i].kind == s[i].kind && r[i].id == freshIds[i]
  {
    if s == [] then [] else [CloneModification(s[0], freshIds[0])] + CloneModifications(s[1..], freshIds[1..])
  }

  /** Cloning keeps the types in order, hence set validity. */
  lemma {:induction false} CloneKeepsKinds(s: seq<NoteModification>, freshIds: seq<nat>)
    requires |freshIds| == |s|
    ensures Kinds(CloneModifications(s, freshIds)) == Kinds(s)
    ensures Sorted(s, ModRank) ==> Sorted(CloneModifications(s, freshIds), ModRank)
  {
    var r := CloneModifications(s, freshIds);
    assert forall i :: 0 <= i < |s| ==> ModRank(r[i]) == ModRank(s[i]);
  }

  /** A clone is a grace note exactly when the original is. */
  lemma {:induction false} CloneKeepsGrace(n: Note, c: Note, freshIds: seq<nat>)
    requires |freshIds| == |n.modifications| && c.modifications == CloneModifications(n.modifications, freshIds)
    ensures IsGraceNote(c) <==> IsGraceNote(n)
  {
    if IsGraceNote(n) {
      var m :| m in n.modifications && m.kind.Grace?;
      var i :| 0 <= i < |n.modifications| && n.modifications[i] == m;
      assert c.modifications[i] in c.modifications;
    }
    if IsGraceNote(c) {
      var m :| m in c.modifications && m.kind.Grace?;
      var i :| 0 <= i < |c.modifications| && c.modifications[i] == m;
      assert n.modifications[i] in n.modifications;
    }
  }

  /** Notes alike in everything but ids are equal. */
  lemma {:induction false} SameParts(a: Note, b: Note)
    requires a.pitch == b.pitch && a.duration == b.duration && a.accidental == b.accidental
    requires Kinds(a.modifications) == Kinds(b.modifications) && (IsGraceNote(a) <==> IsGraceNote(b))
    ensures SameNote(a, b)
  {
    var cMajor := Keys.KeyAccidentals(Keys.DefaultKey);
    assert SemitoneDistance(a, cMajor) == SemitoneDistance(b, cMajor);
  }

  /** `Clone for Note`: a fresh id for the note and for each of its
      modifications (cloning the set clones every element). */
  function CloneNote(n: Note, freshId: nat, freshModIds: seq<nat>): (c: Note)
    requires |freshModIds| == |n.modifications|
    ensures SameNote(c, n)
    ensures c.id == freshId && c.pitch == n.pitch && c.duration == n.duration && c.accidental == n.accidental
    ensures |c.modifications| == |n.modifications|
    ensures Kinds(c.modifications) == Kinds(n.modifications)
    ensures forall i :: 0 <= i < |c.modifications| ==> c.modifications[i].id == freshModIds[i]
    ensures ValidNote(n) ==> ValidNote(c)
  {
    var c := Note(freshId, n.pitch, n.duration, n.accidental, CloneModifications(n.modifications, freshModIds));
    CloneKeepsKinds(n.modifications, freshModIds);
    CloneKeepsGrace(n, c, freshModIds);
    SameParts(c, n);
    c
  }
}

/** A note edited in place, as the `&mut self` methods of `Note` do; each
    method is the matching `Notes` function applied to the note's value. */
module NotePlaces {
  import opened Durations
  import opened Pitches
  import opened Accidentals
  import opened NoteModifications
  import ModSets
  import Notes

  class NotePlace {
    var id: nat
    var pitch: Pitch
    var duration: Duration
    var accidental: Accidental
    var modifications: seq<NoteModification>

    /** The note these fields hold. */
    function Value(): Notes.Note
      reads this
    {
      Notes.Note(id, pitch, duration, accidental, modifications)
    }

    constructor (n: Notes.Note)
      ensures Value() == n
    {
      id, pitch, duration, accidental, modifications := n.id, n.pitch, n.duration, n.accidental, n.modifications;
    }

    /** `Note::add_modification`: `replace` in the set, then the id. */
    method AddModification(kind: NoteModificationType, freshId: nat) returns (modId: nat)
      requires Notes.ValidNote(Value())
      modifies this
      ensures (Value(), modId) == Notes.AddModification(old(Value()), kind, freshId)
    {
      modifications := ModSets.Replace(modifications, NewNoteModification(kind, freshId), ModRank);
      modId := freshId;
    }

    /** `Note::remove_modification`: `retain` over the set. */
    method RemoveModification(modId: nat)
      requires Notes.ValidNote(Value())
      modifies this
      ensures Value() == Notes.RemoveModification(old(Value()), modId)
    {
      modifications := ModSets.Retain(modifications, Notes.OtherModId(modId));
    }
  }
}

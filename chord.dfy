/** Chords: notes that start together, with modifications that apply to the
    chord as a whole. */
module Chords {
  import opened Wrappers
  import opened Durations
  import opened Pitches
  import opened Accidentals
  import opened ModSets
  import opened Notes
  import N = NoteModifications
  import C = ChordModifications
  import MC = ModConversion
  import opened Timeslices

  /** The only kind of chord content is a note, so the content is kept as
      the notes themselves. */
  datatype Chord = Chord(id: nat, content: seq<Note>, modifications: seq<C.ChordModification>)

  /** The chord's modifications form a set and each of its notes is valid. */
  ghost predicate ValidChord(c: Chord) {
    Sorted(c.modifications, C.ModRank) && forall n :: n in c.content ==> ValidNote(n)
  }

  /** The test `add_note` and `claim_note` use to find a note they replace:
      the same pitch, duration and accidental. */
  predicate Alike(a: Note, b: Note) {
    a.pitch == b.pitch && a.duration == b.duration && a.accidental == b.accidental
  }

  /** No two notes of the chord are alike. */
  predicate DistinctNotes(notes: seq<Note>) {
    forall i, j :: 0 <= i < j < |notes| ==> !Alike(notes[i], notes[j])
  }

  /** `Chord::new`: no notes and no modifications. */
  function NewChord(freshId: nat): (c: Chord)
    ensures c.id == freshId && c.content == [] && c.modifications == []
    ensures ValidChord(c) && DistinctNotes(c.content)
  {
    Chord(freshId, [], [])
  }

  /** Keeping part of a list of distinct notes keeps them distinct. */
  lemma {:induction false} FilterDistinct(s: seq<Note>, keep: Note -> bool)
    ensures DistinctNotes(s) ==> DistinctNotes(Filter(s, keep))
    decreases |s|
  {
    if s != [] && DistinctNotes(s) {
      FilterDistinct(s[1..], keep);
      var tail := Filter(s[1..], keep);
      if keep(s[0]) {
        forall y | y in tail ensures !Alike(s[0], y) {
          var j :| 0 <= j < |s[1..]| && s[1..][j] == y;
          assert s[j + 1] == y;
        }
        DistinctCons(s[0], tail);
      }
    }
  }

  lemma {:induction false} DistinctCons(x: Note, s: seq<Note>)
    requires DistinctNotes(s) && forall y :: y in s ==> !Alike(x, y)
    ensures DistinctNotes([x] + s)
  {
    var r := [x] + s;
    forall i, j | 0 <= i < j < |r| ensures !Alike(r[i], r[j]) {
      assert r[j] == s[j - 1];
      if i > 0 {
        assert r[i] == s[i - 1];
      } else {
        assert r[j] in s;
      }
    }
  }

  lemma {:induction false} DistinctSnoc(s: seq<Note>, x: Note)
    requires forall y :: y in s ==> !Alike(y, x)
    ensures DistinctNotes(s) ==> DistinctNotes(s + [x])
  {
    var r := s + [x];
    if !DistinctNotes(s) {
      return;
    }
    forall i, j | 0 <= i < j < |r| ensures !Alike(r[i], r[j]) {
      assert r[i] == s[i];
      if j < |s| {
        assert r[j] == s[j];
      } else {
        assert r[i] in s;
      }
    }
  }

  /** The test that keeps every note not alike `note`. */
  function NotAlike(note: Note): Note -> bool {
    (n: Note) => !Alike(n, note)
  }

  /** `Chord::claim_note`: every note alike the claimed one is removed and the
      note is appended, so it is last and no two notes are alike. */
  function ClaimNote(c: Chord, note: Note): (r: Chord)
    ensures r.id == c.id && r.modifications == c.modifications
    ensures |r.content| > 0 && r.content[|r.content| - 1] == note
    ensures forall n :: n in r.content <==> n == note || (n in c.content && !Alike(n, note))
    ensures |r.content| <= |c.content| + 1
    ensures DistinctNotes(c.content) ==> DistinctNotes(r.content)
    ensures ValidChord(c) && ValidNote(note) ==> ValidChord(r)
    ensures r.content == Filter(c.content, NotAlike(note)) + [note]
  {
    var keep := NotAlike(note);
    var kept := Filter(c.content, keep);
    FilterDistinct(c.content, keep);
    DistinctSnoc(kept, note);
    c.(content := kept + [note])
  }

  /** Claiming the same note twice leaves the chord as claiming it once. */
  lemma {:induction false} ClaimNoteIdempotent(c: Chord, note: Note)
    ensures ClaimNote(ClaimNote(c, note), note) == ClaimNote(c, note)
  {
    var keep := NotAlike(note);
    var kept := Filter(c.content, keep);
    FilterSnoc(kept, note, keep);
    FilterAllKept(kept, keep);
  }

  /** `Chord::add_note`: removes the notes with this pitch, duration and
      accidental (none standing for `Accidental::None`), then appends a new
      note; this is claiming the new note. */
  function AddNote(c: Chord, pitch: Pitch, duration: Duration, accidental: Option<Accidental>, freshId: nat): (r: Chord)
    ensures r == ClaimNote(c, NewNote(pitch, duration, accidental, freshId))
    ensures r.content[|r.content| - 1].id == freshId && r.content[|r.content| - 1].modifications == []
  {
    var acc := accidental.UnwrapOr(DefaultAccidental);
    var keep := (n: Note) => n.pitch != pitch || n.duration != duration || n.accidental != acc;
    var note := NewNote(pitch, duration, accidental, freshId);
    FilterSameTest(c.content, keep, NotAlike(note));
    c.(content := Filter(c.content, keep) + [note])
  }

  /** `Chord::add_modification`: the new modification, under a fresh id,
      replaces any of the same variant; the id is returned with the chord. */
  function AddModification(c: Chord, kind: C.ChordModificationType, freshId: nat): (r: (Chord, nat))
    requires ValidChord(c)
    ensures ValidChord(r.0) && r.1 == freshId
    ensures r.0 == c.(modifications := r.0.modifications)
    ensures C.ChordModification(freshId, kind) in r.0.modifications
    ensures forall m :: m in r.0.modifications && C.Rank(m.kind) == C.Rank(kind) ==> m == C.ChordModification(freshId, kind)
    ensures forall m :: m in r.0.modifications <==>
      m == C.ChordModification(freshId, kind) || (m in c.modifications && C.Rank(m.kind) != C.Rank(kind))
  {
    var m := C.NewChordModification(kind, freshId);
    (c.(modifications := Replace(c.modifications, m, C.ModRank)), freshId)
  }

  /** The test that keeps every note with another id. */
  function OtherNoteId(id: nat): Note -> bool {
    (n: Note) => n.id != id
  }

  /** The test that keeps every chord modification with another id. */
  function OtherChordModId(id: nat): C.ChordModification -> bool {
    (m: C.ChordModification) => m.id != id
  }

  /** `Chord::remove_item`: drops the notes with that id and keeps the rest. */
  function RemoveItem(c: Chord, id: nat): (r: Chord)
    ensures r.id == c.id && r.modifications == c.modifications
    ensures forall n :: n in r.content <==> n in c.content && n.id != id
    ensures r.content == Filter(c.content, OtherNoteId(id))
    ensures DistinctNotes(c.content) ==> DistinctNotes(r.content)
    ensures ValidChord(c) ==> ValidChord(r)
  {
    var keep := OtherNoteId(id);
    FilterDistinct(c.content, keep);
    c.(content := Filter(c.content, keep))
  }

  /** Each note with the modification of that id removed. */
  function RemoveFromNotes(notes: seq<Note>, id: nat): (r: seq<Note>)
    requires forall n :: n in notes ==> ValidNote(n)
    ensures |r| == |notes|
    ensures forall n :: n in r ==> ValidNote(n)
    ensures forall i :: 0 <= i < |notes| ==> r[i] == notes[i].(modifications := r[i].modifications)
    ensures forall i, m :: 0 <= i < |notes| ==>
      (m in r[i].modifications <==> m in notes[i].modifications && m.id != id)
  {
    if notes == [] then []
    else [Notes.RemoveModification(notes[0], id)] + RemoveFromNotes(notes[1..], id)
  }

  /** Each note of the result is its note with the modification removed. */
  lemma {:induction false} RemoveFromNotesAt(notes: seq<Note>, id: nat)
    requires forall n :: n in notes ==> ValidNote(n)
    ensures forall i :: 0 <= i < |notes| ==> RemoveFromNotes(notes, id)[i] == Notes.RemoveModification(notes[i], id)
    decreases |notes|
  {
    if notes != [] {
      RemoveFromNotesAt(notes[1..], id);
      forall i | 0 < i < |notes| ensures RemoveFromNotes(notes, id)[i] == Notes.RemoveModification(notes[i], id) {
        assert notes[1..][i - 1] == notes[i];
      }
    }
  }

  /** `Chord::remove_modification`: the id leaves the chord's set and the
      set of every note. */
  function RemoveModification(c: Chord, id: nat): (r: Chord)
    requires ValidChord(c)
    ensures ValidChord(r) && r.id == c.id && |r.content| == |c.content|
    ensures forall m :: m in r.modifications <==> m in c.modifications && m.id != id
    ensures forall i :: 0 <= i < |c.content| ==> r.content[i] == c.content[i].(modifications := r.content[i].modifications)
    ensures forall i, m :: 0 <= i < |c.content| ==>
      (m in r.content[i].modifications <==> m in c.content[i].modifications && m.id != id)
  {
    var keep := OtherChordModId(id);
    FilterSorted(c.modifications, keep, C.ModRank);
    Chord(c.id, RemoveFromNotes(c.content, id), Filter(c.modifications, keep))
  }

  /** Removing a modification id that occurs nowhere in the notes leaves
      them as they were. */
  lemma {:induction false} RemoveFromNotesAbsent(notes: seq<Note>, id: nat)
    requires forall n :: n in notes ==> ValidNote(n)
    requires forall i, m :: 0 <= i < |notes| && m in notes[i].modifications ==> m.id != id
    ensures RemoveFromNotes(notes, id) == notes
    decreases |notes|
  {
    if notes != [] {
      FilterAllKept(notes[0].modifications, Notes.OtherModId(id));
      forall i, m | 0 <= i < |notes[1..]| && m in notes[1..][i].modifications ensures m.id != id {
        assert notes[1..][i] == notes[i + 1];
      }
      RemoveFromNotesAbsent(notes[1..], id);
      assert notes == [notes[0]] + notes[1..];
    }
  }

  /** Removing a modification id the chord does not hold anywhere changes
      nothing. */
  lemma {:induction false} RemoveModificationAbsent(c: Chord, id: nat)
    requires ValidChord(c)
    requires forall m :: m in c.modifications ==> m.id != id
    requires forall i, m :: 0 <= i < |c.content| && m in c.content[i].modifications ==> m.id != id
    ensures RemoveModification(c, id) == c
  {
    FilterAllKept(c.modifications, OtherChordModId(id));
    RemoveFromNotesAbsent(c.content, id);
  }

  /** `Chord::get_beats`: the least of the notes' beats, or 0 for a chord
      without notes; grace notes take part with their 0 beats. */
  function ChordBeats(c: Chord, beatBase: Duration, tupletRatio: Option<real>): (r: real)
    ensures c.content == [] ==> r == 0.0
    ensures forall i :: 0 <= i < |c.content| ==> r <= GetBeats(c.content[i], beatBase, tupletRatio)
    ensures c.content != [] ==> exists i :: 0 <= i < |c.content| && r == GetBeats(c.content[i], beatBase, tupletRatio)
  {
    if c.content == [] then 0.0 else LeastBeats(c.content, beatBase, tupletRatio)
  }

  /** `reduce(f64::min)` over the notes' beats, folding from the left. */
  function LeastBeats(notes: seq<Note>, beatBase: Duration, tupletRatio: Option<real>): (r: real)
    requires notes != []
    ensures forall i :: 0 <= i < |notes| ==> r <= GetBeats(notes[i], beatBase, tupletRatio)
    ensures exists i :: 0 <= i < |notes| && r == GetBeats(notes[i], beatBase, tupletRatio)
    decreases |notes|
  {
    var last := GetBeats(notes[|notes| - 1], beatBase, tupletRatio);
    if |notes| == 1 then last
    else
      var front := notes[..|notes| - 1];
      var m := LeastBeats(front, beatBase, tupletRatio);
      assert forall i :: 0 <= i < |notes| - 1 ==> notes[i] == front[i];
      if last < m then last else m
  }

  /** The modification types of a chord modification set, in order. */
  function ChordKinds(s: seq<C.ChordModification>): (r: seq<C.ChordModificationType>)
    ensures |r| == |s| && forall i :: 0 <= i < |s| ==> r[i] == s[i].kind
  {
    if s == [] then [] else [s[0].kind] + ChordKinds(s[1..])
  }

  /** `PartialEq for Chord`: equal notes position by position and equal
      modification types; the chord's id is not compared. */
  predicate SameChord(a: Chord, b: Chord) {
    |a.content| == |b.content|
    && (forall i :: 0 <= i < |a.content| ==> SameNote(a.content[i], b.content[i]))
    && ChordKinds(a.modifications) == ChordKinds(b.modifications)
  }

  /** Clones of the chord's modifications in order, each under its fresh id. */
  function CloneModifications(s: seq<C.ChordModification>, freshIds: seq<nat>): (r: seq<C.ChordModification>)
    requires |freshIds| == |s|
    ensures ChordKinds(r) == ChordKinds(s)
    ensures forall i :: 0 <= i < |s| ==> r[i].id == freshIds[i]
    ensures Sorted(s, C.ModRank) ==> Sorted(r, C.ModRank)
  {
    var r := seq(|s|, i requires 0 <= i < |s| => C.CloneModification(s[i], freshIds[i]));
    assert forall i :: 0 <= i < |s| ==> C.ModRank(r[i]) == C.ModRank(s[i]);
    r
  }

  /** Clones of the notes in order, each under its fresh ids. */
  function CloneNotes(notes: seq<Note>, noteIds: seq<nat>, noteModIds: seq<seq<nat>>): (r: seq<Note>)
    requires |noteIds| == |notes| && |noteModIds| == |notes|
    requires forall i :: 0 <= i < |notes| ==> |noteModIds[i]| == |notes[i].modifications|
    ensures |r| == |notes|
    ensures forall i :: 0 <= i < |notes| ==> SameNote(r[i], notes[i]) && r[i].id == noteIds[i]
    ensures (forall n :: n in notes ==> ValidNote(n)) ==> forall n :: n in r ==> ValidNote(n)
  {
    seq(|notes|, i requires 0 <= i < |notes| && |noteModIds[i]| == |notes[i].modifications| =>
      CloneNote(notes[i], noteIds[i], noteModIds[i]))
  }

  /** `Clone for Chord`: fresh ids for the chord, for each note and each
      modification; the clone equals the original. */
  function CloneChord(c: Chord, freshId: nat, noteIds: seq<nat>, noteModIds: seq<seq<nat>>, modIds: seq<nat>): (r: Chord)
    requires |noteIds| == |c.content| && |noteModIds| == |c.content| && |modIds| == |c.modifications|
    requires forall i :: 0 <= i < |c.content| ==> |noteModIds[i]| == |c.content[i].modifications|
    ensures SameChord(r, c) && r.id == freshId
    ensures ValidChord(c) ==> ValidChord(r)
  {
    Chord(freshId, CloneNotes(c.content, noteIds, noteModIds), CloneModifications(c.modifications, modIds))
  }

  /** The note modification types the chord's modifications carry over to
      each note, in the chord's order (`filter_map` of
      `from_chord_modification`). */
  function TransferableKinds(mods: seq<C.ChordModification>): (r: seq<N.NoteModificationType>)
    ensures forall k :: k in r <==> exists m :: m in mods && MC.NoteTypeOf(m.kind) == Some(k)
  {
    if mods == [] then []
    else
      var rest := TransferableKinds(mods[1..]);
      assert forall m :: m in mods ==> m == mods[0] || m in mods[1..];
      match MC.NoteTypeOf(mods[0].kind)
      case Some(k) => [k] + rest
      case None => rest
  }

  /** Some modification of the set has the rank of type `k`. */
  predicate HoldsRankOf(mods: seq<N.NoteModification>, k: N.NoteModificationType) {
    exists m :: m in mods && N.Rank(m.kind) == N.Rank(k)
  }

  /** `add_modification` of each type in turn, drawing ids from `next` on:
      every type's variant is then present, each modification is either one
      of the added types or an old one whose variant none of them has, and
      those old ones are all kept. */
  function AddKinds(n: Note, kinds: seq<N.NoteModificationType>, next: nat): (r: (Note, nat))
    requires ValidNote(n)
    ensures ValidNote(r.0) && r.1 == next + |kinds|
    ensures r.0 == n.(modifications := r.0.modifications)
    ensures forall k :: k in kinds ==> HoldsRankOf(r.0.modifications, k)
    ensures forall m :: m in r.0.modifications ==>
      m.kind in kinds || (m in n.modifications && forall k :: k in kinds ==> N.Rank(k) != N.Rank(m.kind))
    ensures forall m :: m in n.modifications && (forall k :: k in kinds ==> N.Rank(k) != N.Rank(m.kind)) ==>
      m in r.0.modifications
    decreases |kinds|
  {
    if kinds == [] then (n, next)
    else
      var (n1, _) := Notes.AddModification(n, kinds[0], next);
      var r := AddKinds(n1, kinds[1..], next + 1);
      assert forall k :: k in kinds ==> k == kinds[0] || k in kinds[1..];
      KeptRank(n1.modifications, N.NoteModification(next, kinds[0]), kinds[1..], r.0.modifications);
      r
  }

  /** The type `kinds[i]` is present itself, not just its variant, when no
      later type of the list shares its variant: the latest addition of a
      variant wins. */
  predicate LastOfRank(kinds: seq<N.NoteModificationType>, i: nat)
    requires i < |kinds|
  {
    forall j :: i < j < |kinds| ==> N.Rank(kinds[j]) != N.Rank(kinds[i])
  }

  lemma {:induction false} AddKindsLatestWins(n: Note, kinds: seq<N.NoteModificationType>, next: nat, i: nat)
    requires ValidNote(n) && i < |kinds| && LastOfRank(kinds, i)
    ensures exists m :: m in AddKinds(n, kinds, next).0.modifications && m.kind == kinds[i]
    decreases |kinds|
  {
    if i == 0 {
      FirstOfRankWins(n, kinds, next);
    } else {
      var n1 := Notes.AddModification(n, kinds[0], next).0;
      LastOfRankTail(kinds, i);
      AddKindsLatestWins(n1, kinds[1..], next + 1, i - 1);
      var mods := AddKinds(n1, kinds[1..], next + 1).0.modifications;
      var m :| m in mods && m.kind == kinds[1..][i - 1];
      assert kinds[1..][i - 1] == kinds[i];
      AddKindsStep(n, kinds, next);
      assert m in AddKinds(n, kinds, next).0.modifications;
    }
  }

  /** Adding a list of types is adding the first, then the rest. */
  lemma AddKindsStep(n: Note, kinds: seq<N.NoteModificationType>, next: nat)
    requires ValidNote(n) && 0 < |kinds|
    ensures AddKinds(n, kinds, next) == AddKinds(Notes.AddModification(n, kinds[0], next).0, kinds[1..], next + 1)
  {
  }

  /** The first type is present at the end when no later type shares its variant. */
  lemma FirstOfRankWins(n: Note, kinds: seq<N.NoteModificationType>, next: nat)
    requires ValidNote(n) && 0 < |kinds| && LastOfRank(kinds, 0)
    ensures exists m :: m in AddKinds(n, kinds, next).0.modifications && m.kind == kinds[0]
  {
    var n1 := Notes.AddModification(n, kinds[0], next).0;
    var m0 := N.NoteModification(next, kinds[0]);
    assert m0 in n1.modifications;
    LaterRanksDiffer(kinds);
    FirstKindKept(n1, m0, kinds[1..], next + 1);
    AddKindsStep(n, kinds, next);
    assert m0 in AddKinds(n, kinds, next).0.modifications;
  }

  /** No later type shares the first one's variant. */
  lemma {:induction false} LaterRanksDiffer(kinds: seq<N.NoteModificationType>)
    requires 0 < |kinds| && LastOfRank(kinds, 0)
    ensures forall k :: k in kinds[1..] ==> N.Rank(k) != N.Rank(kinds[0])
  {
    forall k | k in kinds[1..] ensures N.Rank(k) != N.Rank(kinds[0]) {
      var j :| 0 <= j < |kinds[1..]| && kinds[1..][j] == k;
      assert kinds[j + 1] == k;
    }
  }

  /** Being the last of its variant carries over to the tail. */
  lemma {:induction false} LastOfRankTail(kinds: seq<N.NoteModificationType>, i: nat)
    requires 0 < i < |kinds| && LastOfRank(kinds, i)
    ensures LastOfRank(kinds[1..], i - 1)
  {
    forall j | i - 1 < j < |kinds[1..]| ensures N.Rank(kinds[1..][j]) != N.Rank(kinds[1..][i - 1]) {
      assert kinds[1..][j] == kinds[j + 1];
    }
  }

  /** A modification whose variant no later type has survives the later additions. */
  lemma {:induction false} FirstKindKept(n1: Note, m0: N.NoteModification, rest: seq<N.NoteModificationType>, next: nat)
    requires ValidNote(n1) && m0 in n1.modifications
    requires forall k :: k in rest ==> N.Rank(k) != N.Rank(m0.kind)
    ensures m0 in AddKinds(n1, rest, next).0.modifications
  {
  }

  /** A modification present before the later additions leaves its variant
      present after them: either it stays or a later one of its variant
      took its place. */
  lemma {:induction false} KeptRank(before: seq<N.NoteModification>, m0: N.NoteModification,
                                   later: seq<N.NoteModificationType>, after: seq<N.NoteModification>)
    requires m0 in before
    requires forall k :: k in later ==> HoldsRankOf(after, k)
    requires forall m :: m in before && (forall k :: k in later ==> N.Rank(k) != N.Rank(m.kind)) ==> m in after
    ensures HoldsRankOf(after, m0.kind)
  {
    if forall k :: k in later ==> N.Rank(k) != N.Rank(m0.kind) {
      assert m0 in after;
    } else {
      var k :| k in later && N.Rank(k) == N.Rank(m0.kind);
      assert HoldsRankOf(after, k);
    }
  }

  /** Consecutive ids from `start`. */
  function IdsFrom(start: nat, count: nat): (r: seq<nat>)
    ensures |r| == count && forall i :: 0 <= i < count ==> r[i] == start + i
  {
    seq(count, i requires 0 <= i < count => start + i)
  }

  /** What `to_timeslice` makes of one note of a chord: a clone carrying
      the chord's transferable modifications, with fresh ids for the note
      and every one of its modifications. */
  ghost predicate CarriesOver(orig: Note, c: TimesliceContent, kinds: seq<N.NoteModificationType>) {
    c.phraseDetails == [] && Alike(c.note, orig) && ValidNote(c.note) && ModsCarried(orig.modifications, c.note.modifications, kinds)
  }

  /** Every transferred variant is present, and the last transferred type of
      each variant is present itself; every modification is one of the
      transferred types or one the note had; the note's own modifications of
      other variants stay. */
  ghost predicate ModsCarried(orig: seq<N.NoteModification>, mods: seq<N.NoteModification>, kinds: seq<N.NoteModificationType>) {
    (forall k :: k in kinds ==> HoldsRankOf(mods, k))
    && (forall i :: 0 <= i < |kinds| && LastOfRank(kinds, i) ==> exists m :: m in mods && m.kind == kinds[i])
    && (forall m :: m in mods ==> m.kind in kinds || m.kind in Kinds(orig))
    && (forall m :: m in orig && (forall k :: k in kinds ==> N.Rank(k) != N.Rank(m.kind)) ==>
          exists m' :: m' in mods && m'.kind == m.kind)
  }

  /** One note of the chord, cloned and given the chord's transferable
      modifications. */
  function ChordNote(orig: Note, kinds: seq<N.NoteModificationType>, next: nat): (r: (Note, nat))
    requires ValidNote(orig)
    ensures CarriesOver(orig, NewContent(r.0), kinds) && r.1 > next
  {
    var k := |orig.modifications|;
    var c := CloneNote(orig, next, IdsFrom(next + 1, k));
    var r := AddKinds(c, kinds, next + 1 + k);
    forall i | 0 <= i < |kinds| && LastOfRank(kinds, i)
      ensures exists m :: m in r.0.modifications && m.kind == kinds[i]
    {
      AddKindsLatestWins(c, kinds, next + 1 + k, i);
    }
    CloneThenAdd(orig.modifications, c.modifications, r.0.modifications, kinds);
    r
  }

  /** The modification sets of a clone to which `kinds` were added carry
      the original's over. */
  lemma {:induction false} CloneThenAdd(orig: seq<N.NoteModification>, cloned: seq<N.NoteModification>,
                                       added: seq<N.NoteModification>, kinds: seq<N.NoteModificationType>)
    requires Kinds(cloned) == Kinds(orig)
    requires forall k :: k in kinds ==> HoldsRankOf(added, k)
    requires forall i :: 0 <= i < |kinds| && LastOfRank(kinds, i) ==> exists m :: m in added && m.kind == kinds[i]
    requires forall m :: m in added ==>
      m.kind in kinds || (m in cloned && forall k :: k in kinds ==> N.Rank(k) != N.Rank(m.kind))
    requires forall m :: m in cloned && (forall k :: k in kinds ==> N.Rank(k) != N.Rank(m.kind)) ==> m in added
    ensures ModsCarried(orig, added, kinds)
  {
    forall m | m in cloned ensures m.kind in Kinds(orig) {
      var i :| 0 <= i < |cloned| && cloned[i] == m;
      assert Kinds(cloned)[i] == m.kind;
    }
    forall m | m in orig && (forall k :: k in kinds ==> N.Rank(k) != N.Rank(m.kind))
      ensures exists m' :: m' in added && m'.kind == m.kind
    {
      var i :| 0 <= i < |orig| && orig[i] == m;
      assert Kinds(orig)[i] == cloned[i].kind;
      assert cloned[i] in cloned;
    }
  }

  /** The slice contents made from the notes, in order, by `ChordNote`. */
  function ChordContents(notes: seq<Note>, kinds: seq<N.NoteModificationType>, next: nat): (r: (seq<TimesliceContent>, nat))
    requires forall n :: n in notes ==> ValidNote(n)
    ensures |r.0| == |notes| && r.1 >= next
    ensures forall i :: 0 <= i < |notes| ==> CarriesOver(notes[i], r.0[i], kinds)
    decreases |notes|
  {
    if notes == [] then ([], next)
    else
      var (n, next1) := ChordNote(notes[0], kinds, next);
      var rest := ChordContents(notes[1..], kinds, next1);
      CarriesOverCons(notes, NewContent(n), rest.0, kinds);
      ([NewContent(n)] + rest.0, rest.1)
  }

  lemma {:induction false} CarriesOverCons(notes: seq<Note>, head: TimesliceContent, rest: seq<TimesliceContent>,
                                          kinds: seq<N.NoteModificationType>)
    requires notes != [] && |rest| == |notes| - 1
    requires CarriesOver(notes[0], head, kinds)
    requires forall i :: 0 <= i < |rest| ==> CarriesOver(notes[1..][i], rest[i], kinds)
    ensures forall i :: 0 <= i < |notes| ==> CarriesOver(notes[i], ([head] + rest)[i], kinds)
  {
    forall i | 0 <= i < |notes| ensures CarriesOver(notes[i], ([head] + rest)[i], kinds) {
      if i > 0 {
        assert notes[i] == notes[1..][i - 1] && ([head] + rest)[i] == rest[i - 1];
      }
    }
  }

  /** `Chord::to_timeslice`: a slice arpeggiated exactly when the chord has
      an `Arpeggiate` modification, holding a clone of every note, in order,
      with the chord's note-convertible modifications added to it. */
  function ToTimeslice(c: Chord, next: nat): (r: (Timeslice, nat))
    requires ValidChord(c)
    ensures r.0.arpeggiated <==> exists m :: m in c.modifications && m.kind.Arpeggiate?
    ensures |r.0.content| == |c.content| && r.0.directions == [] && r.0.tempoDetails == []
    ensures forall i :: 0 <= i < |c.content| ==> CarriesOver(c.content[i], r.0.content[i], TransferableKinds(c.modifications))
    ensures r.1 >= next
  {
    var t := NewTimeslice().(arpeggiated := exists m :: m in c.modifications && m.kind.Arpeggiate?);
    var (contents, next1) := ChordContents(c.content, TransferableKinds(c.modifications), next);
    (t.(content := contents), next1)
  }
}

/** A chord edited in place, as the `&mut self` methods of `Chord` do; each
    method is the matching `Chords` function applied to the chord's value,
    and a returned `&mut Note` is the index of that note. */
module ChordPlaces {
  import opened Wrappers
  import opened Durations
  import opened Pitches
  import opened Accidentals
  import opened Notes
  import C = ChordModifications
  import ModSets
  import Chords

  class ChordPlace {
    var id: nat
    var content: seq<Note>
    var modifications: seq<C.ChordModification>

    /** The chord these fields hold. */
    function Value(): Chords.Chord
      reads this
    {
      Chords.Chord(id, content, modifications)
    }

    constructor (c: Chords.Chord)
      ensures Value() == c
    {
      id, content, modifications := c.id, c.content, c.modifications;
    }

    /** `Chord::claim_note`: `retain` the notes not alike, then `push`. */
    method ClaimNote(note: Note) returns (last: nat)
      modifies this
      ensures Value() == Chords.ClaimNote(old(Value()), note)
      ensures last == |content| - 1 && content[last] == note
    {
      content := ModSets.Retain(content, Chords.NotAlike(note));
      content := content + [note];
      last := |content| - 1;
    }

    /** `Chord::add_note`: claims a new note. */
    method AddNote(pitch: Pitch, duration: Duration, accidental: Option<Accidental>, freshId: nat) returns (last: nat)
      modifies this
      ensures Value() == Chords.AddNote(old(Value()), pitch, duration, accidental, freshId)
      ensures last == |content| - 1 && content[last] == NewNote(pitch, duration, accidental, freshId)
    {
      last := ClaimNote(NewNote(pitch, duration, accidental, freshId));
    }

    /** `Chord::add_modification`: `replace` in the set, then the id. */
    method AddModification(kind: C.ChordModificationType, freshId: nat) returns (modId: nat)
      requires Chords.ValidChord(Value())
      modifies this
      ensures (Value(), modId) == Chords.AddModification(old(Value()), kind, freshId)
    {
      modifications := ModSets.Replace(modifications, C.NewChordModification(kind, freshId), C.ModRank);
      modId := freshId;
    }

    /** `Chord::remove_item`: `retain` over the notes. */
    method RemoveItem(noteId: nat)
      modifies this
      ensures Value() == Chords.RemoveItem(old(Value()), noteId)
    {
      content := ModSets.Retain(content, Chords.OtherNoteId(noteId));
    }

    /** `Chord::remove_modification`: `retain` over the chord's set, then
        each note in turn drops the id. */
    method RemoveModification(modId: nat)
      requires Chords.ValidChord(Value())
      modifies this
      ensures Value() == Chords.RemoveModification(old(Value()), modId)
    {
      modifications := ModSets.Retain(modifications, Chords.OtherChordModId(modId));
      var i := 0;
      while i < |content|
        invariant 0 <= i <= |content| == |old(content)|
        invariant id == old(id) && modifications == ModSets.Filter(old(modifications), Chords.OtherChordModId(modId))
        invariant forall j :: 0 <= j < i ==> content[j] == Notes.RemoveModification(old(content)[j], modId)
        invariant forall j :: i <= j < |content| ==> content[j] == old(content)[j]
      {
        assert old(content)[i] in old(content);
        content := content[i := Notes.RemoveModification(content[i], modId)];
        i := i + 1;
      }
      Chords.RemoveFromNotesAt(old(content), modId);
      assert content == Chords.RemoveFromNotes(old(content), modId);
    }
  }
}

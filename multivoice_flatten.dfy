/** `MultiVoice::flatten`: the voices, each already flattened, are laid
    out on one time line of slots, and the items that start together are
    merged into one chord. */
module MultiVoiceFlatten {
  import opened Wrappers
  import opened Durations
  import opened ModSets
  import opened Notes
  import opened Chords
  import opened Phrases
  import T = Temporal
  import SL = SlotLayout
  import N = NoteModifications
  import C = ChordModifications

  /** The beat base items are measured in while they are laid out. */
  const FlatBase := Duration(TwoThousandFortyEighth, 0)

  // ---------------------------------------------------------------------
  // Shapes of flattened content

  /** No multivoice among the items, nor inside their sub-phrases. */
  predicate NoMultiVoice(items: seq<PhraseContent>)
    decreases items, 1
  {
    forall i :: 0 <= i < |items| ==> NoMultiVoiceItem(items[i])
  }

  predicate NoMultiVoiceItem(item: PhraseContent)
    decreases item, 0
  {
    match item
    case NoteItem(_) => true
    case ChordItem(_) => true
    case PhraseItem(q) => NoMultiVoice(q.content)
    case MultiVoiceItem(_) => false
  }

  /** What `flatten(true)` leaves: notes, chords and tuplets whose own
      content is flat in the same way. */
  predicate FullyFlat(items: seq<PhraseContent>)
    decreases items, 1
  {
    forall i :: 0 <= i < |items| ==> FlatItem(items[i])
  }

  predicate FlatItem(item: PhraseContent)
    decreases item, 0
  {
    match item
    case NoteItem(_) => true
    case ChordItem(_) => true
    case PhraseItem(q) => IsTuplet(q) && FullyFlat(q.content)
    case MultiVoiceItem(_) => false
  }

  /** A fully flat item is also free of multivoices. */
  lemma {:induction false} FlatItemHasNoMultiVoice(item: PhraseContent)
    requires FlatItem(item)
    ensures NoMultiVoiceItem(item)
    decreases item, 0
  {
    if item.PhraseItem? {
      FullyFlatHasNoMultiVoice(item.phrase.content);
    }
  }

  lemma {:induction false} FullyFlatHasNoMultiVoice(items: seq<PhraseContent>)
    requires FullyFlat(items)
    ensures NoMultiVoice(items)
    decreases items, 1
  {
    forall i | 0 <= i < |items| ensures NoMultiVoiceItem(items[i]) {
      FlatItemHasNoMultiVoice(items[i]);
    }
  }

  /** Everything `MultiVoice::flatten` may receive from a flattened voice:
      a valid, measurable, fully flat item. */
  ghost predicate Flattened(item: PhraseContent) {
    ItemWellFormed(item) && ItemMeasured(item) && FlatItem(item)
  }

  ghost predicate AllFlattened(items: seq<PhraseContent>) {
    forall i :: 0 <= i < |items| ==> Flattened(items[i])
  }

  /** Joining two runs keeps every shape the runs have. */
  lemma {:induction false} ShapesConcat(a: seq<PhraseContent>, b: seq<PhraseContent>)
    ensures NoMultiVoice(a) && NoMultiVoice(b) ==> NoMultiVoice(a + b)
    ensures FullyFlat(a) && FullyFlat(b) ==> FullyFlat(a + b)
    ensures AllFlattened(a) && AllFlattened(b) ==> AllFlattened(a + b)
    ensures ItemsMeasured(a) && ItemsMeasured(b) ==> ItemsMeasured(a + b)
    ensures ItemsWellFormed(a) && ItemsWellFormed(b) ==> ItemsWellFormed(a + b)
  {
    forall i | |a| <= i < |a + b| ensures (a + b)[i] == b[i - |a|] {
    }
  }

  /** A run cut out of items keeps every shape of the items. */
  lemma {:induction false} ShapesSlice(s: seq<PhraseContent>, i: nat, j: nat)
    requires i <= j <= |s|
    ensures NoMultiVoice(s) ==> NoMultiVoice(s[i..j])
    ensures FullyFlat(s) ==> FullyFlat(s[i..j])
    ensures AllFlattened(s) ==> AllFlattened(s[i..j])
    ensures ItemsMeasured(s) ==> ItemsMeasured(s[i..j])
    ensures ItemsWellFormed(s) ==> ItemsWellFormed(s[i..j])
  {
    forall k | 0 <= k < j - i ensures s[i..j][k] == s[i + k] {
    }
  }

  // ---------------------------------------------------------------------
  // Merging the items of one slot into one chord

  /** Some note among `notes` has the pitch, duration and accidental of `n`. */
  ghost predicate HasAlike(notes: seq<Note>, n: Note) {
    exists m :: m in notes && Alike(m, n)
  }

  /** `m` is what `add_note` and then `add_modification` of each of the
      modification types of `src` make of `src`: alike, with the same types. */
  ghost predicate CopyOf(m: Note, src: Note) {
    Alike(m, src) && forall k :: k in Kinds(m.modifications) <==> k in Kinds(src.modifications)
  }

  /** Some note among `sources` is copied by `m`. */
  ghost predicate HasCopy(sources: seq<Note>, m: Note) {
    exists s :: s in sources && CopyOf(m, s)
  }

  /** Some chord modification of the set has the rank of type `k`. */
  predicate HoldsChordRank(mods: seq<C.ChordModification>, k: C.ChordModificationType) {
    exists m :: m in mods && C.Rank(m.kind) == C.Rank(k)
  }

  /** Two modifications of a set with the same rank are the same one. */
  lemma {:induction false} SortedRanksDiffer(s: seq<N.NoteModification>, i: nat, j: nat)
    requires Sorted(s, N.ModRank) && i < |s| && j < |s| && N.Rank(s[i].kind) == N.Rank(s[j].kind)
    ensures i == j
  {
  }

  /** A fresh note given every modification type of a valid note, in set
      order, carries exactly those types. */
  lemma {:induction false} AddKindsCopies(n: Note, src: Note, next: nat)
    requires ValidNote(src) && n.modifications == [] && Alike(n, src)
    ensures CopyOf(AddKinds(n, Kinds(src.modifications), next).0, src)
  {
    var kinds := Kinds(src.modifications);
    var r := AddKinds(n, kinds, next).0;
    forall k | k in kinds ensures k in Kinds(r.modifications) {
      var i :| 0 <= i < |kinds| && kinds[i] == k;
      KindOfSetIsLast(src, i);
      AddKindsLatestWins(n, kinds, next, i);
      var m :| m in r.modifications && m.kind == k;
      InKinds(r.modifications, m);
    }
    AddedKindsFromList(n, kinds, next);
  }

  /** Every type of a note given `kinds` from no modifications is one of
      `kinds`. */
  lemma {:induction false} AddedKindsFromList(n: Note, kinds: seq<N.NoteModificationType>, next: nat)
    requires ValidNote(n) && n.modifications == []
    ensures forall k :: k in Kinds(AddKinds(n, kinds, next).0.modifications) ==> k in kinds
  {
    var mods := AddKinds(n, kinds, next).0.modifications;
    forall k | k in Kinds(mods) ensures k in kinds {
      var x :| 0 <= x < |mods| && Kinds(mods)[x] == k;
      assert mods[x] in mods;
    }
  }

  /** In the types of a modification set no variant repeats, so each type
      is the last of its variant. */
  lemma {:induction false} KindOfSetIsLast(src: Note, i: nat)
    requires ValidNote(src) && i < |src.modifications|
    ensures LastOfRank(Kinds(src.modifications), i)
  {
    var kinds := Kinds(src.modifications);
    forall j | i < j < |kinds| ensures N.Rank(kinds[j]) != N.Rank(kinds[i]) {
      if N.Rank(kinds[j]) == N.Rank(kinds[i]) {
        SortedRanksDiffer(src.modifications, i, j);
      }
    }
  }

  /** The type of a member of a set is among the set's types. */
  lemma {:induction false} InKinds(mods: seq<N.NoteModification>, m: N.NoteModification)
    requires m in mods
    ensures m.kind in Kinds(mods)
  {
    var x :| 0 <= x < |mods| && mods[x] == m;
    assert Kinds(mods)[x] == m.kind;
  }

  /** The combined chord's `add_note` of the note's pitch, duration and
      accidental under a fresh id, then `add_modification` on the new note of
      each of the note's modification types: the note's copy is last, the
      notes alike it are gone, the rest stay. */
  function MergeNote(c: Chord, n: Note, next: nat): (r: (Chord, nat))
    requires ValidChord(c) && DistinctNotes(c.content) && ValidNote(n)
    ensures ValidChord(r.0) && DistinctNotes(r.0.content)
    ensures r.0.id == c.id && r.0.modifications == c.modifications && r.1 == next + 1 + |n.modifications|
    ensures |r.0.content| > 0 && CopyOf(r.0.content[|r.0.content| - 1], n)
    ensures forall m :: m in r.0.content ==> m == r.0.content[|r.0.content| - 1] || (m in c.content && !Alike(m, n))
    ensures forall m :: m in c.content && !Alike(m, n) ==> m in r.0.content
  {
    var c1 := Chords.AddNote(c, n.pitch, n.duration, Option.Some(n.accidental), next);
    var added := AddKinds(c1.content[|c1.content| - 1], Kinds(n.modifications), next + 1);
    MergeNoteFacts(c, n, next, c1, added);
    (c1.(content := c1.content[..|c1.content| - 1] + [added.0]), added.1)
  }

  /** The notes before the last of a chord that has just claimed a note
      alike `n`: exactly the old notes not alike `n`. */
  lemma {:induction false} ClaimedPrefix(before: seq<Note>, s: seq<Note>, n: Note)
    requires |s| > 0 && Alike(s[|s| - 1], n) && DistinctNotes(s)
    requires forall m :: m in s <==> m == s[|s| - 1] || (m in before && !Alike(m, n))
    ensures forall m :: m in s[..|s| - 1] <==> m in before && !Alike(m, n)
  {
    var last := |s| - 1;
    forall m | m in s[..last] ensures m in before && !Alike(m, n) {
      var x :| 0 <= x < last && s[..last][x] == m;
      assert s[x] == m && !Alike(s[x], s[last]);
    }
    forall m | m in before && !Alike(m, n) ensures m in s[..last] {
      var x :| 0 <= x < |s| && s[x] == m;
      assert x != last;
      assert s[..last][x] == m;
    }
  }

  /** Putting a note alike the last one in its place keeps the notes
      distinct. */
  lemma {:induction false} SwapLastDistinct(s: seq<Note>, x: Note)
    requires |s| > 0 && DistinctNotes(s) && Alike(x, s[|s| - 1])
    ensures DistinctNotes(s[..|s| - 1] + [x])
  {
    var last := |s| - 1;
    var r := s[..last] + [x];
    forall i, j | 0 <= i < j < |r| ensures !Alike(r[i], r[j]) {
      assert r[i] == s[i];
      if j < last {
        assert r[j] == s[j];
      }
    }
  }

  /** What `MergeNote` promises, from the steps it takes. */
  lemma {:induction false} MergeNoteFacts(c: Chord, n: Note, next: nat, c1: Chord, added: (Note, nat))
    requires ValidChord(c) && DistinctNotes(c.content) && ValidNote(n)
    requires c1 == Chords.AddNote(c, n.pitch, n.duration, Option.Some(n.accidental), next)
    requires added == AddKinds(c1.content[|c1.content| - 1], Kinds(n.modifications), next + 1)
    ensures var r := c1.(content := c1.content[..|c1.content| - 1] + [added.0]);
      && ValidChord(r) && DistinctNotes(r.content)
      && r.id == c.id && r.modifications == c.modifications && added.1 == next + 1 + |n.modifications|
      && CopyOf(added.0, n)
      && (forall m :: m in r.content ==> m == added.0 || (m in c.content && !Alike(m, n)))
      && (forall m :: m in c.content && !Alike(m, n) ==> m in r.content)
  {
    var last := |c1.content| - 1;
    var made := c1.content[last];
    assert Alike(made, n) && made.modifications == [];
    assert CopyOf(added.0, n) by {
      AddKindsCopies(made, n, next + 1);
    }
    var kept := c1.content[..last];
    assert forall m :: m in kept <==> m in c.content && !Alike(m, n) by {
      ClaimedPrefix(c.content, c1.content, n);
    }
    assert DistinctNotes(kept + [added.0]) by {
      SwapLastDistinct(c1.content, added.0);
    }
    var r := c1.(content := kept + [added.0]);
    assert forall m :: m in r.content <==> m == added.0 || m in kept;
  }

  /** A note alike one of a chord that then merged a note stays alike one. */
  lemma {:induction false} AlikeKept(before: seq<Note>, x: Note, after: seq<Note>, n: Note)
    requires |after| > 0 && Alike(after[|after| - 1], x)
    requires forall m :: m in before && !Alike(m, x) ==> m in after
    requires HasAlike(before, n)
    ensures HasAlike(after, n)
  {
    var m :| m in before && Alike(m, n);
    if Alike(m, x) {
      assert after[|after| - 1] in after;
    }
  }

  /** `add_note` and the modifications of each note in turn (the notes of a
      merged chord item): every note has an alike note in the chord, and every
      new note of the chord copies one of them. */
  function MergeNotes(c: Chord, notes: seq<Note>, next: nat): (r: (Chord, nat))
    requires ValidChord(c) && DistinctNotes(c.content)
    requires forall n :: n in notes ==> ValidNote(n)
    ensures ValidChord(r.0) && DistinctNotes(r.0.content)
    ensures r.0.id == c.id && r.0.modifications == c.modifications && r.1 >= next
    ensures forall n :: n in notes ==> HasAlike(r.0.content, n)
    ensures forall m :: m in c.content ==> HasAlike(r.0.content, m)
    ensures forall m :: m in r.0.content ==> m in c.content || HasCopy(notes, m)
    decreases |notes|
  {
    if notes == [] then
      assert forall m :: m in c.content ==> HasAlike(c.content, m) by {
        forall m | m in c.content ensures HasAlike(c.content, m) {
          assert Alike(m, m);
        }
      }
      (c, next)
    else
      var k := |notes| - 1;
      var before := MergeNotes(c, notes[..k], next);
      var r := MergeNote(before.0, notes[k], before.1);
      MergeNotesStep(c, notes, before.0, r.0);
      r
  }

  /** One more note merged: what `MergeNotes` promises carries over. */
  lemma {:induction false} MergeNotesStep(c: Chord, notes: seq<Note>, before: Chord, after: Chord)
    requires notes != [] && forall n :: n in notes ==> ValidNote(n)
    requires forall n :: n in notes[..|notes| - 1] ==> HasAlike(before.content, n)
    requires forall m :: m in c.content ==> HasAlike(before.content, m)
    requires forall m :: m in before.content ==> m in c.content || HasCopy(notes[..|notes| - 1], m)
    requires |after.content| > 0 && CopyOf(after.content[|after.content| - 1], notes[|notes| - 1])
    requires forall m :: m in after.content ==> m == after.content[|after.content| - 1] || m in before.content
    requires forall m :: m in before.content && !Alike(m, notes[|notes| - 1]) ==> m in after.content
    ensures forall n :: n in notes ==> HasAlike(after.content, n)
    ensures forall m :: m in c.content ==> HasAlike(after.content, m)
    ensures forall m :: m in after.content ==> m in c.content || HasCopy(notes, m)
  {
    var k := |notes| - 1;
    var x := notes[k];
    var last := after.content[|after.content| - 1];
    forall n | n in notes ensures HasAlike(after.content, n) {
      if n in notes[..k] {
        AlikeKept(before.content, x, after.content, n);
      } else {
        assert n == x && Alike(last, n);
        assert last in after.content;
      }
    }
    forall m | m in c.content ensures HasAlike(after.content, m) {
      AlikeKept(before.content, x, after.content, m);
    }
    forall m | m in after.content ensures m in c.content || HasCopy(notes, m) {
      if m == last {
        assert x in notes && CopyOf(m, x);
      } else if m !in c.content {
        var src :| src in notes[..k] && CopyOf(m, src);
        assert src in notes;
      }
    }
  }

  /** The combined chord's `add_modification` of each type in turn, drawing
      ids from `next` on: every type's variant is then present, each
      modification is one of the added types or an old one whose variant
      none of them has, and those old ones are all kept. */
  function ChordAddKinds(c: Chord, kinds: seq<C.ChordModificationType>, next: nat): (r: (Chord, nat))
    requires ValidChord(c)
    ensures ValidChord(r.0) && r.1 == next + |kinds|
    ensures r.0 == c.(modifications := r.0.modifications)
    ensures forall k :: k in kinds ==> HoldsChordRank(r.0.modifications, k)
    ensures forall m :: m in r.0.modifications ==>
      m.kind in kinds || (m in c.modifications && forall k :: k in kinds ==> C.Rank(k) != C.Rank(m.kind))
    ensures forall m :: m in c.modifications && (forall k :: k in kinds ==> C.Rank(k) != C.Rank(m.kind)) ==>
      m in r.0.modifications
    decreases |kinds|
  {
    if kinds == [] then (c, next)
    else
      var (c1, _) := Chords.AddModification(c, kinds[0], next);
      var r := ChordAddKinds(c1, kinds[1..], next + 1);
      assert forall k :: k in kinds ==> k == kinds[0] || k in kinds[1..];
      ChordRankKept(c1.modifications, C.ChordModification(next, kinds[0]), kinds[1..], r.0.modifications);
      r
  }

  /** A chord modification present before later additions leaves its variant
      present after them: it stays, or a later one of its variant replaced it. */
  lemma {:induction false} ChordRankKept(before: seq<C.ChordModification>, m0: C.ChordModification,
                                        later: seq<C.ChordModificationType>, after: seq<C.ChordModification>)
    requires m0 in before
    requires forall k :: k in later ==> HoldsChordRank(after, k)
    requires forall m :: m in before && (forall k :: k in later ==> C.Rank(k) != C.Rank(m.kind)) ==> m in after
    ensures HoldsChordRank(after, m0.kind)
  {
    if forall k :: k in later ==> C.Rank(k) != C.Rank(m0.kind) {
      assert m0 in after;
    } else {
      var k :| k in later && C.Rank(k) == C.Rank(m0.kind);
      assert HoldsChordRank(after, k);
    }
  }

  /** An item the chord merge handles: a note or a chord. */
  predicate PlainItem(item: PhraseContent) {
    item.NoteItem? || item.ChordItem?
  }

  /** The notes an item brings to a merged chord. */
  function ItemNotes(item: PhraseContent): (r: seq<Note>)
    ensures item.NoteItem? ==> r == [item.note]
    ensures item.ChordItem? ==> r == item.chord.content
    ensures !PlainItem(item) ==> r == []
  {
    match item
    case NoteItem(n) => [n]
    case ChordItem(c) => c.content
    case _ => []
  }

  /** The chord modification types an item brings to a merged chord. */
  function ItemChordKinds(item: PhraseContent): (r: seq<C.ChordModificationType>)
    ensures item.ChordItem? ==> r == ChordKinds(item.chord.modifications)
    ensures !item.ChordItem? ==> r == []
  {
    if item.ChordItem? then ChordKinds(item.chord.modifications) else []
  }

  /** One item merged into the combined chord: a note is merged with its
      modifications; a chord first gives the combined chord each of its
      modification types, then each of its notes is merged. */
  function MergeItem(c: Chord, item: PhraseContent, next: nat): (r: (Chord, nat))
    requires ValidChord(c) && DistinctNotes(c.content) && PlainItem(item) && ItemWellFormed(item)
    ensures ValidChord(r.0) && DistinctNotes(r.0.content) && r.0.id == c.id && r.1 >= next
    ensures forall n :: n in ItemNotes(item) ==> HasAlike(r.0.content, n)
    ensures forall m :: m in c.content ==> HasAlike(r.0.content, m)
    ensures forall m :: m in r.0.content ==> m in c.content || HasCopy(ItemNotes(item), m)
    ensures forall k :: k in ItemChordKinds(item) ==> HoldsChordRank(r.0.modifications, k)
    ensures forall m :: m in r.0.modifications ==>
      m.kind in ItemChordKinds(item) || (m in c.modifications && forall k :: k in ItemChordKinds(item) ==> C.Rank(k) != C.Rank(m.kind))
    ensures forall m :: m in c.modifications && (forall k :: k in ItemChordKinds(item) ==> C.Rank(k) != C.Rank(m.kind)) ==>
      m in r.0.modifications
  {
    if item.NoteItem? then
      var r := MergeNote(c, item.note, next);
      MergeNoteItemFacts(c, item.note, r.0);
      r
    else
      var (c1, next1) := ChordAddKinds(c, ChordKinds(item.chord.modifications), next);
      assert forall n :: n in item.chord.content ==> ValidNote(n);
      MergeNotes(c1, item.chord.content, next1)
  }

  /** A merged note leaves every note alike one in the chord, and the new
      note copies it. */
  lemma {:induction false} MergeNoteItemFacts(c: Chord, n: Note, after: Chord)
    requires |after.content| > 0 && CopyOf(after.content[|after.content| - 1], n)
    requires forall m :: m in after.content ==> m == after.content[|after.content| - 1] || m in c.content
    requires forall m :: m in c.content && !Alike(m, n) ==> m in after.content
    ensures HasAlike(after.content, n)
    ensures forall m :: m in c.content ==> HasAlike(after.content, m)
    ensures forall m :: m in after.content ==> m in c.content || HasCopy([n], m)
  {
    var last := after.content[|after.content| - 1];
    assert last in after.content && Alike(last, n);
    forall m | m in c.content ensures HasAlike(after.content, m) {
      assert Alike(m, m);
      AlikeKept(c.content, n, after.content, m);
    }
    forall m | m in after.content ensures m in c.content || HasCopy([n], m) {
      if m == last {
        assert n in [n];
      }
    }
  }

  /** The notes the items bring, in order. */
  function NotesOf(items: seq<PhraseContent>): seq<Note>
    decreases |items|
  {
    if items == [] then []
    else
      var k := |items| - 1;
      NotesOf(items[..k]) + ItemNotes(items[k])
  }

  /** The chord modification types the items bring, in order. */
  function ChordKindsOf(items: seq<PhraseContent>): seq<C.ChordModificationType>
    decreases |items|
  {
    if items == [] then []
    else
      var k := |items| - 1;
      ChordKindsOf(items[..k]) + ItemChordKinds(items[k])
  }

  /** Every item is a note or a chord and valid. */
  ghost predicate Mergeable(items: seq<PhraseContent>) {
    forall i :: 0 <= i < |items| ==> PlainItem(items[i]) && ItemWellFormed(items[i])
  }

  /** The items of a slot merged one after another into the combined chord:
      every note of the items has an alike note in the chord and every note
      the chord did not have copies one of them; every chord modification
      type of the items has its variant in the chord and every modification
      the chord did not have is of one of those types. */
  function Merge(c: Chord, items: seq<PhraseContent>, next: nat): (r: (Chord, nat))
    requires ValidChord(c) && DistinctNotes(c.content) && Mergeable(items)
    ensures ValidChord(r.0) && DistinctNotes(r.0.content) && r.0.id == c.id && r.1 >= next
    ensures forall n :: n in NotesOf(items) ==> HasAlike(r.0.content, n)
    ensures forall m :: m in c.content ==> HasAlike(r.0.content, m)
    ensures forall m :: m in r.0.content ==> m in c.content || HasCopy(NotesOf(items), m)
    ensures forall k :: k in ChordKindsOf(items) ==> HoldsChordRank(r.0.modifications, k)
    ensures forall m :: m in r.0.modifications ==> m in c.modifications || m.kind in ChordKindsOf(items)
    decreases |items|
  {
    if items == [] then
      assert forall m :: m in c.content ==> HasAlike(c.content, m) by {
        forall m | m in c.content ensures HasAlike(c.content, m) {
          assert Alike(m, m);
        }
      }
      (c, next)
    else
      var k := |items| - 1;
      assert Mergeable(items[..k]) by {
        forall i | 0 <= i < k ensures items[..k][i] == items[i] {
        }
      }
      var before := Merge(c, items[..k], next);
      var r := MergeItem(before.0, items[k], before.1);
      MergeNotesCarried(c.content, NotesOf(items[..k]), ItemNotes(items[k]), before.0.content, r.0.content);
      MergeKindsCarried(c.modifications, ChordKindsOf(items[..k]), ItemChordKinds(items[k]),
                        before.0.modifications, r.0.modifications);
      r
  }

  /** One more item merged: the note coverage of the earlier notes `pre`
      and of the item's notes `extra` carries over to all of them. */
  lemma {:induction false} MergeNotesCarried(c: seq<Note>, pre: seq<Note>, extra: seq<Note>, before: seq<Note>, after: seq<Note>)
    requires forall n :: n in pre ==> HasAlike(before, n)
    requires forall m :: m in c ==> HasAlike(before, m)
    requires forall m :: m in before ==> m in c || HasCopy(pre, m)
    requires forall n :: n in extra ==> HasAlike(after, n)
    requires forall m :: m in before ==> HasAlike(after, m)
    requires forall m :: m in after ==> m in before || HasCopy(extra, m)
    ensures forall n :: n in pre + extra ==> HasAlike(after, n)
    ensures forall m :: m in c ==> HasAlike(after, m)
    ensures forall m :: m in after ==> m in c || HasCopy(pre + extra, m)
  {
    forall n | n in pre + extra ensures HasAlike(after, n) {
      if n in pre {
        var m :| m in before && Alike(m, n);
        var m' :| m' in after && Alike(m', m);
      }
    }
    forall m | m in c ensures HasAlike(after, m) {
      var m1 :| m1 in before && Alike(m1, m);
      var m2 :| m2 in after && Alike(m2, m1);
    }
    forall m | m in after ensures m in c || HasCopy(pre + extra, m) {
      if m in before {
        if m !in c {
          var src :| src in pre && CopyOf(m, src);
          assert src in pre + extra;
        }
      } else {
        var src :| src in extra && CopyOf(m, src);
        assert src in pre + extra;
      }
    }
  }

  /** One more item merged: the chord modification coverage of the earlier
      types `pre` and of the item's types `extra` carries over to all of
      them. */
  lemma {:induction false} MergeKindsCarried(c: seq<C.ChordModification>, pre: seq<C.ChordModificationType>,
                                            extra: seq<C.ChordModificationType>,
                                            before: seq<C.ChordModification>, after: seq<C.ChordModification>)
    requires forall k :: k in pre ==> HoldsChordRank(before, k)
    requires forall m :: m in before ==> m in c || m.kind in pre
    requires forall k :: k in extra ==> HoldsChordRank(after, k)
    requires forall m :: m in after ==>
      m.kind in extra || (m in before && forall k :: k in extra ==> C.Rank(k) != C.Rank(m.kind))
    requires forall m :: m in before && (forall k :: k in extra ==> C.Rank(k) != C.Rank(m.kind)) ==> m in after
    ensures forall k :: k in pre + extra ==> HoldsChordRank(after, k)
    ensures forall m :: m in after ==> m in c || m.kind in pre + extra
  {
    forall k | k in pre + extra ensures HoldsChordRank(after, k) {
      if k !in extra {
        var m0 :| m0 in before && C.Rank(m0.kind) == C.Rank(k);
        ChordRankKept(before, m0, extra, after);
        var m1 :| m1 in after && C.Rank(m1.kind) == C.Rank(m0.kind);
      }
    }
  }

  // ---------------------------------------------------------------------
  // Combining the slots into the flat phrase

  /** A slot the chord merge does not take: several items, one of them a
      tuplet phrase. Such slots go to `flatten_tuplets`. */
  predicate TupletSlot(content: seq<PhraseContent>) {
    |content| > 1 && exists i :: 0 <= i < |content| && content[i].PhraseItem?
  }

  /** `ch` is the merge of the slot's items: valid, no two notes alike, a
      note alike each of the items' notes and nothing but copies of them, the
      variant of each of the items' chord modification types and nothing
      else. */
  ghost predicate MergedFrom(ch: Chord, content: seq<PhraseContent>) {
    && ValidChord(ch) && DistinctNotes(ch.content)
    && (forall n :: n in NotesOf(content) ==> HasAlike(ch.content, n))
    && (forall m :: m in ch.content ==> HasCopy(NotesOf(content), m))
    && (forall k :: k in ChordKindsOf(content) ==> HoldsChordRank(ch.modifications, k))
    && (forall m :: m in ch.modifications ==> m.kind in ChordKindsOf(content))
  }

  /** What a slot becomes: its single item as it is, or one chord merged
      from its several items. */
  ghost predicate SlotOutcome(content: seq<PhraseContent>, item: PhraseContent) {
    || (|content| == 1 && item == content[0])
    || (|content| > 1 && item.ChordItem? && MergedFrom(item.chord, content))
  }

  /** The chord a slot of several plain items becomes: a new chord under
      a fresh id with the items merged into it. */
  function SlotChord(content: seq<PhraseContent>, next: nat): (r: (Chord, nat))
    requires Mergeable(content)
    ensures r.0.id == next && r.1 > next && MergedFrom(r.0, content)
  {
    Merge(NewChord(next), content, next + 1)
  }

  /** One slot of the combine loop: an empty or single-item slot is copied;
      several items make a new chord (`add_chord` under a fresh id) into
      which they are merged; a slot with a tuplet among several items is
      not modelled (none). */
  function CombineSlot(content: seq<PhraseContent>, next: nat): (r: Option<(seq<PhraseContent>, nat)>)
    requires AllFlattened(content)
    ensures r.None? <==> TupletSlot(content)
    ensures r.Some? ==> r.value.1 >= next
  {
    if |content| <= 1 then Some((content, next))
    else if TupletSlot(content) then Option.None
    else
      MergeableWithoutTuplet(content);
      var merged := SlotChord(content, next);
      Some(([ChordItem(merged.0)], merged.1))
  }

  /** Flattened items of a slot without a tuplet are notes and chords. */
  lemma {:induction false} MergeableWithoutTuplet(content: seq<PhraseContent>)
    requires AllFlattened(content) && |content| > 1 && !TupletSlot(content)
    ensures Mergeable(content)
  {
    forall i | 0 <= i < |content| ensures PlainItem(content[i]) && ItemWellFormed(content[i]) {
      assert Flattened(content[i]);
    }
  }

  /** What a slot becomes: its items when there is at most one, else one
      flattened chord under the next id merged from them. */
  lemma {:induction false} CombineSlotOutcome(content: seq<PhraseContent>, next: nat)
    requires AllFlattened(content) && CombineSlot(content, next).Some?
    ensures var r := CombineSlot(content, next).value;
      && AllFlattened(r.0)
      && (|content| <= 1 ==> r == (content, next))
      && (|content| > 1 ==> |r.0| == 1 && r.0[0].ChordItem? && r.0[0].chord.id == next && SlotOutcome(content, r.0[0]))
  {
    if |content| > 1 {
      MergedChordFlattened(content, next);
    }
  }

  /** The chord merged from a slot of several flattened items is flattened. */
  lemma {:induction false} MergedChordFlattened(content: seq<PhraseContent>, next: nat)
    requires AllFlattened(content) && |content| > 1 && !TupletSlot(content)
    ensures Mergeable(content) && Flattened(ChordItem(SlotChord(content, next).0))
  {
    MergeableWithoutTuplet(content);
    var ch := SlotChord(content, next).0;
    assert ValidChord(ch);
    assert ItemWellFormed(ChordItem(ch)) && ItemMeasured(ChordItem(ch)) && FlatItem(ChordItem(ch));
  }

  /** A flattened slot's items are each flattened. */
  lemma {:induction false} SlotFlattened(slots: seq<SL.Slot<PhraseContent>>, m: nat)
    requires SL.Holds(slots, Flattened) && m < |slots|
    ensures AllFlattened(slots[m].1) && |slots[m].1| > 0
  {
    forall i | 0 <= i < |slots[m].1| ensures Flattened(slots[m].1[i]) {
      assert slots[m].1[i] in slots[m].1;
    }
  }

  /** The slots before the last are still flattened. */
  lemma {:induction false} SlotsInitFlattened(slots: seq<SL.Slot<PhraseContent>>)
    requires SL.Holds(slots, Flattened) && slots != []
    ensures SL.Holds(slots[..|slots| - 1], Flattened)
  {
    forall m | 0 <= m < |slots| - 1 ensures slots[..|slots| - 1][m] == slots[m] {
    }
  }

  /** The combine loop over the slots in time order: the items the slots
      become, in order, with the next free id; none once a slot is a tuplet
      slot. */
  function CombineSlots(slots: seq<SL.Slot<PhraseContent>>, next: nat): (r: Option<(seq<PhraseContent>, nat)>)
    requires SL.Holds(slots, Flattened)
    ensures r.Some? ==> r.value.1 >= next
    decreases |slots|
  {
    if slots == [] then Some(([], next))
    else
      var k := |slots| - 1;
      SlotsInitFlattened(slots);
      SlotFlattened(slots, k);
      var before := CombineSlots(slots[..k], next);
      if before.None? then Option.None
      else
        var out := CombineSlot(slots[k].1, before.value.1);
        if out.None? then Option.None
        else Some((before.value.0 + out.value.0, out.value.1))
  }

  /** Some slot is a tuplet slot. */
  predicate AnyTupletSlot(slots: seq<SL.Slot<PhraseContent>>) {
    exists m :: 0 <= m < |slots| && TupletSlot(slots[m].1)
  }

  /** The combine gives none exactly when some slot is a tuplet slot. */
  lemma {:induction false} CombineNoneIffTuplet(slots: seq<SL.Slot<PhraseContent>>, next: nat)
    requires SL.Holds(slots, Flattened)
    ensures CombineSlots(slots, next).None? <==> AnyTupletSlot(slots)
    decreases |slots|
  {
    if slots != [] {
      var k := |slots| - 1;
      SlotsInitFlattened(slots);
      CombineNoneIffTuplet(slots[..k], next);
      CombineNoneStep(slots, next);
    }
  }

  /** The last slot decides when the slots before it combine. */
  lemma {:induction false} CombineNoneStep(slots: seq<SL.Slot<PhraseContent>>, next: nat)
    requires SL.Holds(slots, Flattened) && slots != []
    requires SL.Holds(slots[..|slots| - 1], Flattened)
    requires CombineSlots(slots[..|slots| - 1], next).None? <==> AnyTupletSlot(slots[..|slots| - 1])
    ensures CombineSlots(slots, next).None? <==> AnyTupletSlot(slots)
  {
    var k := |slots| - 1;
    var init := slots[..k];
    SlotFlattened(slots, k);
    var before := CombineSlots(init, next);
    assert forall m :: 0 <= m < k ==> init[m] == slots[m];
    if before.None? {
      var m :| 0 <= m < k && TupletSlot(init[m].1);
      assert TupletSlot(slots[m].1);
    } else {
      assert CombineSlot(slots[k].1, before.value.1).None? <==> TupletSlot(slots[k].1);
    }
  }

  /** A combine that succeeds turns each slot into one item, in order: the
      slot's item itself or the chord merged from its items, and every item
      is flattened. */
  lemma {:induction false} CombineOutcomes(slots: seq<SL.Slot<PhraseContent>>, next: nat)
    requires SL.Holds(slots, Flattened) && CombineSlots(slots, next).Some?
    ensures var items := CombineSlots(slots, next).value.0;
      && AllFlattened(items) && |items| == |slots|
      && forall m :: 0 <= m < |slots| ==> SlotOutcome(slots[m].1, items[m])
    decreases |slots|
  {
    if slots != [] {
      var k := |slots| - 1;
      SlotsInitFlattened(slots);
      SlotFlattened(slots, k);
      var before := CombineSlots(slots[..k], next);
      CombineOutcomes(slots[..k], next);
      var out := CombineSlot(slots[k].1, before.value.1);
      CombineSlotOutcome(slots[k].1, before.value.1);
      CombineStep(slots, before.value.0, out.value.0);
      ShapesConcat(before.value.0, out.value.0);
    }
  }

  /** The last slot's outcome joins those of the slots before it. */
  lemma {:induction false} CombineStep(slots: seq<SL.Slot<PhraseContent>>, before: seq<PhraseContent>, out: seq<PhraseContent>)
    requires slots != [] && SL.Holds(slots, Flattened)
    requires |before| == |slots| - 1
    requires forall m :: 0 <= m < |slots| - 1 ==> SlotOutcome(slots[..|slots| - 1][m].1, before[m])
    requires |out| == 1 && SlotOutcome(slots[|slots| - 1].1, out[0])
    ensures forall m :: 0 <= m < |slots| ==> SlotOutcome(slots[m].1, (before + out)[m])
  {
    var k := |slots| - 1;
    forall m | 0 <= m < |slots| ensures SlotOutcome(slots[m].1, (before + out)[m]) {
      if m < k {
        assert slots[..k][m] == slots[m];
      }
    }
  }

  /** The combine loop: the slots in time order, each copied or merged into
      a chord appended to the new phrase's content. */
  method CombineAll(slots: seq<SL.Slot<PhraseContent>>, next: nat) returns (r: Option<(seq<PhraseContent>, nat)>)
    requires SL.Holds(slots, Flattened)
    ensures r == CombineSlots(slots, next)
  {
    var items: seq<PhraseContent> := [];
    var n := next;
    var i := 0;
    while i < |slots|
      invariant 0 <= i <= |slots|
      invariant SL.Holds(slots[..i], Flattened)
      invariant CombineSlots(slots[..i], next) == Some((items, n))
    {
      assert slots[..i + 1][..i] == slots[..i];
      SlotsInitFlattened(slots[..i + 1]);
      SlotFlattened(slots, i);
      assert slots[..i + 1][i] == slots[i];
      var out := CombineSlot(slots[i].1, n);
      if out.None? {
        assert TupletSlot(slots[i].1);
        CombineNoneIffTuplet(slots, next);
        return Option.None;
      }
      items := items + out.value.0;
      n := out.value.1;
      i := i + 1;
    }
    assert slots[..i] == slots;
    r := Some((items, n));
  }

  // ---------------------------------------------------------------------
  // The whole flatten of flattened voices

  /** How far the running time of a voice moves past an item: its beats at
      a 2048th-note base. */
  function SliceDuration(item: PhraseContent): (r: real)
    ensures r >= 0.0
  {
    if ItemMeasured(item) then ItemBeats(item, FlatBase, Option.None) else 0.0
  }

  /** The content of each voice. */
  function Contents(voices: seq<Phrase>): (r: seq<seq<PhraseContent>>)
    ensures |r| == |voices| && forall k :: 0 <= k < |voices| ==> r[k] == voices[k].content
  {
    seq(|voices|, k requires 0 <= k < |voices| => voices[k].content)
  }

  /** Every voice's items are flattened. */
  ghost predicate VoicesFlattened(voices: seq<Phrase>) {
    forall k :: 0 <= k < |voices| ==> AllFlattened(voices[k].content)
  }

  /** The slots the placement loop builds from the voices. */
  function Layout(voices: seq<Phrase>): seq<SL.Slot<PhraseContent>> {
    SL.PlaceAll([], Contents(voices), SliceDuration)
  }

  /** The slots of flattened voices are never empty and hold only flattened
      items. */
  lemma {:induction false} LayoutFlattened(voices: seq<Phrase>)
    requires VoicesFlattened(voices)
    ensures SL.Holds(Layout(voices), Flattened)
  {
    var vs := Contents(voices);
    forall k, x | 0 <= k < |vs| && x in vs[k] ensures Flattened(x) {
      var i :| 0 <= i < |vs[k]| && vs[k][i] == x;
      assert voices[k].content[i] == x;
    }
    SL.PlaceAllHolds([], vs, SliceDuration, Flattened);
  }

  /** `MultiVoice::flatten` of voices already flattened: the slots are laid
      out and combined into a new phrase under a fresh id, with no
      modifications; none when a slot needs `flatten_tuplets`. */
  function FlattenVoices(voices: seq<Phrase>, freshId: nat, next: nat): (r: Option<(Phrase, nat)>)
    requires VoicesFlattened(voices)
    ensures r.None? <==> AnyTupletSlot(Layout(voices))
    ensures r.Some? ==> r.value.0.id == freshId && r.value.0.modifications == [] && r.value.1 >= next
    ensures r.Some? ==> AllFlattened(r.value.0.content) && |r.value.0.content| == |Layout(voices)|
    ensures r.Some? ==> forall m :: 0 <= m < |Layout(voices)| ==> SlotOutcome(Layout(voices)[m].1, r.value.0.content[m])
  {
    LayoutFlattened(voices);
    var slots := Layout(voices);
    CombineNoneIffTuplet(slots, next);
    match CombineSlots(slots, next)
    case None => Option.None
    case Some((items, n)) =>
      CombineOutcomes(slots, next);
      Some((Phrase(freshId, items, []), n))
  }

  /** The flatten as the source runs it: the placement loop, then the
      combine loop. */
  method Flatten(voices: seq<Phrase>, freshId: nat, next: nat) returns (r: Option<(Phrase, nat)>)
    requires VoicesFlattened(voices)
    ensures r == FlattenVoices(voices, freshId, next)
  {
    var slots := SL.PlaceVoices(Contents(voices), SliceDuration);
    LayoutFlattened(voices);
    var combined := CombineAll(slots, next);
    match combined
    case None => r := Option.None;
    case Some((items, n)) => r := Some((Phrase(freshId, items, []), n));
  }

  /** Every item of every voice lasts some beats. */
  ghost predicate Sounding(voices: seq<Phrase>) {
    forall k, i :: 0 <= k < |voices| && 0 <= i < |voices[k].content| ==> SliceDuration(voices[k].content[i]) > 0.0
  }

  /** Running time added up item by item is the items' beats. */
  lemma {:induction false} SumIsBeats(items: seq<PhraseContent>)
    requires ItemsMeasured(items)
    ensures SL.Sum(items, SliceDuration) == ItemsBeats(items, FlatBase, Option.None)
    decreases |items|
  {
    if items != [] {
      var k := |items| - 1;
      ShapesSlice(items, 0, k);
      assert items[0..k] == items[..k];
      SumIsBeats(items[..k]);
      assert ItemMeasured(items[k]);
    }
  }

  /** With every item lasting, the slots' start times strictly increase. */
  lemma {:induction false} LayoutInOrder(voices: seq<Phrase>)
    requires Sounding(voices)
    ensures T.StartsIncrease(Layout(voices))
  {
    var vs := Contents(voices);
    forall k | 0 <= k < |vs| ensures SL.Lasts(vs[k], SliceDuration) {
      forall i | 0 <= i < |vs[k]| ensures SliceDuration(vs[k][i]) > 0.0 {
        assert vs[k][i] == voices[k].content[i];
      }
    }
    SL.PlaceAllInOrder([], vs, SliceDuration);
  }

  /** With every item lasting, item `i` of voice `k` is in a slot that
      starts at the beats of the items before it in its voice. */
  lemma {:induction false} LayoutLands(voices: seq<Phrase>, k: nat, i: nat)
    requires VoicesFlattened(voices) && Sounding(voices)
    requires k < |voices| && i < |voices[k].content|
    ensures SL.Lands(Layout(voices), ItemsBeats(voices[k].content[..i], FlatBase, Option.None), voices[k].content[i])
  {
    var vs := Contents(voices);
    forall j | 0 <= j < |vs| ensures SL.Lasts(vs[j], SliceDuration) {
      forall x | 0 <= x < |vs[j]| ensures SliceDuration(vs[j][x]) > 0.0 {
        assert vs[j][x] == voices[j].content[x];
      }
    }
    SL.PlaceAllLands([], vs, SliceDuration, k, i);
    var items := voices[k].content;
    assert ItemsMeasured(items) by {
      forall x | 0 <= x < |items| ensures ItemMeasured(items[x]) {
        assert Flattened(items[x]);
      }
    }
    ShapesSlice(items, 0, i);
    assert items[0..i] == items[..i];
    SumIsBeats(items[..i]);
  }
}

/** Phrases and multivoices: the nested containers of a staff. A phrase holds
    notes, chords, sub-phrases and multivoices in order, with modifications
    that span it; a multivoice holds phrases (its voices) that sound at the
    same time. Rust owns every child, so the tree is a value and each edit
    through `&mut self` is a function from the old tree to the new one. */
module Phrases {
  import opened Wrappers
  import opened Durations
  import opened Pitches
  import opened Accidentals
  import opened ModSets
  import opened Notes
  import opened Chords
  import P = PhraseModifications
  import Tempos

  datatype PhraseContent =
    | NoteItem(note: Note)
    | ChordItem(chord: Chord)
    | PhraseItem(phrase: Phrase)
    | MultiVoiceItem(multivoice: MultiVoice)

  datatype Phrase = Phrase(id: nat, content: seq<PhraseContent>, modifications: seq<P.PhraseModification>)

  /** `MultiVoiceContent` has the single variant `Phrase`, so a voice is
      kept as the phrase itself. */
  datatype MultiVoice = MultiVoice(id: nat, voices: seq<Phrase>)

  /** The id of an item, whatever its kind. */
  function ItemId(item: PhraseContent): nat {
    match item
    case NoteItem(n) => n.id
    case ChordItem(c) => c.id
    case PhraseItem(p) => p.id
    case MultiVoiceItem(m) => m.id
  }

  /** The ids of the items, in order. */
  function ItemIds(items: seq<PhraseContent>): (r: seq<nat>)
    ensures |r| == |items|
    ensures forall i :: 0 <= i < |items| ==> r[i] == ItemId(items[i])
  {
    seq(|items|, i requires 0 <= i < |items| => ItemId(items[i]))
  }

  /** The ids of the voices, in order. */
  function VoiceIds(voices: seq<Phrase>): (r: seq<nat>)
    ensures |r| == |voices|
    ensures forall k :: 0 <= k < |voices| ==> r[k] == voices[k].id
  {
    seq(|voices|, k requires 0 <= k < |voices| => voices[k].id)
  }

  /** The ids other than `id`, in order (`retain` on ids). */
  function Without(ids: seq<nat>, id: nat): (r: seq<nat>)
    ensures forall x :: x in r <==> x in ids && x != id
    ensures |r| <= |ids|
    decreases |ids|
  {
    if ids == [] then []
    else
      var n := |ids| - 1;
      assert forall x :: x in ids <==> x in ids[..n] || x == ids[n];
      Without(ids[..n], id) + (if ids[n] == id then [] else [ids[n]])
  }

  // ---------------------------------------------------------------------
  // Well-formedness

  /** Every modification set of the tree is a set, and every note and chord
      is valid: what holding `BTreeSet`s guarantees. */
  ghost predicate WellFormed(p: Phrase)
    decreases p, 1
  {
    Sorted(p.modifications, P.ModRank) && ItemsWellFormed(p.content)
  }

  ghost predicate ItemsWellFormed(items: seq<PhraseContent>)
    decreases items, 0
  {
    forall i :: 0 <= i < |items| ==> ItemWellFormed(items[i])
  }

  ghost predicate ItemWellFormed(item: PhraseContent)
    decreases item, 0
  {
    match item
    case NoteItem(n) => ValidNote(n)
    case ChordItem(c) => ValidChord(c)
    case PhraseItem(q) => WellFormed(q)
    case MultiVoiceItem(m) => forall k :: 0 <= k < |m.voices| ==> WellFormed(m.voices[k])
  }

  /** No tuplet of the tree divides by zero beats, so every ratio is a
      number (an `f64` division by zero would give infinity or NaN). */
  predicate TupletsHaveBeats(mods: seq<P.PhraseModification>) {
    forall m :: m in mods && m.kind.Tuplet? ==> m.kind.numBeats > 0
  }

  predicate Measured(p: Phrase)
    decreases p, 1
  {
    TupletsHaveBeats(p.modifications) && ItemsMeasured(p.content)
  }

  predicate ItemsMeasured(items: seq<PhraseContent>)
    decreases items, 0
  {
    forall i :: 0 <= i < |items| ==> ItemMeasured(items[i])
  }

  predicate ItemMeasured(item: PhraseContent)
    decreases item, 0
  {
    match item
    case NoteItem(_) => true
    case ChordItem(_) => true
    case PhraseItem(q) => Measured(q)
    case MultiVoiceItem(m) => forall k :: 0 <= k < |m.voices| ==> Measured(m.voices[k])
  }

  /** Joining two runs of items keeps both properties. */
  lemma {:induction false} ConcatKeeps(a: seq<PhraseContent>, b: seq<PhraseContent>)
    ensures ItemsMeasured(a) && ItemsMeasured(b) ==> ItemsMeasured(a + b)
    ensures ItemsWellFormed(a) && ItemsWellFormed(b) ==> ItemsWellFormed(a + b)
  {
    forall i | |a| <= i < |a + b| ensures (a + b)[i] == b[i - |a|] {
    }
  }

  /** A run cut out of items keeps both properties. */
  lemma {:induction false} SliceKeeps(s: seq<PhraseContent>, i: nat, j: nat)
    requires i <= j <= |s|
    ensures ItemsMeasured(s) ==> ItemsMeasured(s[i..j])
    ensures ItemsWellFormed(s) ==> ItemsWellFormed(s[i..j])
  {
    forall k | 0 <= k < j - i ensures s[i..j][k] == s[i + k] {
    }
  }

  // ---------------------------------------------------------------------
  // Construction

  /** `Phrase::new`: no content and no modifications. */
  function NewPhrase(freshId: nat): (p: Phrase)
    ensures p.id == freshId && p.content == [] && p.modifications == []
    ensures WellFormed(p) && Measured(p)
  {
    Phrase(freshId, [], [])
  }

  /** `MultiVoice::new`: no voices. */
  function NewMultiVoice(freshId: nat): (m: MultiVoice)
    ensures m.id == freshId && m.voices == []
  {
    MultiVoice(freshId, [])
  }

  /** `Phrase::claim` and the `claim_*` methods: the item goes in last and
      the earlier content stays as it was. */
  function Claim(p: Phrase, item: PhraseContent): (r: Phrase)
    ensures r.id == p.id && r.modifications == p.modifications
    ensures |r.content| == |p.content| + 1
    ensures r.content[..|p.content|] == p.content && r.content[|p.content|] == item
    ensures WellFormed(p) && ItemWellFormed(item) ==> WellFormed(r)
    ensures Measured(p) && ItemMeasured(item) ==> Measured(r)
  {
    ConcatKeeps(p.content, [item]);
    p.(content := p.content + [item])
  }

  /** `Phrase::add_note`: a new note (with the accidental, `None` standing
      for `Accidental::None`) goes in last. */
  function AddNote(p: Phrase, pitch: Pitch, duration: Duration, accidental: Option<Accidental>, freshId: nat): (r: Phrase)
    ensures r.id == p.id && r.modifications == p.modifications
    ensures |r.content| == |p.content| + 1 && r.content[..|p.content|] == p.content
    ensures r.content[|p.content|] == NoteItem(NewNote(pitch, duration, accidental, freshId))
    ensures WellFormed(p) ==> WellFormed(r)
  {
    Claim(p, NoteItem(NewNote(pitch, duration, accidental, freshId)))
  }

  /** `Phrase::add_chord`: a new empty chord goes in last. */
  function AddChord(p: Phrase, freshId: nat): (r: Phrase)
    ensures r.id == p.id && r.modifications == p.modifications
    ensures |r.content| == |p.content| + 1 && r.content[..|p.content|] == p.content
    ensures r.content[|p.content|] == ChordItem(NewChord(freshId))
    ensures WellFormed(p) ==> WellFormed(r)
  {
    Claim(p, ChordItem(NewChord(freshId)))
  }

  /** `Phrase::add_phrase`: a new empty sub-phrase goes in last. */
  function AddPhrase(p: Phrase, freshId: nat): (r: Phrase)
    ensures r.id == p.id && r.modifications == p.modifications
    ensures |r.content| == |p.content| + 1 && r.content[..|p.content|] == p.content
    ensures r.content[|p.content|] == PhraseItem(NewPhrase(freshId))
    ensures WellFormed(p) ==> WellFormed(r)
  {
    Claim(p, PhraseItem(NewPhrase(freshId)))
  }

  /** `Phrase::add_multivoice`: a new multivoice without voices goes in last. */
  function AddMultiVoice(p: Phrase, freshId: nat): (r: Phrase)
    ensures r.id == p.id && r.modifications == p.modifications
    ensures |r.content| == |p.content| + 1 && r.content[..|p.content|] == p.content
    ensures r.content[|p.content|] == MultiVoiceItem(NewMultiVoice(freshId))
    ensures WellFormed(p) ==> WellFormed(r)
  {
    Claim(p, MultiVoiceItem(NewMultiVoice(freshId)))
  }

  /** `Vec::insert` as the `insert_*` methods use it: the item takes
      position `index` and the items from there on move one place up.
      `Vec::insert` panics beyond the end, hence the precondition. */
  function Insert(p: Phrase, index: nat, item: PhraseContent): (r: Phrase)
    requires index <= |p.content|
    ensures r.id == p.id && r.modifications == p.modifications
    ensures |r.content| == |p.content| + 1 && r.content[index] == item
    ensures forall i :: 0 <= i < index ==> r.content[i] == p.content[i]
    ensures forall i :: index < i < |r.content| ==> r.content[i] == p.content[i - 1]
    ensures WellFormed(p) && ItemWellFormed(item) ==> WellFormed(r)
    ensures Measured(p) && ItemMeasured(item) ==> Measured(r)
  {
    SliceKeeps(p.content, 0, index);
    SliceKeeps(p.content, index, |p.content|);
    ConcatKeeps(p.content[..index], [item]);
    ConcatKeeps(p.content[..index] + [item], p.content[index..]);
    p.(content := p.content[..index] + [item] + p.content[index..])
  }

  /** `Phrase::insert_note`: a new note at position `index`. */
  function InsertNote(p: Phrase, index: nat, pitch: Pitch, duration: Duration, accidental: Option<Accidental>, freshId: nat): (r: Phrase)
    requires index <= |p.content|
    ensures r == Insert(p, index, NoteItem(NewNote(pitch, duration, accidental, freshId)))
    ensures r.content[index].note.id == freshId && r.content[index].note.modifications == []
  {
    Insert(p, index, NoteItem(NewNote(pitch, duration, accidental, freshId)))
  }

  /** `Phrase::insert_chord`: a new empty chord at position `index`. */
  function InsertChord(p: Phrase, index: nat, freshId: nat): (r: Phrase)
    requires index <= |p.content|
    ensures r == Insert(p, index, ChordItem(NewChord(freshId)))
    ensures r.content[index].chord.id == freshId && r.content[index].chord.content == []
  {
    Insert(p, index, ChordItem(NewChord(freshId)))
  }

  /** `Phrase::insert_phrase`: a new empty sub-phrase at position `index`. */
  function InsertPhrase(p: Phrase, index: nat, freshId: nat): (r: Phrase)
    requires index <= |p.content|
    ensures r == Insert(p, index, PhraseItem(NewPhrase(freshId)))
    ensures r.content[index].phrase.id == freshId && r.content[index].phrase.content == []
  {
    Insert(p, index, PhraseItem(NewPhrase(freshId)))
  }

  /** `Phrase::insert_multivoice`: a new multivoice at position `index`. */
  function InsertMultiVoice(p: Phrase, index: nat, freshId: nat): (r: Phrase)
    requires index <= |p.content|
    ensures r == Insert(p, index, MultiVoiceItem(NewMultiVoice(freshId)))
    ensures r.content[index].multivoice.id == freshId && r.content[index].multivoice.voices == []
  {
    Insert(p, index, MultiVoiceItem(NewMultiVoice(freshId)))
  }

  /** Inserting at the end is claiming. */
  lemma {:induction false} InsertAtEndIsClaim(p: Phrase, item: PhraseContent)
    ensures Insert(p, |p.content|, item) == Claim(p, item)
  {
    assert p.content[|p.content|..] == [];
    assert p.content[..|p.content|] == p.content;
  }

  /** `Phrase::add_modification`: the new modification, under a fresh id,
      replaces any of the same variant; the id is returned with the phrase. */
  function AddModification(p: Phrase, kind: P.PhraseModificationType, freshId: nat): (r: (Phrase, nat))
    requires Sorted(p.modifications, P.ModRank)
    ensures Sorted(r.0.modifications, P.ModRank) && r.1 == freshId
    ensures r.0 == p.(modifications := r.0.modifications)
    ensures P.PhraseModification(freshId, kind) in r.0.modifications
    ensures forall m :: m in r.0.modifications && P.Rank(m.kind) == P.Rank(kind) ==> m == P.PhraseModification(freshId, kind)
    ensures forall m :: m in r.0.modifications <==>
      m == P.PhraseModification(freshId, kind) || (m in p.modifications && P.Rank(m.kind) != P.Rank(kind))
  {
    var m := P.NewPhraseModification(kind, freshId);
    (p.(modifications := Replace(p.modifications, m, P.ModRank)), freshId)
  }

  /** `MultiVoice::add_phrase`: a new empty voice goes in last. */
  function AddVoice(m: MultiVoice, freshId: nat): (r: MultiVoice)
    ensures r.id == m.id && |r.voices| == |m.voices| + 1
    ensures r.voices[..|m.voices|] == m.voices && r.voices[|m.voices|] == NewPhrase(freshId)
  {
    ClaimVoice(m, NewPhrase(freshId))
  }

  /** `MultiVoice::claim` and `claim_phrase`: the phrase becomes the last voice. */
  function ClaimVoice(m: MultiVoice, voice: Phrase): (r: MultiVoice)
    ensures r.id == m.id && |r.voices| == |m.voices| + 1
    ensures r.voices[..|m.voices|] == m.voices && r.voices[|m.voices|] == voice
  {
    m.(voices := m.voices + [voice])
  }

  // ---------------------------------------------------------------------
  // Tuplets and beats

  /** `Phrase::is_tuplet`: some modification is a tuplet. */
  predicate IsTuplet(p: Phrase) {
    exists m :: m in p.modifications && m.kind.Tuplet?
  }

  /** `Phrase::is_nested_tuplet`: a tuplet with a tuplet sub-phrase directly
      inside it. */
  predicate IsNestedTuplet(p: Phrase) {
    IsTuplet(p) && exists i :: 0 <= i < |p.content| && p.content[i].PhraseItem? && IsTuplet(p.content[i].phrase)
  }

  /** A ratio that scales beats without changing their sign. */
  predicate NonNegative(ratio: Option<real>) {
    ratio.None? || ratio.value >= 0.0
  }

  /** The `find_map` over the modifications in set order: into/num of the
      first tuplet, or none. */
  function OwnRatio(mods: seq<P.PhraseModification>): (r: Option<real>)
    requires TupletsHaveBeats(mods)
    ensures r.None? <==> forall m :: m in mods ==> !m.kind.Tuplet?
    ensures r.Some? ==> r.value >= 0.0
    ensures r.Some? ==> exists m :: (m in mods && m.kind.Tuplet? &&
      r.value == m.kind.intoBeats as real / m.kind.numBeats as real)
  {
    if mods == [] then Option.None
    else if mods[0].kind.Tuplet? then Some(mods[0].kind.intoBeats as real / mods[0].kind.numBeats as real)
    else
      assert forall m :: m in mods ==> m == mods[0] || m in mods[1..];
      OwnRatio(mods[1..])
  }

  /** A phrase is a tuplet exactly when it has its own ratio. */
  lemma {:induction false} IsTupletIffRatio(p: Phrase)
    requires TupletsHaveBeats(p.modifications)
    ensures IsTuplet(p) <==> OwnRatio(p.modifications).Some?
  {
  }

  /** The ratio inside a phrase: the inherited ratio times the phrase's own,
      whichever of them exist. */
  function InnerRatio(ratio: Option<real>, mods: seq<P.PhraseModification>): (r: Option<real>)
    requires TupletsHaveBeats(mods)
    ensures NonNegative(ratio) ==> NonNegative(r)
    ensures OwnRatio(mods).None? ==> r == ratio
    ensures ratio.None? ==> r == OwnRatio(mods)
  {
    var own := OwnRatio(mods);
    match ratio
    case Some(outer) => (if own.Some? then Some(outer * own.value) else Some(outer))
    case None => own
  }

  /** A note's beats are never negative under a non-negative ratio. */
  lemma {:induction false} NoteBeatsNonNegative(n: Note, beatBase: Duration, ratio: Option<real>)
    requires NonNegative(ratio)
    ensures GetBeats(n, beatBase, ratio) >= 0.0
  {
    var b := NoteBeats(n, BaseValue(beatBase));
    assert b >= 0.0;
    if ratio.Some? {
      assert GetBeats(n, beatBase, ratio) == b * ratio.value;
    }
  }

  /** A chord's beats are never negative under a non-negative ratio. */
  lemma {:induction false} ChordBeatsNonNegative(c: Chord, beatBase: Duration, ratio: Option<real>)
    requires NonNegative(ratio)
    ensures ChordBeats(c, beatBase, ratio) >= 0.0
  {
    if c.content != [] {
      var i :| 0 <= i < |c.content| && ChordBeats(c, beatBase, ratio) == GetBeats(c.content[i], beatBase, ratio);
      NoteBeatsNonNegative(c.content[i], beatBase, ratio);
    }
  }

  /** `Phrase::get_beats`: the sum of the items' beats, each under the
      inherited ratio composed with the phrase's own tuplet. */
  function PhraseBeats(p: Phrase, beatBase: Duration, ratio: Option<real>): (r: real)
    requires Measured(p)
    ensures NonNegative(ratio) ==> r >= 0.0
    decreases p, 1
  {
    ItemsBeats(p.content, beatBase, InnerRatio(ratio, p.modifications))
  }

  /** The `sum` of the items' beats, added from the first to the last. */
  function ItemsBeats(items: seq<PhraseContent>, beatBase: Duration, ratio: Option<real>): (r: real)
    requires ItemsMeasured(items)
    ensures NonNegative(ratio) ==> r >= 0.0
    ensures items == [] ==> r == 0.0
    decreases items, 0
  {
    if items == [] then 0.0
    else
      var n := |items| - 1;
      assert ItemsMeasured(items[..n]) by {
        forall i | 0 <= i < n ensures ItemMeasured(items[..n][i]) {
          assert items[..n][i] == items[i];
        }
      }
      ItemsBeats(items[..n], beatBase, ratio) + ItemBeats(items[n], beatBase, ratio)
  }

  /** The beats of one item, by its kind. */
  function ItemBeats(item: PhraseContent, beatBase: Duration, ratio: Option<real>): (r: real)
    requires ItemMeasured(item)
    ensures NonNegative(ratio) ==> r >= 0.0
    decreases item, 0
  {
    match item
    case NoteItem(n) =>
      (if NonNegative(ratio) then NoteBeatsNonNegative(n, beatBase, ratio); GetBeats(n, beatBase, ratio)
       else GetBeats(n, beatBase, ratio))
    case ChordItem(c) =>
      (if NonNegative(ratio) then ChordBeatsNonNegative(c, beatBase, ratio); ChordBeats(c, beatBase, ratio)
       else ChordBeats(c, beatBase, ratio))
    case PhraseItem(q) => PhraseBeats(q, beatBase, ratio)
    case MultiVoiceItem(m) => MultiVoiceBeats(m, beatBase, ratio)
  }

  /** `MultiVoice::get_beats`: the longest voice, or 0 without voices. */
  function MultiVoiceBeats(m: MultiVoice, beatBase: Duration, ratio: Option<real>): (r: real)
    requires forall k :: 0 <= k < |m.voices| ==> Measured(m.voices[k])
    ensures m.voices == [] ==> r == 0.0
    ensures forall k :: 0 <= k < |m.voices| ==> PhraseBeats(m.voices[k], beatBase, ratio) <= r
    ensures m.voices != [] ==> exists k :: 0 <= k < |m.voices| && r == PhraseBeats(m.voices[k], beatBase, ratio)
    ensures NonNegative(ratio) ==> r >= 0.0
    decreases m, 2
  {
    if m.voices == [] then 0.0 else LongestVoice(m.voices, beatBase, ratio)
  }

  /** `reduce(f64::max)` over the voices' beats, folding from the first. */
  function LongestVoice(voices: seq<Phrase>, beatBase: Duration, ratio: Option<real>): (r: real)
    requires voices != []
    requires forall k :: 0 <= k < |voices| ==> Measured(voices[k])
    ensures forall k :: 0 <= k < |voices| ==> PhraseBeats(voices[k], beatBase, ratio) <= r
    ensures exists k :: 0 <= k < |voices| && r == PhraseBeats(voices[k], beatBase, ratio)
    decreases voices, 1
  {
    var n := |voices| - 1;
    var last := PhraseBeats(voices[n], beatBase, ratio);
    if n == 0 then last
    else
      var init := voices[..n];
      assert forall k :: 0 <= k < n ==> init[k] == voices[k];
      var before := LongestVoice(init, beatBase, ratio);
      if last > before then last else before
  }

  /** One more voice: the longest voice so far against the new one. */
  lemma {:induction false} MultiVoiceBeatsSnoc(id: nat, voices: seq<Phrase>, v: Phrase, beatBase: Duration, ratio: Option<real>)
    requires forall k :: 0 <= k < |voices| ==> Measured(voices[k])
    requires Measured(v)
    ensures forall k :: 0 <= k < |voices + [v]| ==> Measured((voices + [v])[k])
    ensures var before := MultiVoiceBeats(MultiVoice(id, voices), beatBase, ratio);
      var last := PhraseBeats(v, beatBase, ratio);
      MultiVoiceBeats(MultiVoice(id, voices + [v]), beatBase, ratio) ==
        (if voices == [] then last else if last > before then last else before)
  {
    var vs := voices + [v];
    assert vs[..|voices|] == voices;
    assert vs[|voices|] == v;
  }

  /** Sums over a split: the beats of two runs of items add up. */
  lemma {:induction false} ItemsBeatsAppend(a: seq<PhraseContent>, b: seq<PhraseContent>, beatBase: Duration, ratio: Option<real>)
    requires ItemsMeasured(a) && ItemsMeasured(b)
    ensures ItemsMeasured(a + b)
    ensures ItemsBeats(a + b, beatBase, ratio) == ItemsBeats(a, beatBase, ratio) + ItemsBeats(b, beatBase, ratio)
    decreases |b|
  {
    assert ItemsMeasured(a + b) by {
      forall i | 0 <= i < |a + b| ensures ItemMeasured((a + b)[i]) {
        if i >= |a| {
          assert (a + b)[i] == b[i - |a|];
        }
      }
    }
    if b == [] {
      assert a + b == a;
    } else {
      var n := |b| - 1;
      assert ItemsMeasured(b[..n]) by {
        forall i | 0 <= i < n ensures ItemMeasured(b[..n][i]) {
          assert b[..n][i] == b[i];
        }
      }
      ItemsBeatsAppend(a, b[..n], beatBase, ratio);
      assert (a + b)[..|a + b| - 1] == a + b[..n];
      assert (a + b)[|a + b| - 1] == b[n];
    }
  }

  /** Claiming an item adds its beats, under the ratio inside the phrase. */
  lemma {:induction false} ClaimAddsBeats(p: Phrase, item: PhraseContent, beatBase: Duration, ratio: Option<real>)
    requires Measured(p) && ItemMeasured(item)
    ensures PhraseBeats(Claim(p, item), beatBase, ratio) ==
      PhraseBeats(p, beatBase, ratio) + ItemBeats(item, beatBase, InnerRatio(ratio, p.modifications))
  {
    var c := Claim(p, item).content;
    assert c[..|c| - 1] == p.content;
  }

  /** Inserting an item anywhere adds its beats, as claiming does. */
  lemma {:induction false} InsertAddsBeats(p: Phrase, index: nat, item: PhraseContent, beatBase: Duration, ratio: Option<real>)
    requires index <= |p.content| && Measured(p) && ItemMeasured(item)
    ensures PhraseBeats(Insert(p, index, item), beatBase, ratio) ==
      PhraseBeats(p, beatBase, ratio) + ItemBeats(item, beatBase, InnerRatio(ratio, p.modifications))
  {
    var inner := InnerRatio(ratio, p.modifications);
    var front, back := p.content[..index], p.content[index..];
    assert p.content == front + back;
    assert ItemsMeasured(front) by {
      forall i | 0 <= i < |front| ensures ItemMeasured(front[i]) {
        assert front[i] == p.content[i];
      }
    }
    assert ItemsMeasured(back) by {
      forall i | 0 <= i < |back| ensures ItemMeasured(back[i]) {
        assert back[i] == p.content[index + i];
      }
    }
    assert ItemsMeasured([item]);
    ItemsBeatsAppend(front, back, beatBase, inner);
    ItemsBeatsAppend(front, [item], beatBase, inner);
    ItemsBeatsAppend(front + [item], back, beatBase, inner);
    assert ItemsBeats([item], beatBase, inner) == ItemBeats(item, beatBase, inner) by {
      assert [item][..0] == [];
    }
  }

  /** Claiming a voice makes the multivoice as long as the longer of itself
      and the new voice. */
  lemma {:induction false} ClaimVoiceBeats(m: MultiVoice, voice: Phrase, beatBase: Duration, ratio: Option<real>)
    requires m.voices != []
    requires forall k :: 0 <= k < |m.voices| ==> Measured(m.voices[k])
    requires Measured(voice)
    ensures var before := MultiVoiceBeats(m, beatBase, ratio);
      var added := PhraseBeats(voice, beatBase, ratio);
      MultiVoiceBeats(ClaimVoice(m, voice), beatBase, ratio) == (if added > before then added else before)
  {
    var vs := ClaimVoice(m, voice).voices;
    assert vs[..|vs| - 1] == m.voices;
  }

  /** `Phrase::get_duration`: the beats at the tempo's base note, in
      seconds at its beats per minute; none at 0 bpm, where the source
      divides by zero. */
  function PhraseDuration(p: Phrase, tempo: Tempos.Tempo, ratio: Option<real>): (r: Option<real>)
    requires Measured(p)
    ensures Tempos.Lasts(r, PhraseBeats(p, tempo.baseNote, ratio), tempo.beatsPerMinute)
  {
    Tempos.Seconds(PhraseBeats(p, tempo.baseNote, ratio), tempo.beatsPerMinute)
  }


  // ---------------------------------------------------------------------
  // Removing items

  /** No item below has the id: no direct item, no note of a chord, no
      voice of a multivoice, and so on all the way down. */
  ghost predicate ItemsFree(items: seq<PhraseContent>, id: nat)
    decreases items, 1
  {
    forall i :: 0 <= i < |items| ==> ItemId(items[i]) != id && InnerFree(items[i], id)
  }

  /** Nothing inside the item has the id (the item's own id aside). */
  ghost predicate InnerFree(item: PhraseContent, id: nat)
    decreases item, 0
  {
    match item
    case NoteItem(_) => true
    case ChordItem(c) => forall n :: n in c.content ==> n.id != id
    case PhraseItem(q) => ItemsFree(q.content, id)
    case MultiVoiceItem(m) => VoicesFree(m.voices, id)
  }

  ghost predicate VoicesFree(voices: seq<Phrase>, id: nat)
    decreases voices, 1
  {
    forall k :: 0 <= k < |voices| ==> voices[k].id != id && ItemsFree(voices[k].content, id)
  }

  /** The test that keeps every item with another id. */
  function OtherItemId(id: nat): PhraseContent -> bool {
    (c: PhraseContent) => ItemId(c) != id
  }

  /** The test that keeps every voice with another id. */
  function OtherVoiceId(id: nat): Phrase -> bool {
    (v: Phrase) => v.id != id
  }

  /** `Phrase::remove_item`: the direct items with the id go, then every
      remaining chord, phrase and multivoice has it removed in turn; the
      phrase's own id and modifications stay. */
  function RemoveItem(p: Phrase, id: nat): (r: Phrase)
    ensures r.id == p.id && r.modifications == p.modifications
    ensures ItemIds(r.content) == Without(ItemIds(p.content), id)
    ensures ItemsFree(r.content, id)
    ensures var kept := Filter(p.content, OtherItemId(id));
      |r.content| == |kept| &&
      forall i :: 0 <= i < |kept| ==> kept[i] in p.content && r.content[i] == RemoveInside(kept[i], id)
    decreases p, 3
  {
    p.(content := RemoveFromItems(p.content, id))
  }

  /** The `retain` and then the `for_each`, item by item: the items kept
      are those with another id, in order, each with the id removed inside
      it. */
  function RemoveFromItems(items: seq<PhraseContent>, id: nat): (r: seq<PhraseContent>)
    ensures ItemIds(r) == Without(ItemIds(items), id)
    ensures ItemsFree(r, id)
    ensures var kept := Filter(items, OtherItemId(id));
      |r| == |kept| && forall i :: 0 <= i < |kept| ==> kept[i] in items && r[i] == RemoveInside(kept[i], id)
    decreases items, 2
  {
    if items == [] then []
    else
      var n := |items| - 1;
      var before := RemoveFromItems(items[..n], id);
      RemovedItemsSnoc(items, id, before);
      if ItemId(items[n]) == id then before else before + [RemoveInside(items[n], id)]
  }

  /** One more item: kept and edited when its id differs, dropped
      otherwise; the ids left and their absence below follow. */
  lemma {:induction false} RemovedItemsSnoc(items: seq<PhraseContent>, id: nat, before: seq<PhraseContent>)
    requires items != []
    requires ItemIds(before) == Without(ItemIds(items[..|items| - 1]), id)
    requires ItemsFree(before, id)
    requires var kept := Filter(items[..|items| - 1], OtherItemId(id));
      |before| == |kept| &&
      forall i :: 0 <= i < |kept| ==> kept[i] in items[..|items| - 1] && before[i] == RemoveInside(kept[i], id)
    ensures var r := if ItemId(items[|items| - 1]) == id then before else before + [RemoveInside(items[|items| - 1], id)];
      ItemIds(r) == Without(ItemIds(items), id) && ItemsFree(r, id)
    ensures var kept := Filter(items, OtherItemId(id));
      var r := if ItemId(items[|items| - 1]) == id then before else before + [RemoveInside(items[|items| - 1], id)];
      |r| == |kept| && forall i :: 0 <= i < |kept| ==> kept[i] in items && r[i] == RemoveInside(kept[i], id)
    decreases items, 1
  {
    var n := |items| - 1;
    assert ItemIds(items)[..n] == ItemIds(items[..n]);
    if ItemId(items[n]) != id {
      var last := RemoveInside(items[n], id);
      assert ItemIds(before + [last]) == ItemIds(before) + [ItemId(last)];
    }
    RemovedItemsKept(items, id, before);
  }

  /** The per-item half of `RemovedItemsSnoc`: the kept items line up with
      their edited copies. */
  lemma {:induction false} RemovedItemsKept(items: seq<PhraseContent>, id: nat, before: seq<PhraseContent>)
    requires items != []
    requires var kept := Filter(items[..|items| - 1], OtherItemId(id));
      |before| == |kept| &&
      forall i :: 0 <= i < |kept| ==> kept[i] in items[..|items| - 1] && before[i] == RemoveInside(kept[i], id)
    ensures var kept := Filter(items, OtherItemId(id));
      var r := if ItemId(items[|items| - 1]) == id then before else before + [RemoveInside(items[|items| - 1], id)];
      |r| == |kept| && forall i :: 0 <= i < |kept| ==> kept[i] in items && r[i] == RemoveInside(kept[i], id)
    decreases items, 0
  {
    var n := |items| - 1;
    var keep := OtherItemId(id);
    var keptBefore := Filter(items[..n], keep);
    FilterSnoc(items[..n], items[n], keep);
    assert items[..n] + [items[n]] == items;
    if ItemId(items[n]) != id {
      var last := RemoveInside(items[n], id);
      assert Filter(items, keep) == keptBefore + [items[n]];
      forall i | 0 <= i < |keptBefore| + 1
        ensures (keptBefore + [items[n]])[i] in items
        ensures (before + [last])[i] == RemoveInside((keptBefore + [items[n]])[i], id)
      {
        if i < |keptBefore| {
          assert (before + [last])[i] == before[i];
          assert (keptBefore + [items[n]])[i] == keptBefore[i];
        }
      }
    }
  }

  /** A kept item with the id removed inside it: a note is unchanged, and a
      chord, phrase or multivoice is its own `remove_item`. */
  function RemoveInside(item: PhraseContent, id: nat): (r: PhraseContent)
    ensures ItemId(r) == ItemId(item) && InnerFree(r, id)
    ensures item.NoteItem? ==> r == item
    ensures item.ChordItem? ==> r == ChordItem(Chords.RemoveItem(item.chord, id))
    ensures item.PhraseItem? ==> r == PhraseItem(RemoveItem(item.phrase, id))
    ensures item.MultiVoiceItem? ==> r == MultiVoiceItem(MultiVoiceRemoveItem(item.multivoice, id))
    decreases item, 1
  {
    match item
    case NoteItem(_) => item
    case ChordItem(c) => ChordItem(Chords.RemoveItem(c, id))
    case PhraseItem(q) => PhraseItem(RemoveItem(q, id))
    case MultiVoiceItem(m) => MultiVoiceItem(MultiVoiceRemoveItem(m, id))
  }

  /** `MultiVoice::remove_item`: the voices with the id go, then every
      remaining voice has it removed. */
  function MultiVoiceRemoveItem(m: MultiVoice, id: nat): (r: MultiVoice)
    ensures r.id == m.id
    ensures VoiceIds(r.voices) == Without(VoiceIds(m.voices), id)
    ensures VoicesFree(r.voices, id)
    ensures var kept := Filter(m.voices, OtherVoiceId(id));
      |r.voices| == |kept| &&
      forall k :: 0 <= k < |kept| ==> kept[k] in m.voices && r.voices[k] == RemoveItem(kept[k], id)
    decreases m, 3
  {
    m.(voices := RemoveFromVoices(m.voices, id))
  }

  /** The voices kept are those with another id, in order, each with the
      id removed: its own id and modifications stay. */
  function RemoveFromVoices(voices: seq<Phrase>, id: nat): (r: seq<Phrase>)
    ensures VoiceIds(r) == Without(VoiceIds(voices), id)
    ensures VoicesFree(r, id)
    ensures var kept := Filter(voices, OtherVoiceId(id));
      |r| == |kept| && forall k :: 0 <= k < |kept| ==> kept[k] in voices && r[k] == RemoveItem(kept[k], id)
    decreases voices, 2
  {
    if voices == [] then []
    else
      var n := |voices| - 1;
      var before := RemoveFromVoices(voices[..n], id);
      RemovedVoicesSnoc(voices, id, before);
      if voices[n].id == id then before else before + [RemoveItem(voices[n], id)]
  }

  /** One more voice: kept and edited when its id differs, dropped
      otherwise; the ids left and their absence below follow. */
  lemma {:induction false} RemovedVoicesSnoc(voices: seq<Phrase>, id: nat, before: seq<Phrase>)
    requires voices != []
    requires VoiceIds(before) == Without(VoiceIds(voices[..|voices| - 1]), id)
    requires VoicesFree(before, id)
    requires var kept := Filter(voices[..|voices| - 1], OtherVoiceId(id));
      |before| == |kept| &&
      forall k :: 0 <= k < |kept| ==> kept[k] in voices[..|voices| - 1] && before[k] == RemoveItem(kept[k], id)
    ensures var r := if voices[|voices| - 1].id == id then before else before + [RemoveItem(voices[|voices| - 1], id)];
      VoiceIds(r) == Without(VoiceIds(voices), id) && VoicesFree(r, id)
    ensures var kept := Filter(voices, OtherVoiceId(id));
      var r := if voices[|voices| - 1].id == id then before else before + [RemoveItem(voices[|voices| - 1], id)];
      |r| == |kept| && forall k :: 0 <= k < |kept| ==> kept[k] in voices && r[k] == RemoveItem(kept[k], id)
    decreases voices, 1
  {
    var n := |voices| - 1;
    assert VoiceIds(voices)[..n] == VoiceIds(voices[..n]);
    if voices[n].id != id {
      var last := RemoveItem(voices[n], id);
      assert VoiceIds(before + [last]) == VoiceIds(before) + [last.id];
    }
    RemovedVoicesKept(voices, id, before);
  }

  /** The per-voice half of `RemovedVoicesSnoc`: the kept voices line up
      with their edited copies. */
  lemma {:induction false} RemovedVoicesKept(voices: seq<Phrase>, id: nat, before: seq<Phrase>)
    requires voices != []
    requires var kept := Filter(voices[..|voices| - 1], OtherVoiceId(id));
      |before| == |kept| &&
      forall k :: 0 <= k < |kept| ==> kept[k] in voices[..|voices| - 1] && before[k] == RemoveItem(kept[k], id)
    ensures var kept := Filter(voices, OtherVoiceId(id));
      var r := if voices[|voices| - 1].id == id then before else before + [RemoveItem(voices[|voices| - 1], id)];
      |r| == |kept| && forall k :: 0 <= k < |kept| ==> kept[k] in voices && r[k] == RemoveItem(kept[k], id)
    decreases voices, 0
  {
    var n := |voices| - 1;
    var keep := OtherVoiceId(id);
    var keptBefore := Filter(voices[..n], keep);
    FilterSnoc(voices[..n], voices[n], keep);
    assert voices[..n] + [voices[n]] == voices;
    if voices[n].id != id {
      var last := RemoveItem(voices[n], id);
      assert Filter(voices, keep) == keptBefore + [voices[n]];
      forall k | 0 <= k < |keptBefore| + 1
        ensures (keptBefore + [voices[n]])[k] in voices
        ensures (before + [last])[k] == RemoveItem((keptBefore + [voices[n]])[k], id)
      {
        if k < |keptBefore| {
          assert (before + [last])[k] == before[k];
          assert (keptBefore + [voices[n]])[k] == keptBefore[k];
        }
      }
    }
  }

  /** Removing an id that occurs nowhere below changes nothing. */
  lemma {:induction false} RemoveAbsentItem(p: Phrase, id: nat)
    requires ItemsFree(p.content, id)
    ensures RemoveItem(p, id) == p
    decreases p, 3
  {
    RemoveAbsentFromItems(p.content, id);
  }

  lemma {:induction false} RemoveAbsentFromItems(items: seq<PhraseContent>, id: nat)
    requires ItemsFree(items, id)
    ensures RemoveFromItems(items, id) == items
    decreases items, 2
  {
    var r := RemoveFromItems(items, id);
    forall c | c in items ensures OtherItemId(id)(c) {
      var i :| 0 <= i < |items| && items[i] == c;
    }
    FilterAllKept(items, OtherItemId(id));
    forall i | 0 <= i < |items| ensures r[i] == items[i] {
      RemoveAbsentInside(items[i], id);
    }
  }

  lemma {:induction false} RemoveAbsentInside(item: PhraseContent, id: nat)
    requires InnerFree(item, id)
    ensures RemoveInside(item, id) == item
    decreases item, 1
  {
    match item
    case NoteItem(_) =>
    case ChordItem(c) =>
      FilterAllKept(c.content, Chords.OtherNoteId(id));
    case PhraseItem(q) =>
      RemoveAbsentItem(q, id);
    case MultiVoiceItem(m) =>
      RemoveAbsentFromVoices(m.voices, id);
  }

  lemma {:induction false} RemoveAbsentFromVoices(voices: seq<Phrase>, id: nat)
    requires VoicesFree(voices, id)
    ensures RemoveFromVoices(voices, id) == voices
    decreases voices, 2
  {
    var r := RemoveFromVoices(voices, id);
    forall v | v in voices ensures OtherVoiceId(id)(v) {
      var k :| 0 <= k < |voices| && voices[k] == v;
    }
    FilterAllKept(voices, OtherVoiceId(id));
    forall k | 0 <= k < |voices| ensures r[k] == voices[k] {
      RemoveAbsentItem(voices[k], id);
    }
  }

  /** Removing an id twice is removing it once. */
  lemma {:induction false} RemoveItemIdempotent(p: Phrase, id: nat)
    ensures RemoveItem(RemoveItem(p, id), id) == RemoveItem(p, id)
  {
    RemoveAbsentItem(RemoveItem(p, id), id);
  }


  // ---------------------------------------------------------------------
  // Removing modifications

  /** No modification anywhere in the phrase has the id: not the phrase's
      own, nor those of any note, chord or sub-phrase below. */
  ghost predicate ModsFree(p: Phrase, id: nat)
    decreases p, 1
  {
    (forall m :: m in p.modifications ==> m.id != id) && ItemsModsFree(p.content, id)
  }

  ghost predicate ItemsModsFree(items: seq<PhraseContent>, id: nat)
    decreases items, 0
  {
    forall i :: 0 <= i < |items| ==> ItemModsFree(items[i], id)
  }

  ghost predicate ItemModsFree(item: PhraseContent, id: nat)
    decreases item, 0
  {
    match item
    case NoteItem(n) => forall m :: m in n.modifications ==> m.id != id
    case ChordItem(c) =>
      (forall m :: m in c.modifications ==> m.id != id) &&
      forall i, m :: 0 <= i < |c.content| && m in c.content[i].modifications ==> m.id != id
    case PhraseItem(q) => ModsFree(q, id)
    case MultiVoiceItem(mv) => forall k :: 0 <= k < |mv.voices| ==> ModsFree(mv.voices[k], id)
  }

  /** The test that keeps every phrase modification with another id. */
  function OtherModId(id: nat): P.PhraseModification -> bool {
    (m: P.PhraseModification) => m.id != id
  }

  /** `Phrase::remove_modification`: the id leaves the phrase's set and,
      recursively, every item's; the items themselves stay, in order, each
      edited by its own kind's `remove_modification`. */
  function RemoveModification(p: Phrase, id: nat): (r: Phrase)
    requires WellFormed(p)
    ensures WellFormed(r) && r.id == p.id && ItemIds(r.content) == ItemIds(p.content)
    ensures forall m :: m in r.modifications <==> m in p.modifications && m.id != id
    ensures r.modifications == Filter(p.modifications, OtherModId(id))
    ensures |r.content| == |p.content|
    ensures ItemsWellFormed(p.content) &&
      forall i :: 0 <= i < |p.content| ==> r.content[i] == RemoveModsInside(p.content[i], id)
    ensures ModsFree(r, id)
    decreases p, 3
  {
    var keep := OtherModId(id);
    FilterSorted(p.modifications, keep, P.ModRank);
    Phrase(p.id, RemoveModsFromItems(p.content, id), Filter(p.modifications, keep))
  }

  /** Every item, in order, with the modification id removed inside it. */
  function RemoveModsFromItems(items: seq<PhraseContent>, id: nat): (r: seq<PhraseContent>)
    requires ItemsWellFormed(items)
    ensures ItemsWellFormed(r) && ItemIds(r) == ItemIds(items)
    ensures |r| == |items| && forall i :: 0 <= i < |items| ==> r[i] == RemoveModsInside(items[i], id)
    ensures ItemsModsFree(r, id)
    decreases items, 2
  {
    if items == [] then []
    else
      var n := |items| - 1;
      SliceKeeps(items, 0, n);
      var before := RemoveModsFromItems(items[..n], id);
      var last := RemoveModsInside(items[n], id);
      ConcatKeeps(before, [last]);
      assert ItemIds(items) == ItemIds(items[..n]) + [ItemId(items[n])];
      assert ItemIds(before + [last]) == ItemIds(before) + [ItemId(last)];
      before + [last]
  }

  /** One item with the modification id removed inside it: a note, chord,
      phrase or multivoice by its own `remove_modification`. */
  function RemoveModsInside(item: PhraseContent, id: nat): (r: PhraseContent)
    requires ItemWellFormed(item)
    ensures ItemWellFormed(r) && ItemId(r) == ItemId(item)
    ensures ItemModsFree(r, id)
    ensures item.NoteItem? ==> r == NoteItem(Notes.RemoveModification(item.note, id))
    ensures item.ChordItem? ==> r == ChordItem(Chords.RemoveModification(item.chord, id))
    ensures item.PhraseItem? ==> r == PhraseItem(RemoveModification(item.phrase, id))
    ensures item.MultiVoiceItem? ==> r == MultiVoiceItem(MultiVoiceRemoveModification(item.multivoice, id))
    decreases item, 1
  {
    match item
    case NoteItem(n) => NoteItem(Notes.RemoveModification(n, id))
    case ChordItem(c) => ChordItem(Chords.RemoveModification(c, id))
    case PhraseItem(q) => PhraseItem(RemoveModification(q, id))
    case MultiVoiceItem(mv) => MultiVoiceItem(MultiVoiceRemoveModification(mv, id))
  }

  /** `MultiVoice::remove_modification`: every voice has the id removed. */
  function MultiVoiceRemoveModification(mv: MultiVoice, id: nat): (r: MultiVoice)
    requires forall k :: 0 <= k < |mv.voices| ==> WellFormed(mv.voices[k])
    ensures r.id == mv.id && VoiceIds(r.voices) == VoiceIds(mv.voices)
    ensures forall k :: 0 <= k < |r.voices| ==> WellFormed(r.voices[k]) && ModsFree(r.voices[k], id)
    ensures |r.voices| == |mv.voices|
    ensures forall k :: 0 <= k < |mv.voices| ==> r.voices[k] == RemoveModification(mv.voices[k], id)
    decreases mv, 3
  {
    mv.(voices := RemoveModsFromVoices(mv.voices, id))
  }

  function RemoveModsFromVoices(voices: seq<Phrase>, id: nat): (r: seq<Phrase>)
    requires forall k :: 0 <= k < |voices| ==> WellFormed(voices[k])
    ensures VoiceIds(r) == VoiceIds(voices)
    ensures forall k :: 0 <= k < |r| ==> WellFormed(r[k]) && ModsFree(r[k], id)
    ensures |r| == |voices| && forall k :: 0 <= k < |voices| ==> r[k] == RemoveModification(voices[k], id)
    decreases voices, 2
  {
    if voices == [] then []
    else
      var n := |voices| - 1;
      assert forall k :: 0 <= k < n ==> voices[..n][k] == voices[k];
      var before := RemoveModsFromVoices(voices[..n], id);
      var last := RemoveModification(voices[n], id);
      assert VoiceIds(voices) == VoiceIds(voices[..n]) + [voices[n].id];
      assert VoiceIds(before + [last]) == VoiceIds(before) + [last.id];
      before + [last]
  }

  /** Removing a modification id that occurs nowhere changes nothing. */
  lemma {:induction false} RemoveAbsentModification(p: Phrase, id: nat)
    requires WellFormed(p) && ModsFree(p, id)
    ensures RemoveModification(p, id) == p
    decreases p, 3
  {
    FilterAllKept(p.modifications, OtherModId(id));
    RemoveAbsentModsFromItems(p.content, id);
  }

  lemma {:induction false} RemoveAbsentModsFromItems(items: seq<PhraseContent>, id: nat)
    requires ItemsWellFormed(items) && ItemsModsFree(items, id)
    ensures RemoveModsFromItems(items, id) == items
    decreases items, 2
  {
    var r := RemoveModsFromItems(items, id);
    forall i | 0 <= i < |items| ensures r[i] == items[i] {
      RemoveAbsentModsInside(items[i], id);
    }
  }

  lemma {:induction false} RemoveAbsentModsInside(item: PhraseContent, id: nat)
    requires ItemWellFormed(item) && ItemModsFree(item, id)
    ensures RemoveModsInside(item, id) == item
    decreases item, 1
  {
    match item
    case NoteItem(n) =>
      FilterAllKept(n.modifications, Notes.OtherModId(id));
    case ChordItem(c) =>
      RemoveModificationAbsent(c, id);
    case PhraseItem(q) =>
      RemoveAbsentModification(q, id);
    case MultiVoiceItem(mv) =>
      RemoveAbsentModsFromVoices(mv.voices, id);
  }

  lemma {:induction false} RemoveAbsentModsFromVoices(voices: seq<Phrase>, id: nat)
    requires forall k :: 0 <= k < |voices| ==> WellFormed(voices[k]) && ModsFree(voices[k], id)
    ensures RemoveModsFromVoices(voices, id) == voices
    decreases voices, 2
  {
    var r := RemoveModsFromVoices(voices, id);
    forall k | 0 <= k < |voices| ensures r[k] == voices[k] {
      RemoveAbsentModification(voices[k], id);
    }
  }

  // ---------------------------------------------------------------------
  // Finding a multivoice by id

  /** Some multivoice below the items has the id. */
  ghost predicate ItemsHold(items: seq<PhraseContent>, id: nat)
    decreases items, 1
  {
    exists i :: 0 <= i < |items| && ItemHolds(items[i], id)
  }

  ghost predicate ItemHolds(item: PhraseContent, id: nat)
    decreases item, 0
  {
    match item
    case NoteItem(_) => false
    case ChordItem(_) => false
    case PhraseItem(q) => ItemsHold(q.content, id)
    case MultiVoiceItem(mv) => MultiVoiceHolds(mv, id)
  }

  /** The multivoice has the id, or one below its voices has. */
  ghost predicate MultiVoiceHolds(mv: MultiVoice, id: nat)
    decreases mv, 1
  {
    mv.id == id || exists k :: 0 <= k < |mv.voices| && ItemsHold(mv.voices[k].content, id)
  }

  /** Every multivoice below the items, depth first: the items in order,
      a multivoice before the multivoices inside its voices. */
  function ItemsMultiVoices(items: seq<PhraseContent>): seq<MultiVoice>
    decreases items, 2
  {
    if items == [] then []
    else
      var n := |items| - 1;
      ItemsMultiVoices(items[..n]) + ItemMultiVoices(items[n])
  }

  function ItemMultiVoices(item: PhraseContent): seq<MultiVoice>
    decreases item, 1
  {
    match item
    case NoteItem(_) => []
    case ChordItem(_) => []
    case PhraseItem(q) => ItemsMultiVoices(q.content)
    case MultiVoiceItem(mv) => MultiVoicesFrom(mv)
  }

  /** The multivoice itself, then those below its voices in order. */
  function MultiVoicesFrom(mv: MultiVoice): seq<MultiVoice>
    decreases mv, 2
  {
    [mv] + VoicesMultiVoices(mv.voices)
  }

  function VoicesMultiVoices(voices: seq<Phrase>): seq<MultiVoice>
    decreases voices, 2
  {
    if voices == [] then []
    else
      var n := |voices| - 1;
      VoicesMultiVoices(voices[..n]) + ItemsMultiVoices(voices[n].content)
  }

  /** The first multivoice of the list with the id. */
  function FirstWithId(mvs: seq<MultiVoice>, id: nat): (r: Option<MultiVoice>)
    ensures r.Some? ==> r.value in mvs && r.value.id == id
    ensures r.None? <==> forall k :: 0 <= k < |mvs| ==> mvs[k].id != id
    ensures forall k :: (0 <= k < |mvs| && mvs[k].id == id
                         && (forall j :: 0 <= j < k ==> mvs[j].id != id))
                       ==> r == Some(mvs[k])
  {
    if mvs == [] then Option.None
    else if mvs[0].id == id then Some(mvs[0])
    else
      assert forall k :: 1 <= k < |mvs| ==> mvs[1..][k - 1] == mvs[k];
      FirstWithId(mvs[1..], id)
  }

  /** Searching two lists is searching the first, then the second. */
  lemma {:induction false} FirstWithIdAppend(a: seq<MultiVoice>, b: seq<MultiVoice>, id: nat)
    ensures FirstWithId(a + b, id) == if FirstWithId(a, id).Some? then FirstWithId(a, id) else FirstWithId(b, id)
    decreases |a|
  {
    if a != [] {
      assert (a + b)[0] == a[0] && (a + b)[1..] == a[1..] + b;
      FirstWithIdAppend(a[1..], b, id);
    } else {
      assert a + b == b;
    }
  }

  /** `Phrase::get_multivoice`: the first multivoice with the id, searching
      the items in order and each item depth first. */
  function GetMultiVoice(p: Phrase, id: nat): (r: Option<MultiVoice>)
    ensures r == FirstWithId(ItemsMultiVoices(p.content), id)
    ensures r.Some? <==> ItemsHold(p.content, id)
    ensures r.Some? ==> r.value.id == id
  {
    FindInItems(p.content, id)
  }

  /** The `find_map` over the items. */
  function FindInItems(items: seq<PhraseContent>, id: nat): (r: Option<MultiVoice>)
    ensures r == FirstWithId(ItemsMultiVoices(items), id)
    ensures r.Some? <==> ItemsHold(items, id)
    ensures r.Some? ==> r.value.id == id
    decreases items, 2
  {
    if items == [] then Option.None
    else
      var n := |items| - 1;
      assert forall i :: 0 <= i < n ==> items[..n][i] == items[i];
      FirstWithIdAppend(ItemsMultiVoices(items[..n]), ItemMultiVoices(items[n]), id);
      var first := FindInItems(items[..n], id);
      if first.Some? then first else FindInItem(items[n], id)
  }

  function FindInItem(item: PhraseContent, id: nat): (r: Option<MultiVoice>)
    ensures r == FirstWithId(ItemMultiVoices(item), id)
    ensures r.Some? <==> ItemHolds(item, id)
    ensures r.Some? ==> r.value.id == id
    decreases item, 1
  {
    match item
    case NoteItem(_) => Option.None
    case ChordItem(_) => Option.None
    case PhraseItem(q) => FindInItems(q.content, id)
    case MultiVoiceItem(mv) => MultiVoiceGet(mv, id)
  }

  /** `MultiVoice::get_multivoice`: itself when the id matches, otherwise
      the first found below its voices, in order. */
  function MultiVoiceGet(mv: MultiVoice, id: nat): (r: Option<MultiVoice>)
    ensures r == FirstWithId(MultiVoicesFrom(mv), id)
    ensures r.Some? <==> MultiVoiceHolds(mv, id)
    ensures r.Some? ==> r.value.id == id
    ensures mv.id == id ==> r == Some(mv)
    decreases mv, 2
  {
    assert MultiVoicesFrom(mv)[1..] == VoicesMultiVoices(mv.voices);
    if mv.id == id then Some(mv) else FindInVoices(mv.voices, id)
  }

  function FindInVoices(voices: seq<Phrase>, id: nat): (r: Option<MultiVoice>)
    ensures r == FirstWithId(VoicesMultiVoices(voices), id)
    ensures r.Some? <==> exists k :: 0 <= k < |voices| && ItemsHold(voices[k].content, id)
    ensures r.Some? ==> r.value.id == id
    decreases voices, 2
  {
    if voices == [] then Option.None
    else
      var n := |voices| - 1;
      assert forall k :: 0 <= k < n ==> voices[..n][k] == voices[k];
      FirstWithIdAppend(VoicesMultiVoices(voices[..n]), ItemsMultiVoices(voices[n].content), id);
      var first := FindInVoices(voices[..n], id);
      if first.Some? then first else FindInItems(voices[n].content, id)
  }

  // ---------------------------------------------------------------------
  // Equality

  /** The types of the phrase's modifications, in set order. */
  function ModKinds(mods: seq<P.PhraseModification>): (r: seq<P.PhraseModificationType>)
    ensures |r| == |mods|
    ensures forall i :: 0 <= i < |r| ==> r[i] == mods[i].kind
  {
    seq(|mods|, i requires 0 <= i < |mods| => mods[i].kind)
  }

  /** `PartialEq for Phrase`: equal items position by position and equal
      modification types; ids are not compared. */
  predicate SamePhrase(a: Phrase, b: Phrase)
    decreases a, 2
  {
    SameItems(a.content, b.content) && ModKinds(a.modifications) == ModKinds(b.modifications)
  }

  /** The derived `PartialEq for PhraseContent`: the same kind of item, and
      equal under that kind's own equality. */
  predicate SameItems(a: seq<PhraseContent>, b: seq<PhraseContent>)
    decreases a, 1
  {
    |a| == |b| && forall i :: 0 <= i < |a| ==> SameItem(a[i], b[i])
  }

  predicate SameItem(a: PhraseContent, b: PhraseContent)
    decreases a, 0
  {
    match a
    case NoteItem(n) => b.NoteItem? && SameNote(n, b.note)
    case ChordItem(c) => b.ChordItem? && SameChord(c, b.chord)
    case PhraseItem(q) => b.PhraseItem? && SamePhrase(q, b.phrase)
    case MultiVoiceItem(m) => b.MultiVoiceItem? && SameVoices(m.voices, b.multivoice.voices)
  }

  /** `PartialEq for MultiVoice`: equal voices position by position. */
  predicate SameVoices(a: seq<Phrase>, b: seq<Phrase>)
    decreases a, 1
  {
    |a| == |b| && forall k :: 0 <= k < |a| ==> SamePhrase(a[k], b[k])
  }

  /** Every phrase equals itself, all the way down. */
  lemma {:induction false} SamePhraseReflexive(p: Phrase)
    ensures SamePhrase(p, p)
    decreases p, 2
  {
    SameItemsReflexive(p.content);
  }

  lemma {:induction false} SameItemsReflexive(items: seq<PhraseContent>)
    ensures SameItems(items, items)
    decreases items, 1
  {
    forall i | 0 <= i < |items| ensures SameItem(items[i], items[i]) {
      SameItemReflexive(items[i]);
    }
  }

  lemma {:induction false} SameItemReflexive(item: PhraseContent)
    ensures SameItem(item, item)
    decreases item, 0
  {
    match item
    case NoteItem(_) =>
    case ChordItem(_) =>
    case PhraseItem(q) => SamePhraseReflexive(q);
    case MultiVoiceItem(m) =>
      forall k | 0 <= k < |m.voices| ensures SamePhrase(m.voices[k], m.voices[k]) {
        SamePhraseReflexive(m.voices[k]);
      }
  }

  // ---------------------------------------------------------------------
  // The triplet of the source's tests

  const C4 := Pitch(C, 4)
  const QuarterNote := Duration(Quarter, 0)

  /** Three quarter notes in a phrase, the ids standing for fresh ones. */
  function ThreeQuarters(): Phrase {
    AddNote(AddNote(AddNote(NewPhrase(0), C4, QuarterNote, Option.None, 1), C4, QuarterNote, Option.None, 2),
            C4, QuarterNote, Option.None, 3)
  }

  /** A quarter note lasts one quarter-note beat. */
  lemma {:induction false} QuarterIsOneBeat(freshId: nat)
    ensures GetBeats(NewNote(C4, QuarterNote, Option.None, freshId), QuarterNote, Option.None) == 1.0
  {
    var n := NewNote(C4, QuarterNote, Option.None, freshId);
    assert Value(QuarterNote) == 0.25;
    assert !IsGraceNote(n);
    assert NoteBeats(n, 0.25) * 0.25 == 0.25;
  }

  /** Under a ratio a quarter note lasts that ratio of a beat. */
  lemma {:induction false} QuarterUnderRatio(freshId: nat, ratio: real)
    ensures GetBeats(NewNote(C4, QuarterNote, Option.None, freshId), QuarterNote, Some(ratio)) == ratio
  {
    QuarterIsOneBeat(freshId);
  }

  /** Three quarters at 120 quarters per minute last 1.5 seconds, and 1.0
      second once the phrase is made a 3:2 tuplet. */
  lemma {:induction false} TripletDuration()
    ensures PhraseDuration(ThreeQuarters(), Tempos.DefaultTempo, Option.None) == Some(1.5)
    ensures var t := AddModification(ThreeQuarters(), P.Tuplet(3, 2), 4).0;
      Measured(t) && PhraseDuration(t, Tempos.DefaultTempo, Option.None) == Some(1.0)
  {
    var p := ThreeQuarters();
    var items := p.content;
    assert |items| == 3;
    QuarterIsOneBeat(1);
    QuarterIsOneBeat(2);
    QuarterIsOneBeat(3);
    assert items[..2][..1] == items[..1] && items[..1][..0] == [];
    assert ItemsBeats(items[..1], QuarterNote, Option.None) == 1.0;
    assert items[..3][..2] == items[..2];
    assert ItemsBeats(items[..2], QuarterNote, Option.None) == 2.0;
    assert items[..3] == items;
    assert PhraseBeats(p, QuarterNote, Option.None) == 3.0;

    var t := AddModification(p, P.Tuplet(3, 2), 4).0;
    assert t.modifications == [P.PhraseModification(4, P.Tuplet(3, 2))];
    assert Measured(t);
    var ratio := InnerRatio(Option.None, t.modifications);
    assert ratio == Some(2.0 / 3.0);
    QuarterUnderRatio(1, 2.0 / 3.0);
    QuarterUnderRatio(2, 2.0 / 3.0);
    QuarterUnderRatio(3, 2.0 / 3.0);
    assert t.content == items;
    assert ItemsBeats(items[..1], QuarterNote, ratio) == 2.0 / 3.0;
    assert ItemsBeats(items[..2], QuarterNote, ratio) == 4.0 / 3.0;
    assert PhraseBeats(t, QuarterNote, Option.None) == 2.0;
  }
}

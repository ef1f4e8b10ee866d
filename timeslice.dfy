/** Timeslices: everything that starts sounding at one instant of one part,
    namely notes with their phrase context, directions and tempo changes. */
module Timeslices {
  import opened Wrappers
  import opened Durations
  import opened Pitches
  import opened Accidentals
  import Keys
  import Tempos
  import TimeSignatures
  import opened ModSets
  import opened Notes
  import P = PhraseModifications
  import S = SectionModifications
  import D = Directions

  datatype TimesliceContext = TimesliceContext(key: Keys.Key, originalTempo: Tempos.Tempo,
                                               currentTempo: Tempos.Tempo, timeSignature: TimeSignatures.TimeSignature)

  /** Where a note stands within one enclosing phrase. */
  datatype TimeslicePhraseDetails = TimeslicePhraseDetails(
    modifications: seq<P.PhraseModificationType>, indexInPhrase: nat, phraseLength: nat,
    nextPitch: Pitch, nextAccidental: Accidental)

  /** A note and the details of each phrase around it, innermost first. */
  datatype TimesliceContent = TimesliceContent(note: Note, phraseDetails: seq<TimeslicePhraseDetails>)

  /** `TimesliceContent::new`: the note, without phrase details. */
  function NewContent(note: Note): (c: TimesliceContent)
    ensures c.note == note && c.phraseDetails == []
  {
    TimesliceContent(note, [])
  }

  /** `TimesliceContent::add_phrase_details`: one more entry, last, with the
      given position, no modifications, and a rest as the next pitch until
      the next slice is known. */
  function AddPhraseDetails(c: TimesliceContent, indexInPhrase: nat, phraseLength: nat): (r: TimesliceContent)
    ensures r.note == c.note && |r.phraseDetails| == |c.phraseDetails| + 1
    ensures r.phraseDetails[..|c.phraseDetails|] == c.phraseDetails
    ensures var d := r.phraseDetails[|c.phraseDetails|];
      d.modifications == [] && d.indexInPhrase == indexInPhrase && d.phraseLength == phraseLength
      && d.nextPitch == NewRest() && d.nextAccidental == Accidental.None
  {
    c.(phraseDetails := c.phraseDetails + [TimeslicePhraseDetails([], indexInPhrase, phraseLength, NewRest(), Accidental.None)])
  }

  /** Position of the first tuplet among phrase modifications, or their
      count when there is none. */
  function FirstTupletIndex(mods: seq<P.PhraseModificationType>): (i: nat)
    ensures i <= |mods|
    ensures i < |mods| ==> mods[i].Tuplet?
    ensures forall j :: 0 <= j < i ==> !mods[j].Tuplet?
  {
    if mods == [] || mods[0].Tuplet? then 0 else 1 + FirstTupletIndex(mods[1..])
  }

  /** Whether some modification of the phrase is a tuplet. */
  predicate HasTuplet(d: TimeslicePhraseDetails) {
    FirstTupletIndex(d.modifications) < |d.modifications|
  }

  /** Position of the first phrase detail holding a tuplet, or their count
      when none does. */
  function FirstTupletDetail(details: seq<TimeslicePhraseDetails>): (k: nat)
    ensures k <= |details|
    ensures k < |details| ==> HasTuplet(details[k])
    ensures forall j :: 0 <= j < k ==> !HasTuplet(details[j])
  {
    if details == [] || HasTuplet(details[0]) then 0 else 1 + FirstTupletDetail(details[1..])
  }

  /** `find_map` over the phrase details: the first tuplet of the first
      detail that has one. */
  function FirstTuplet(details: seq<TimeslicePhraseDetails>): (r: Option<P.PhraseModificationType>)
    ensures r.None? <==> forall k :: 0 <= k < |details| ==> !HasTuplet(details[k])
    ensures r.Some? ==> r.value.Tuplet? && var k := FirstTupletDetail(details);
      k < |details| && r.value == details[k].modifications[FirstTupletIndex(details[k].modifications)]
  {
    var k := FirstTupletDetail(details);
    if k == |details| then Option.None
    else Some(details[k].modifications[FirstTupletIndex(details[k].modifications)])
  }

  /** The tuplet that decides the ratio does not squeeze zero beats. */
  predicate TupletHasBeats(details: seq<TimeslicePhraseDetails>) {
    FirstTuplet(details).Some? ==> FirstTuplet(details).value.numBeats > 0
  }

  /** The ratio `into_beats / num_beats` of the first tuplet, if any. */
  function TupletRatio(details: seq<TimeslicePhraseDetails>): (r: Option<real>)
    requires TupletHasBeats(details)
    ensures r.None? <==> FirstTuplet(details).None?
    ensures r.Some? ==> r.value * FirstTuplet(details).value.numBeats as real == FirstTuplet(details).value.intoBeats as real
  {
    match FirstTuplet(details)
    case None => Option.None
    case Some(t) =>
      DivThenMul(t.intoBeats as real, t.numBeats as real);
      Some(t.intoBeats as real / t.numBeats as real)
  }

  /** `TimesliceContent::get_beats`: the note's beats under the first
      tuplet ratio of its phrases. */
  function ContentBeats(c: TimesliceContent, beatBase: Duration): (r: real)
    requires TupletHasBeats(c.phraseDetails)
    ensures IsGraceNote(c.note) ==> r == 0.0
    ensures FirstTuplet(c.phraseDetails).None? ==> r == NoteBeats(c.note, BaseValue(beatBase))
  {
    GetBeats(c.note, beatBase, TupletRatio(c.phraseDetails))
  }

  /** A slice: its notes in order, whether they are arpeggiated, and the
      directions and tempo changes that take effect with it. */
  datatype Timeslice = Timeslice(arpeggiated: bool, content: seq<TimesliceContent>,
                                 directions: seq<D.Direction>, tempoDetails: seq<S.SectionModificationType>)

  /** The two ordered sets are sets: one direction and one tempo detail per
      variant, in variant order. */
  predicate ValidTimeslice(t: Timeslice) {
    Sorted(t.directions, D.ModRank) && Sorted(t.tempoDetails, S.Rank)
  }

  /** `Timeslice::new`: not arpeggiated and empty. */
  function NewTimeslice(): (t: Timeslice)
    ensures !t.arpeggiated && t.content == [] && t.directions == [] && t.tempoDetails == []
    ensures ValidTimeslice(t)
  {
    Timeslice(false, [], [], [])
  }

  /** `Timeslice::add_note`: one more content entry, last, without phrase
      details. */
  function WithNote(t: Timeslice, note: Note): (r: Timeslice)
    ensures r.content == t.content + [NewContent(note)]
    ensures r.arpeggiated == t.arpeggiated && r.directions == t.directions && r.tempoDetails == t.tempoDetails
  {
    t.(content := t.content + [NewContent(note)])
  }

  /** `Timeslice::add_direction`: the direction replaces any of its variant,
      so the latest one of each variant wins. */
  function WithDirection(t: Timeslice, d: D.Direction): (r: Timeslice)
    requires ValidTimeslice(t)
    ensures ValidTimeslice(r)
    ensures r == t.(directions := r.directions)
    ensures d in r.directions
    ensures forall x :: x in r.directions && D.Rank(x.kind) == D.Rank(d.kind) ==> x == d
    ensures forall x :: x in r.directions <==> x == d || (x in t.directions && D.Rank(x.kind) != D.Rank(d.kind))
  {
    t.(directions := Replace(t.directions, d, D.ModRank))
  }

  /** `Timeslice::add_tempo_details`: `OnlyPlay` and `Repeat` are ignored;
      another type goes in unless one of its variant is already there, which
      is then kept. */
  function WithTempoDetails(t: Timeslice, detail: S.SectionModificationType): (r: Timeslice)
    requires ValidTimeslice(t)
    ensures ValidTimeslice(r)
    ensures r == t.(tempoDetails := r.tempoDetails)
    ensures !S.IsTempoDetail(detail) ==> r == t
    ensures (exists x :: x in t.tempoDetails && S.Rank(x) == S.Rank(detail)) ==> r == t
    ensures S.IsTempoDetail(detail) && (forall x :: x in t.tempoDetails ==> S.Rank(x) != S.Rank(detail)) ==>
      forall x :: x in r.tempoDetails <==> x == detail || x in t.tempoDetails
  {
    if S.IsTempoDetail(detail) then t.(tempoDetails := Insert(t.tempoDetails, detail, S.Rank)) else t
  }

  /** `Timeslice::combine_with`: arpeggiated if either is; the other slice's
      notes follow this one's; its directions and tempo details join these,
      winning over any of the same variant. */
  function Combined(t: Timeslice, other: Timeslice): (r: Timeslice)
    requires ValidTimeslice(t) && ValidTimeslice(other)
    ensures ValidTimeslice(r)
    ensures r.arpeggiated == (t.arpeggiated || other.arpeggiated)
    ensures r.content == t.content + other.content
    ensures forall x :: x in r.directions <==>
      x in other.directions || (x in t.directions && forall y :: y in other.directions ==> D.ModRank(y) != D.ModRank(x))
    ensures forall x :: x in r.tempoDetails <==>
      x in other.tempoDetails || (x in t.tempoDetails && forall y :: y in other.tempoDetails ==> S.Rank(y) != S.Rank(x))
  {
    Timeslice(t.arpeggiated || other.arpeggiated, t.content + other.content,
              Append(t.directions, other.directions, D.ModRank),
              Append(t.tempoDetails, other.tempoDetails, S.Rank))
  }

  /** Combining with an empty slice changes nothing. */
  lemma {:induction false} CombineWithEmpty(t: Timeslice)
    requires ValidTimeslice(t)
    ensures Combined(t, NewTimeslice()) == t
  {
  }

  /** Every content entry can be measured. */
  predicate Measurable(t: Timeslice) {
    forall i :: 0 <= i < |t.content| ==> TupletHasBeats(t.content[i].phraseDetails)
  }

  /** The beats of the entries that are not grace notes, in order. */
  function SoundingBeats(content: seq<TimesliceContent>, beatBase: Duration): (r: seq<real>)
    requires forall i :: 0 <= i < |content| ==> TupletHasBeats(content[i].phraseDetails)
    ensures |r| <= |content|
    ensures forall b :: b in r <==> exists i :: 0 <= i < |content| && !IsGraceNote(content[i].note) && b == ContentBeats(content[i], beatBase)
  {
    if content == [] then []
    else
      var rest := SoundingBeats(content[1..], beatBase);
      assert forall b :: ((exists i :: 1 <= i < |content| && !IsGraceNote(content[i].note) && b == ContentBeats(content[i], beatBase))
        <==> b in rest) by {
        forall b ensures (exists i :: 1 <= i < |content| && !IsGraceNote(content[i].note) && b == ContentBeats(content[i], beatBase)) ==> b in rest {
          if exists i :: 1 <= i < |content| && !IsGraceNote(content[i].note) && b == ContentBeats(content[i], beatBase) {
            var i :| 1 <= i < |content| && !IsGraceNote(content[i].note) && b == ContentBeats(content[i], beatBase);
            assert content[1..][i - 1] == content[i];
          }
        }
      }
      (if IsGraceNote(content[0].note) then [] else [ContentBeats(content[0], beatBase)]) + rest
  }

  /** `reduce(f64::min)`: the smallest value, folding from the left. */
  function MinOf(xs: seq<real>): (m: real)
    requires xs != []
    ensures m in xs && forall x :: x in xs ==> m <= x
  {
    if |xs| == 1 then xs[0]
    else
      var m := MinOf(xs[..|xs| - 1]);
      assert forall x :: x in xs ==> x in xs[..|xs| - 1] || x == xs[|xs| - 1];
      if xs[|xs| - 1] < m then xs[|xs| - 1] else m
  }

  /** `Timeslice::get_beats`: the shortest of the notes that are not grace
      notes, or 0 when there are none. */
  function TimesliceBeats(t: Timeslice, beatBase: Duration): (r: real)
    requires Measurable(t)
    ensures (forall i :: 0 <= i < |t.content| ==> IsGraceNote(t.content[i].note)) ==> r == 0.0
    ensures forall i :: 0 <= i < |t.content| && !IsGraceNote(t.content[i].note) ==> r <= ContentBeats(t.content[i], beatBase)
    ensures (exists i :: 0 <= i < |t.content| && !IsGraceNote(t.content[i].note)) ==>
      exists i :: 0 <= i < |t.content| && !IsGraceNote(t.content[i].note) && r == ContentBeats(t.content[i], beatBase)
  {
    var beats := SoundingBeats(t.content, beatBase);
    assert forall i :: 0 <= i < |t.content| && !IsGraceNote(t.content[i].note) ==> ContentBeats(t.content[i], beatBase) in beats;
    if beats == [] then 0.0
    else
      MinOf(beats)
  }

  /** `Direction::to_timeslice`: a new slice holding a clone of the direction
      (under a fresh id) and nothing else. */
  function DirectionToTimeslice(d: D.Direction, freshId: nat): (t: Timeslice)
    ensures ValidTimeslice(t)
    ensures |t.directions| == 1 && D.SameModification(t.directions[0], d) && t.directions[0].id == freshId
    ensures t.content == [] && t.tempoDetails == [] && !t.arpeggiated
  {
    WithDirection(NewTimeslice(), D.CloneModification(d, freshId))
  }

  /** `Note::to_timeslice`: a new slice holding a clone of the note. */
  function NoteToTimeslice(n: Note, freshId: nat, freshModIds: seq<nat>): (t: Timeslice)
    requires |freshModIds| == |n.modifications|
    ensures ValidTimeslice(t)
    ensures |t.content| == 1 && SameNote(t.content[0].note, n) && t.content[0].note.id == freshId
    ensures t.content[0].phraseDetails == []
    ensures t.directions == [] && t.tempoDetails == [] && !t.arpeggiated
  {
    WithNote(NewTimeslice(), CloneNote(n, freshId, freshModIds))
  }

  /** A `Timeslice` owned at one place and edited there through `&mut self`;
      each method is specified by the function of the same name above. */
  class TimesliceCell {
    var arpeggiated: bool
    var content: seq<TimesliceContent>
    var directions: seq<D.Direction>
    var tempoDetails: seq<S.SectionModificationType>

    /** The slice currently held. */
    function Value(): Timeslice
      reads this
    {
      Timeslice(arpeggiated, content, directions, tempoDetails)
    }

    constructor ()
      ensures Value() == NewTimeslice()
    {
      arpeggiated := false;
      content := [];
      directions := [];
      tempoDetails := [];
    }

    method AddNote(note: Note)
      modifies this
      ensures Value() == WithNote(old(Value()), note)
    {
      content := content + [NewContent(note)];
    }

    method AddDirection(d: D.Direction)
      requires ValidTimeslice(Value())
      modifies this
      ensures Value() == WithDirection(old(Value()), d)
    {
      directions := Replace(directions, d, D.ModRank);
    }

    method AddTempoDetails(detail: S.SectionModificationType)
      requires ValidTimeslice(Value())
      modifies this
      ensures Value() == WithTempoDetails(old(Value()), detail)
    {
      if S.IsTempoDetail(detail) {
        tempoDetails := Insert(tempoDetails, detail, S.Rank);
      }
    }

    /** `combine_with`: moves everything of `other` into this slice, leaving
      `other` with no content, directions or tempo details. */
    method CombineWith(other: TimesliceCell)
      requires other != this
      requires ValidTimeslice(Value()) && ValidTimeslice(other.Value())
      modifies this, other
      ensures Value() == Combined(old(Value()), old(other.Value()))
      ensures other.content == [] && other.directions == [] && other.tempoDetails == []
      ensures other.arpeggiated == old(other.arpeggiated)
    {
      arpeggiated := arpeggiated || other.arpeggiated;
      content := content + other.content;
      other.content := [];
      directions := Append(directions, other.directions, D.ModRank);
      other.directions := [];
      tempoDetails := Append(tempoDetails, other.tempoDetails, S.Rank);
      other.tempoDetails := [];
    }
  }

  /** The slices of all parts at one instant, by part name. */
  datatype PartTimeslice = PartTimeslice(timeslices: map<string, Timeslice>)

  /** `PartTimeslice::new`. */
  function NewPartTimeslice(): (p: PartTimeslice)
    ensures p.timeslices == map[]
  {
    PartTimeslice(map[])
  }

  /** `PartTimeslice::from`: one part's slice. */
  function PartTimesliceFrom(partName: string, t: Timeslice): (p: PartTimeslice)
    ensures p.timeslices.Keys == {partName} && p.timeslices[partName] == t
  {
    PartTimeslice(map[partName := t])
  }

  /** `PartTimeslice::add_timeslice`: stores the slice under the part name,
      replacing any slice already there. */
  function AddTimeslice(p: PartTimeslice, partName: string, t: Timeslice): (r: PartTimeslice)
    ensures r.timeslices.Keys == p.timeslices.Keys + {partName}
    ensures r.timeslices[partName] == t
    ensures forall name :: name in p.timeslices && name != partName ==> r.timeslices[name] == p.timeslices[name]
  {
    PartTimeslice(p.timeslices[partName := t])
  }

  /** `PartTimeslice::get_timeslice_for`. */
  function GetTimesliceFor(p: PartTimeslice, partName: string): (r: Option<Timeslice>)
    ensures r.Some? <==> partName in p.timeslices
    ensures r.Some? ==> r.value == p.timeslices[partName]
  {
    if partName in p.timeslices then Some(p.timeslices[partName]) else Option.None
  }

  /** What was added under a name is what is found there, until it is
      replaced. */
  lemma {:induction false} AddThenGet(p: PartTimeslice, name: string, other: string, t: Timeslice)
    ensures GetTimesliceFor(AddTimeslice(p, name, t), name) == Some(t)
    ensures other != name ==> GetTimesliceFor(AddTimeslice(p, name, t), other) == GetTimesliceFor(p, other)
  {
  }
}

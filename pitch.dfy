/** Pitches: a letter name and an octave, and their signed semitone distance
    from A4. */
module Pitches {
  import opened Ints
  import opened Orderings

  datatype PitchName = Rest | A | B | C | D | E | F | G

  /** The default pitch name is `Rest`. */
  const DefaultPitchName := Rest

  /** Position of a letter within the enumeration (`PitchName::index`). */
  function NameIndex(n: PitchName): (i: nat)
    ensures i < 8
    ensures (i == 0) == (n == Rest)
  {
    match n
    case Rest => 0
    case A => 1
    case B => 2
    case C => 3
    case D => 4
    case E => 5
    case F => 6
    case G => 7
  }

  datatype Pitch = Pitch(name: PitchName, octave: U8)

  /** `Pitch::new`: the letter and octave as given. */
  function NewPitch(name: PitchName, octave: U8): (p: Pitch)
    ensures p.name == name && p.octave == octave
  {
    Pitch(name, octave)
  }

  /** `Pitch::new_rest`: the unvoiced pitch, at octave 0. */
  function NewRest(): (p: Pitch)
    ensures p.name == Rest && p.octave == 0
    ensures IsRest(p)
  {
    Pitch(Rest, 0)
  }

  /** `Pitch::is_rest`. */
  predicate IsRest(p: Pitch) {
    p.name == Rest
  }

  /** The semitones of a letter above its octave's reference (A or C) and the
      reference's distance below A4, as written in the source. */
  function LetterStep(n: PitchName): (U8, int) {
    match n
    case Rest => (0, 0)
    case A => (0, 48)
    case B => (2, 48)
    case C => (3, 60)
    case D => (5, 60)
    case E => (7, 60)
    case F => (8, 60)
    case G => (10, 60)
  }

  /** The semitone distance from A4, computed as the source does with `u8`
      products and sums, an `as i8` reinterpretation and an `i8` subtraction,
      all wrapping. */
  function Offset(p: Pitch): (r: I8)
    ensures p.name == Rest ==> r == 0
  {
    if p.name == Rest then 0
    else
      var (step, reference) := LetterStep(p.name);
      WrapI8(AsI8(WrapU8(step + WrapU8(12 * p.octave))) - reference)
  }

  /** `Pitch::value`: the letter's index and the semitone distance from A4. */
  function PitchValue(p: Pitch): (r: (nat, I8))
    ensures r.0 == NameIndex(p.name)
    ensures r.1 == Offset(p)
    ensures IsRest(p) ==> r == (0, 0)
  {
    (NameIndex(p.name), Offset(p))
  }

  /** Without wrap-around: the reference step plus twelve semitones per octave. */
  function ExactOffset(n: PitchName, octave: int): int
    requires n != Rest
  {
    LetterStep(n).0 + 12 * octave - LetterStep(n).1
  }

  /** Whatever wraps on the way, the result is the exact distance reduced
      into the `i8` range. */
  lemma {:induction false} OffsetWrapsExact(p: Pitch)
    requires p.name != Rest
    ensures Offset(p) == WrapI8(ExactOffset(p.name, p.octave))
  {
    var (step, reference) := LetterStep(p.name);
    var x := WrapU8(12 * p.octave);
    var y := WrapU8(step + x);
    var z := AsI8(y);
    CongruentShift(x, 12 * p.octave, step);
    CongruentTrans(y, step + x, step + 12 * p.octave);
    CongruentTrans(z, y, step + 12 * p.octave);
    CongruentShift(z, step + 12 * p.octave, -reference);
    WrapI8Congruent(z - reference, ExactOffset(p.name, p.octave));
  }

  /** Up to octave 9 no product, sum, cast or subtraction leaves its
      8-bit range: the source's arithmetic is exact there, in debug builds
      as in release builds. */
  lemma {:induction false} NoWrapUpToNine(p: Pitch)
    requires p.name != Rest && p.octave <= 9
    ensures 0 <= LetterStep(p.name).0 + 12 * p.octave < 128
    ensures -128 <= LetterStep(p.name).0 + 12 * p.octave - LetterStep(p.name).1 < 128
    ensures Offset(p) == ExactOffset(p.name, p.octave)
  {
  }

  /** Up to octave 14 the result is still the exact distance: from octave
      10 on (G10 already) the `as i8` cast wraps, but the wrapping `i8`
      subtraction after it wraps back, so the two cancel.  A debug build
      panics on that subtraction instead; the model follows the wrapping
      release build. */
  lemma {:induction false} OffsetExact(p: Pitch)
    requires p.name != Rest && p.octave <= 14
    ensures Offset(p) == ExactOffset(p.name, p.octave)
  {
    OffsetWrapsExact(p);
  }

  /** Up to octave 14 each octave adds twelve semitones. */
  lemma {:induction false} OctaveStep(n: PitchName, octave: U8)
    requires n != Rest && octave < 14
    ensures Offset(Pitch(n, octave + 1)) == Offset(Pitch(n, octave)) + 12
  {
    OffsetExact(Pitch(n, octave + 1));
    OffsetExact(Pitch(n, octave));
  }

  /** Past the `i8` range the distance wraps: G15 lands far below G14. */
  lemma {:induction false} OctaveWraps()
    ensures Offset(Pitch(G, 14)) == 118
    ensures Offset(Pitch(G, 15)) == -126
  {
  }

  lemma {:induction false} ReferencePitches()
    ensures Offset(Pitch(A, 4)) == 0
    ensures Offset(Pitch(C, 4)) == -9
    ensures Offset(Pitch(C, 5)) == 3
  {
  }

  /** `Ord for Pitch`: only the semitone distances are compared. */
  function ComparePitch(p: Pitch, q: Pitch): (r: Ordering)
    ensures r == Equal <==> Offset(p) == Offset(q)
    ensures r == Less <==> Offset(p) < Offset(q)
  {
    CompareInt(PitchValue(p).1, PitchValue(q).1)
  }

  /** The order is a total preorder: reversing the arguments reverses the result,
      and it is transitive. */
  lemma {:induction false} ComparePitchPreorder(p: Pitch, q: Pitch, s: Pitch)
    ensures ComparePitch(p, q) == Less <==> ComparePitch(q, p) == Greater
    ensures ComparePitch(p, q) != Greater && ComparePitch(q, s) != Greater ==> ComparePitch(p, s) != Greater
  {
  }

  /** A rest and A4 compare Equal although they are different pitches. */
  lemma {:induction false} RestEqualsA4()
    ensures ComparePitch(NewRest(), Pitch(A, 4)) == Equal
    ensures NewRest() != Pitch(A, 4)
  {
  }
}

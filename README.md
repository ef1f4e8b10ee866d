# A verified model of the amm-sdk music-notation core

This project models, in Dafny, the core of the amm-sdk music-notation
library: the value types of a score, the score tree, and the timeslice
engine that turns a score into a playback order.

- **Values.** Note durations are dotted powers of two, split, rebuilt from a beat count and tied
  (`Durations`). Also modelled: pitches and their semitone distance from A4 (`Pitches`), accidentals,
  notes and their MIDI numbers (`Notes`), key signatures on the circle of fifths (`Keys`), and time
  signatures, clefs, tempos and tempo markings.
- **Modifications.** Note, chord, phrase, section and direction modifications are kept in sets that
  compare only the variant (`ModSets`), so a set holds at most one modification of each kind. The
  note and chord tables convert into each other (`ModConversion`).
- **The score tree.** A chord sits in a phrase or multivoice, which sits in a staff, then a section,
  then a part (`Chords`, `Phrases`, `Staves`, `Sections`, `Parts`). The model covers the edits (add,
  insert, claim, recursive removal), `simplify` run to a fixed point, `flatten`, and the beat totals,
  which sum, take the maximum or the minimum according to the node and compose tuplet ratios. It
  also covers repeat and only-play iteration selection.
- **The timeslice engine.** A timeslice is what starts at one instant. The model covers combining
  timeslices (`Timeslices`) and placing them into a list ordered by start time (`Temporal`). It also
  covers the countdown merge of a multivoice's voices (`VoiceMerge`). The phrase, staff, section and
  part iterators are classes proved to hand out exactly the slices that a recursive function
  describes (`PhraseSlices`, `Staves`, `Sections`, `Parts`).
- **Scanners and converters.** The model covers the hand-written JSON scanners (`Json`) and the
  MIDI loader's tie splitting and key-to-pitch conversion (`Midi`). From the MusicXML loader it
  covers the divisions-to-duration conversion, the cursor bookkeeping and the modification-range
  phases (`MusicXml`, `MusicXmlModRanges`).

Beats and durations are exact `real`s: every duration is a sum of powers of two, and every tuplet
ratio is a ratio of small integers. The source's `u8`/`i8` fields are ranges of `int`, and
wrap-around is written out where the source relies on it (`Ints`, `Pitches`). An object id is a
natural number passed in as a `freshId` parameter. Equality ignores ids, as the source's
`PartialEq` implementations do.

Where the source updates an object in place, the model uses a class with `modifies` clauses:
- the timeslice iterators;
- `Part`;
- `TimesliceCell` and `KeyPlace`;
- `NotePlace`, `ChordPlace` and `SectionPlace`, whose methods run the source's `retain` and `push`
  on the note's, chord's or section's own fields;
- the MusicXML range collector, which works over an array.

Each such method is proved equal to a function from the old value to the new one. The phrase,
multivoice, staff and part edits, and any edit reached through a nested `&mut` reference, are
modelled by those functions alone: the edited value is returned, and the caller writes it back.
Where the source's function is a value computation, the model uses datatypes, functions and lemmas.

## Model

| member | source | states |
|---|---|---|
| `Accidentals.AccidentalValue` | amm_sdk/src/note/accidental.rs:47-55 | the alteration is in [-2, 2]; it is 0 exactly for None and Natural, positive exactly for the sharps, ±2 exactly for the doubles |
| `Accidentals.AccidentalValues` | amm_sdk/src/note/accidental.rs:47-55 | Sharp → 1, Flat → −1, DoubleSharp → 2, DoubleFlat → −2, None and Natural → 0 |
| `Clefs.NewClef` | amm_sdk/src/context/clef.rs:71-80 | the clef type is kept; treble and French violin always get the G clef, bass and subbass the F clef, tenor, alto, soprano and mezzo-soprano the C clef, baritone the requested symbol or the C clef |
| `Clefs.SymbolIgnoredUnlessBaritone` | amm_sdk/src/context/clef.rs:71-80 | for every clef type but baritone the requested symbol makes no difference |
| `Tempos.NewTempo` | amm_sdk/src/context/tempo.rs:16-22 | the base note and the beats per minute are the ones given |
| `Tempos.DefaultTempoBeat` | amm_sdk/src/context/tempo.rs:25-32 | the default tempo counts undotted quarter notes (a quarter of a whole) at 120 per minute |
| `Tempos.Seconds` | amm/src/structure/staff.rs:370-372 | the `beats * 60 / bpm` of every `get_duration`: no value exactly at 0 bpm, and otherwise the seconds times the beats per minute are sixty times the beats |
| `TempoSuggestions.NewTempoSuggestion` | amm_sdk/src/context/tempo_suggestion.rs:65-68 | the suggestion keeps the marking it is given |
| `TempoSuggestions.BpmMin` | amm_sdk/src/context/tempo_suggestion.rs:98-126 | every marking's lower bound lies between 10 and 200 bpm |
| `TempoSuggestions.BpmMax` | amm_sdk/src/context/tempo_suggestion.rs:125-148 | every marking's upper bound lies between 24 and 240 bpm |
| `TempoSuggestions.SuggestedBpm` | amm_sdk/src/context/tempo_suggestion.rs:150-174 | every marking's typical tempo lies within its lower and upper bounds |
| `TempoSuggestions.Extremes` | amm_sdk/src/context/tempo_suggestion.rs:32-34 | no marking has a lower bound below Larghissimo's or an upper bound above Prestissimo's; the default marking (Moderato) suggests 114 bpm |
| `TimeSignatures.NewTimeSignature` | amm_sdk/src/context/time_signature.rs:55-69 | the signature type is kept; common time and explicit give 4/4, cut time 2/2, none 0/0 |
| `TimeSignatures.NewExplicit` | amm_sdk/src/context/time_signature.rs:78-84 | an explicit signature with exactly the given numerator and denominator |
| `TimeSignatures.ImplicitFractions` | amm_sdk/src/context/time_signature.rs:10-18 | common time equals the explicit 4/4 and cut time the explicit 2/2 up to the type; the derived default is common time with a 0/0 fraction, so it differs from `new(CommonTime)` |
| `Keys.NewKey` | amm_sdk/src/context/key.rs:115-120 | the key has the signature and mode given |
| `Keys.FromFifths` | amm_sdk/src/context/key.rs:130-160 | the mode is the requested one (major when absent); the key has a place on the circle of fifths; a count outside −7..7 gives C |
| `Keys.Fifths` | amm_sdk/src/context/key.rs:162-195 | the count of sharps (negative for flats) is within −7..7, and is 0 for a key with no place on the circle |
| `Keys.FifthsRoundTrip` | amm_sdk/src/context/key.rs:130-195 | `from_fifths(fifths(k), k.mode) == k` for every key on the circle |
| `Keys.InvalidKeyReadsAsNatural` | amm_sdk/src/context/key.rs:130-195 | a key off the circle reads back as C major or A minor, by mode |
| `Keys.FromFifthsRoundTrip` | amm_sdk/src/context/key.rs:130-195 | for −7 ≤ f ≤ 7 and either mode, `fifths(from_fifths(f, mode)) == f` |
| `Keys.FifthsInjective` | amm_sdk/src/context/key.rs:162-195 | two keys on the circle in the same mode with the same fifths are the same key |
| `Keys.ToParallel` | amm_sdk/src/context/key.rs:201-210 | the parallel key keeps the signature and has the other mode |
| `Keys.ParallelInvolution` | amm_sdk/src/context/key.rs:201-210 | taking the parallel key twice gives the key back |
| `Keys.ToRelative` | amm_sdk/src/context/key.rs:216-223 | the relative key has the other mode, a place on the circle and the same fifths |
| `Keys.RelativeInvolution` | amm_sdk/src/context/key.rs:216-223 | taking the relative key twice gives back every key on the circle; a key off it comes back as C major or A minor |
| `Keys.RelativeExamples` | amm_sdk/src/context/key.rs:201-223 | C major ↔ A minor, E-flat major → C minor, and C major's parallel is C minor |
| `Keys.KeyAccidentals` | amm_sdk/src/context/key.rs:253-293 | eight entries, one per pitch name, and the rest's entry is None |
| `Keys.AccidentalCounts` | amm_sdk/src/context/key.rs:253-293 | a key with n ≥ 0 fifths marks exactly n letters sharp and none flat; with n ≤ 0, exactly −n letters flat and none sharp |
| `Keys.SharpOrder` | amm_sdk/src/context/key.rs:253-293 | F is the first letter sharpened and B the last; B is the first flattened and F the last |
| `Keys.KeyPlace.MakeParallel` | amm_sdk/src/context/key.rs:230-240 | the key becomes `to_parallel` of its old value |
| `Keys.KeyPlace.MakeRelative` | amm_sdk/src/context/key.rs:243-250 | the key becomes `to_relative` of its old value |
| `Durations.Index` | amm_sdk/src/note/duration.rs:63-81 | every type has a position below 15 in the table from Maxima down to the 2048th |
| `Durations.FromIndex` | amm_sdk/src/note/duration.rs:63-81 | every position below 15 names the type at that position |
| `Durations.IndexInjective` | amm_sdk/src/note/duration.rs:63-81 | two types at the same position are the same type |
| `Durations.TypeValueIsHalved` | amm_sdk/src/note/duration.rs:63-81 | each type's value is eight whole notes halved once per position |
| `Durations.TypeValueScaled` | amm_sdk/src/note/duration.rs:63-81 | a type `k` positions shorter is worth the longer one halved `k` times |
| `Durations.TypeValueHalves` | amm_sdk/src/note/duration.rs:63-81 | each type but the 2048th is worth twice the next shorter one |
| `Durations.HalveIsDivision` | amm_sdk/src/note/duration.rs:244-249 | halving `k` times is the division by `2^k` (`f64::powi(2.0, k)`) the source performs |
| `Durations.DotSumClosedForm` | amm_sdk/src/note/duration.rs:244-249 | a type with `k` dots is worth twice the type minus its last dot's value |
| `Durations.Value` | amm_sdk/src/note/duration.rs:244-249 | the value in whole notes: the type's value plus each dot worth half the one before (a definition; its bounds are `ValueBounds` and its closed form `DotSumClosedForm`) |
| `Durations.ValueBounds` | amm_sdk/src/note/duration.rs:244-249 | a dotted duration is worth at least its type and less than twice it |
| `Durations.ValueExamples` | amm_sdk/src/note/duration.rs:340-344 | a triple-dotted whole is 1.875 and a quadruple-dotted quarter 0.484375, as the source's test expects |
| `Durations.Beats` | amm_sdk/src/note/duration.rs:255-257 | the beats times the beat's value give back the duration's value |
| `Durations.Shorter` | amm_sdk/src/note/duration.rs:266-284 | one position shorter, staying at the 2048th |
| `Durations.Split` | amm_sdk/src/note/duration.rs:263-288 | the dots are kept; the type is moved one position shorter per halving of `into_notes`, stopping at the 2048th; splitting into one part or none changes nothing |
| `Durations.SplitValue` | amm_sdk/src/note/duration.rs:263-288 | without saturation, splitting into `2^k` parts divides the value by `2^k` |
| `Durations.DotsFrom` | amm_sdk/src/note/duration.rs:110-117 | the count of dots reached is the first that brings the dotted value within a 2048th of the target, and every earlier count falls short by at least a 2048th |
| `Durations.DotsBoundSound` | amm_sdk/src/note/duration.rs:110-117 | while the loop still runs, the dot count is below a bound computed from the two values, so the loop ends |
| `Durations.DotsFromRemainder` | amm_sdk/src/note/duration.rs:110-117 | the loop returns the dot count `DotsFrom` describes |
| `Durations.LongestFitting` | amm_sdk/src/note/duration.rs:125-163 | the type picked fits in the value (when the value is at least a 2048th) and, unless it is Maxima, more than half of the value; a value below a 2048th gives the 2048th |
| `Durations.LongestFittingUnique` | amm_sdk/src/note/duration.rs:125-163 | a type that fits and covers more than half of the value is the one picked |
| `Durations.FromValue` | amm_sdk/src/note/duration.rs:123-165 | the duration built is the longest fitting type with the first dot count that comes within a 2048th of the value, and each smaller count falls short |
| `Durations.FromValueRoundTrip` | amm_sdk/src/note/duration.rs:123-165 | `from_beats` gives back every duration whose last dot is worth at least a 2048th |
| `Durations.FromBeats` | amm_sdk/src/note/duration.rs:123-135 | the beats times the base's value are covered by the result to within a 2048th, and from a 2048th up the result's type is no longer than that value |
| `Durations.FromDuration` | amm_sdk/src/note/duration.rs:209-211 | the seconds, at the tempo, are covered by the result to within a 2048th |
| `Durations.MaximaDotsNeverEnd` | amm_sdk/src/note/duration.rs:110-126 | at or above sixteen whole notes plus a 2048th the value is a Maxima's and every dot count leaves at least a 2048th uncovered, so the `dots_from_remainder` loop, taken over exact reals with an unbounded dot count, never exits; the source's `u8` count instead overflows on the 256th pass |
| `Durations.FromDurationExamples` | amm_sdk/src/note/duration.rs:346-352 | at 120 quarters per minute, 0.5 s is a quarter, 0.875 s a double-dotted quarter, 1 s a half, as the source's test expects |
| `Durations.TotalValuePush` | amm_sdk/src/note/duration.rs:172-205 | pushing a duration onto a tied list adds its value to the total |
| `Durations.FoldIntoLast` | amm_sdk/src/note/duration.rs:193-201 | folding a piece worth half of the undotted last duration into it as a dot adds exactly the piece's value; a dotted last duration is never folded into |
| `Durations.TiedShapePush` | amm_sdk/src/note/duration.rs:172-205 | pushing an undotted piece that is shorter than the last duration (or a further Maxima) and not half of it keeps the shape of a tied list |
| `Durations.TiedShapeFold` | amm_sdk/src/note/duration.rs:193-197 | giving the undotted last duration its dot keeps the shape of a tied list |
| `Durations.FromBeatsTied` | amm_sdk/src/note/duration.rs:172-205 | the result is the greedy reference `TiedGreedy` (longest fitting type first, a piece worth half the last one folded in as its dot); nothing under a 2048th gives no durations; otherwise the tied durations sum to the value less at most a 2048th; at most one dot each, longest first with only Maxima repeating, and no piece worth exactly half of the one before |
| `Durations.TiedPass` | amm_sdk/src/note/duration.rs:181-203 | one pass takes the longest type that fits off the remainder and ties it on: the result is `Tie` of the old list and that piece, the remainder drops by the piece, and the greedy reference's result is unchanged |
| `Durations.TieKeeps` | amm_sdk/src/note/duration.rs:181-203 | a pass keeps the sum of pieces and remainder, keeps `TiedShape`, and keeps the remainder below the last duration (below half of it once dotted) |
| `Durations.TieFoldStep` | amm_sdk/src/note/duration.rs:193-196 | folding a half-worth piece as a dot: the last duration was undotted, the total grows by the piece, the shape holds and the remainder is below half the last type |
| `Durations.TiePushStep` | amm_sdk/src/note/duration.rs:197-202 | pushing the piece: the total grows by it, the shape holds, and the remainder is below the piece's type unless it is a Maxima |
| `Durations.TiedGreedyPass` | amm_sdk/src/note/duration.rs:181-203 | a pass that ties on the longest fitting piece leaves the greedy reference's result unchanged |
| `Durations.FloorDrops` | amm_sdk/src/note/duration.rs:181-203 | taking a piece of at least a 2048th off the remainder lowers its count of 2048ths, so the loop ends |
| `Durations.TiedGreedyStep` | amm_sdk/src/note/duration.rs:181-203 | the greedy reference takes one step: tie on the longest type that fits and go on with the rest |
| `Durations.TiedSevenEighths` | amm_sdk/src/note/duration.rs:172-205 | seven eighths of a whole tie up as a dotted half and an eighth |
| `Pitches.NameIndex` | amm_sdk/src/note/pitch.rs:25-36 | every letter has an index below 8, and the index is 0 exactly for the rest |
| `Pitches.NewPitch` | amm_sdk/src/note/pitch.rs:57-59 | the letter and octave are the ones given |
| `Pitches.NewRest` | amm_sdk/src/note/pitch.rs:63-68 | the rest pitch, at octave 0 |
| `Pitches.Offset` | amm_sdk/src/note/pitch.rs:79-90 | a rest is 0 semitones from A4 |
| `Pitches.PitchValue` | amm_sdk/src/note/pitch.rs:79-90 | the letter's index and the semitone distance from A4; a rest gives (0, 0) |
| `Pitches.OffsetWrapsExact` | amm_sdk/src/note/pitch.rs:79-90 | whatever wraps on the way, the distance is the exact one reduced into the `i8` range |
| `Pitches.NoWrapUpToNine` | amm_sdk/src/note/pitch.rs:82-88 | up to octave 9 no intermediate value leaves its 8-bit range and the distance is exact |
| `Pitches.OffsetExact` | amm_sdk/src/note/pitch.rs:82-88 | up to octave 14 the distance is exact, the `as i8` wrap being undone by the wrapping subtraction |
| `Pitches.OctaveStep` | amm_sdk/src/note/pitch.rs:82-88 | up to octave 14 one octave up adds twelve semitones |
| `Pitches.OctaveWraps` | amm_sdk/src/note/pitch.rs:82-88 | G14 is 118 semitones above A4 and G15 wraps to 126 below |
| `Pitches.ReferencePitches` | amm_sdk/src/note/pitch.rs:79-90 | A4 is 0, C4 is −9 and C5 is 3 semitones from A4 |
| `Pitches.ComparePitch` | amm_sdk/src/note/pitch.rs:94-96 | pitches compare Equal exactly when their distances from A4 are equal, and Less exactly when the first is lower |
| `Pitches.ComparePitchPreorder` | amm_sdk/src/note/pitch.rs:94-102 | the comparison is antisymmetric and transitive |
| `Pitches.RestEqualsA4` | amm_sdk/src/note/pitch.rs:94-96 | a rest and A4 compare Equal although they differ |
| `Notes.NewNote` | amm_sdk/src/note/note.rs:31-39 | the note has the fresh id, the pitch and duration given, the accidental given or `Accidental::None`, and no modifications |
| `Notes.FromMidiRest` | amm_sdk/src/note/note.rs:43-55 | MIDI numbers 0 and 255 give a rest at octave 0 with no accidental and no modifications |
| `Notes.KeyOnlyForBareNotes` | amm_sdk/src/note/note.rs:108-116 | a note with its own accidental ignores the key; otherwise only the key's accidental for the note's letter matters, and it acts as if written on the note |
| `Notes.SemitoneDistance` | amm_sdk/src/note/note.rs:108-116 | the pitch's offset from A4 plus the note's own accidental, or the key's for its letter when it has none, wrapped to `i8` (a definition; `KeyOnlyForBareNotes` and `SemitoneDistanceExact` state its properties) |
| `Notes.SemitoneDistanceExact` | amm_sdk/src/note/note.rs:108-116 | up to octave 14 the distance is the exact pitch offset plus the accidental that applies |
| `Notes.MidiNumber` | amm_sdk/src/note/note.rs:151-154 | when 69 plus the semitone distance (C major when no key is given) lies in 0..255, that is the MIDI number |
| `Notes.CMajorHasNoAccidentals` | amm_sdk/src/note/note.rs:151-154 | the default key alters no letter |
| `Notes.MidiExamples` | amm_sdk/src/note/note.rs:151-154 | A4 is 69, C4 60, C♯4 61 and B♭3 58 |
| `Notes.KeySharpApplies` | amm_sdk/src/note/note.rs:108-116 | in G major a bare F4 sounds as F♯ (66) and a natural F4 as F (65) |
| `Notes.NoteBeats` | amm_sdk/src/note/note.rs:160-166 | a grace note lasts no beats; any other note lasts a positive number of beats which times the beat's value give the duration's value |
| `Notes.GetBeats` | amm_sdk/src/note/note.rs:192-194 | a grace note lasts no beats; without a tuplet ratio the beats are those of `beats` at the beat base's value |
| `Notes.BaseValue` | amm_sdk/src/note/note.rs:192-194 | the beat base's value is the duration's value and is positive |
| `Notes.AddModification` | amm_sdk/src/note/note.rs:169-174 | only the modifications change; the new one is present under the fresh id, which is returned, and is the only one of its variant; every modification of another variant is kept and nothing else is added |
| `Notes.RemoveModification` | amm_sdk/src/note/note.rs:207-210 | only the modifications change; exactly those whose id differs are kept |
| `NotePlaces.NotePlace.AddModification` | amm_sdk/src/note/note.rs:169-174 | `replace` on the note's own set and the id back: the note and id are those of `Notes.AddModification` |
| `NotePlaces.NotePlace.RemoveModification` | amm_sdk/src/note/note.rs:207-210 | `retain` on the note's own set: the note is `Notes.RemoveModification` of the old one |
| `Notes.AddThenRemove` | amm_sdk/src/note/note.rs:169-210 | adding a modification and removing it by the returned id leaves the modifications of the other variants |
| `Notes.Kinds` | amm_sdk/src/note/note.rs:227-233 | the variants of the modifications, one for one and in order |
| `Notes.EnharmonicNotesEqual` | amm_sdk/src/note/note.rs:227-233 | C♯4 and D♭4 are equal notes |
| `Notes.CloneModifications` | amm_sdk/src/note/note.rs:237-245 | the clone has as many modifications, each of the same variant under its fresh id |
| `Notes.CloneKeepsKinds` | amm_sdk/src/note/note.rs:237-245 | cloning the modifications keeps their variants and their order |
| `Notes.CloneKeepsGrace` | amm_sdk/src/note/note.rs:237-245 | a clone is a grace note exactly when the original is |
| `Notes.SameParts` | amm_sdk/src/note/note.rs:227-233 | notes that agree in pitch, duration, accidental, modification variants and grace are equal |
| `Notes.CloneNote` | amm_sdk/src/note/note.rs:237-245 | the clone is equal to the note, takes the fresh id, keeps pitch, duration, accidental and the modification variants under fresh ids, and is valid when the note is |
| `Midi.Floor` | amm_sdk/src/storage/midi.rs:31-41 | the result is 0 or an entry of the length table that is at most x; it is 0 exactly when x is below the first entry, and an entry whenever the first entry fits |
| `Midi.FloorNoteLength` | amm_sdk/src/storage/midi.rs:31-41 | the scan over the table with a running value returns `Floor` of the table |
| `Midi.FloorIsGreatestBelowDottedWhole` | amm_sdk/src/storage/midi.rs:21-41 | below a dotted whole the result is the greatest table entry that fits |
| `Midi.LengthBounds` | amm_sdk/src/storage/midi.rs:21-29 | every table entry lies between a sixty-fourth and a dotted whole |
| `Midi.FloorFromDottedWhole` | amm_sdk/src/storage/midi.rs:21-41 | because the table ends with a whole after the dotted whole, every x of at least a dotted whole yields a whole |
| `Midi.DottedWholeUnreachable` | amm_sdk/src/storage/midi.rs:21-41 | no x ever yields the dotted whole |
| `Midi.LengthDurationsMatch` | amm_sdk/src/storage/midi.rs:21-29 | each table entry is the value of a (type, dots) pair that `from_beats` recovers from it |
| `Midi.LengthsRoundTrip` | amm_sdk/src/storage/midi.rs:21-29 | for every table entry t, the duration recovered from t has value t |
| `Midi.TieLengths` | amm_sdk/src/storage/midi.rs:44-53 | a length of at most a sixty-fourth gives no pieces |
| `Midi.TieLengthsCover` | amm_sdk/src/storage/midi.rs:44-53 | above a sixty-fourth there is at least one piece, every piece is a table entry, and the pieces sum to the length minus a remainder in [0, 1/64] |
| `Midi.TieStep` | amm_sdk/src/storage/midi.rs:47-51 | each step takes the floor t of the remaining length, which lies between a sixty-fourth and the length, and continues on the length minus t |
| `Midi.FloorShrinks` | amm_sdk/src/storage/midi.rs:47-51 | subtracting at least a sixty-fourth lowers the number of whole sixty-fourths left, so the loop ends |
| `Midi.TiePiece` | amm_sdk/src/storage/midi.rs:49 | the duration pushed for a table entry has exactly that value |
| `Midi.FromBeatsWithTie` | amm_sdk/src/storage/midi.rs:44-53 | the loop pushes one duration per piece of `TieLengths(beats × base)`, each of that piece's value; none for a length of at most 1/64, otherwise values summing to the length minus a remainder in [0, 1/64] |
| `Midi.TiePieces` | amm_sdk/src/storage/midi.rs:46-52 | the `while value > SIXTY_FOURTH_VALUE` loop: one duration per piece of `TieLengths(v)`, of that piece's value; none at or below a sixty-fourth; above it the durations fall short of `v` by at most a sixty-fourth |
| `Midi.TieHalfEighth` | amm_sdk/src/storage/midi.rs:348-355 | 2.5 quarter beats split into a half and an eighth |
| `Midi.TieWholeQuarter` | amm_sdk/src/storage/midi.rs:356-361 | 5 quarter beats split into a whole and a quarter |
| `Midi.TieQuarterSixteenth` | amm_sdk/src/storage/midi.rs:362-366 | 1.25 quarter beats split into a quarter and a sixteenth |
| `Midi.TieWholeQuarterSixteenth` | amm_sdk/src/storage/midi.rs:367-373 | 5.25 quarter beats split into a whole, a quarter and a sixteenth |
| `Midi.KeyLetter` | amm_sdk/src/storage/midi.rs:67-81 | the key-in-octave table as written never yields a rest |
| `Midi.KeyOctave` | amm_sdk/src/storage/midi.rs:82-90 | for keys of at least 12 the octave is key / 12 − 1; below 12 the `u8` subtraction wraps to 255 |
| `Midi.NewPitchContainer` | amm_sdk/src/storage/midi.rs:62-94 | key 255, and only key 255, gives a rest with no accidental; any other key gives the letter and accidental of key % 12 and the octave `KeyOctave(key)` |
| `Midi.MidiKeyOf` | amm_sdk/src/note/note.rs:151-154 | the MIDI key a pitch and accidental stand for: 69 plus the offset from A4 plus the alteration (a definition; `KeyLetterRoundTrip` proves the loader's table against it) |
| `Midi.KeyLetterRoundTrip` | amm_sdk/src/storage/midi.rs:62-94 | for keys 12..127 the container read back as a MIDI key gives the key again, except key % 12 = 3, which comes back one higher |
| `Midi.EFlatReadAsE` | amm_sdk/src/storage/midi.rs:70-71 | key 63 (E flat 4) is read as E natural and comes back as 64 |
| `Midi.IntendedKeyLetter` | amm_sdk/src/storage/midi.rs:67-81 | the corrected table differs from the one as written only at key % 12 = 3 |
| `Midi.IntendedKeyLetterRoundTrip` | amm_sdk/src/storage/midi.rs:62-94 | with the corrected table, every key 12..127 round-trips exactly |
| `Orderings.CompareInt` | amm_macros/src/lib.rs:393-397 | the derived order is the integer order of the variant positions: Less, Equal and Greater exactly when the first is smaller, equal, larger |
| `ModSets.Replace` | amm_sdk/src/note/note.rs:169-174 | `BTreeSet::replace` under a rank-only order: the set stays strictly increasing by rank and holds exactly x plus the old elements of other ranks, so at most one element per variant |
| `ModSets.Insert` | amm_sdk/src/temporal/timeslice.rs:147-155 | `BTreeSet::insert`: when an element of the same rank is present the set is unchanged; otherwise it gains exactly x; it stays strictly increasing by rank |
| `ModSets.Filter` | amm_sdk/src/structure/part.rs:228-233 | `retain`: exactly the elements that satisfy the condition remain and none is added; a one-element list stays or goes whole, which with `FilterAppend` fixes the order |
| `ModSets.FilterAppend` | amm_sdk/src/structure/part.rs:228-233 | retaining over two runs is retaining over each, in order |
| `ModSets.FilterSnoc` | amm_sdk/src/structure/part.rs:228-233 | retaining over a list and one more element keeps the list's survivors in order and then that element if it passes |
| `ModSets.FilterAllKept` | amm_sdk/src/structure/part.rs:228-233 | when every element passes, nothing is dropped |
| `ModSets.FilterSameTest` | amm_sdk/src/structure/part.rs:228-233 | two tests that agree everywhere retain the same elements |
| `ModSets.Retain` | amm_sdk/src/structure/part.rs:228-233 | the in-place `retain` loop keeps exactly what `Filter` keeps, in order |
| `ModSets.FilterSorted` | amm/src/structure/section.rs:144-148 | retaining keeps a set strictly increasing by rank |
| `ModSets.Append` | amm_sdk/src/temporal/timeslice.rs:157-163 | `BTreeSet::append`: every element of the other set goes in, displacing the element of the same rank, and the result is still a set |
| `ModConversion.NoteTypeOf` | amm_sdk/src/modification/note.rs:182-215 | the note type of a chord type is absent exactly for Arpeggiate and NonArpeggiate; parameters (dynamic, relative speed) are carried over unchanged |
| `ModConversion.ChordTypeOf` | amm_sdk/src/modification/chord.rs:99-131 | the chord type of a note type is absent for Tie and the note-only types; parameters are carried over unchanged |
| `ModConversion.FromChordModification` | amm_sdk/src/modification/note.rs:182-215 | the converted modification is absent exactly for Arpeggiate and NonArpeggiate, and otherwise has the converted type and the fresh id |
| `ModConversion.FromNoteModification` | amm_sdk/src/modification/chord.rs:99-131 | the converted modification is absent exactly when the table has no chord type, and otherwise has that type and the fresh id |
| `ModConversion.NoteChordNoteRoundTrip` | amm_sdk/src/modification/chord.rs:99-131 | every note type that converts to a chord type converts back to itself |
| `ModConversion.ChordNoteChordRoundTrip` | amm_sdk/src/modification/note.rs:182-215 | every chord type other than Tie that converts to a note type converts back to itself |
| `ModConversion.TieIsOneWay` | amm_sdk/src/modification/note.rs:204 | a chord Tie becomes a note Tie, but a note Tie has no chord type, so chord → note → chord is not the identity for Tie |
| `ModConversion.LiftedIffShared` | amm_sdk/src/modification/chord.rs:99-131 | a note type has a chord type exactly when it is not Tie and some chord type converts to it |
| `NoteModifications.NewNoteModification` | amm_sdk/src/modification/note.rs:165-170 | the modification has the given type and id |
| `NoteModifications.CloneModification` | amm_sdk/src/modification/note.rs:225-236 | the clone equals the original under the id-blind equality, takes the fresh id, and so differs structurally when the id is new |
| `NoteModifications.Compare` | amm_sdk/src/modification/note.rs:240-242 | the order is decided by the variant rank alone |
| `NoteModifications.DynamicsCompareEqual` | amm_sdk/src/modification/note.rs:234-242 | Dynamic(p) and Dynamic(f) compare Equal although they are not equal |
| `ChordModifications.NewChordModification` | amm_sdk/src/modification/chord.rs:82-87 | the modification has the given type and id |
| `ChordModifications.CloneModification` | amm_sdk/src/modification/chord.rs:141-152 | the clone equals the original under the id-blind equality and takes the fresh id |
| `ChordModifications.Compare` | amm_sdk/src/modification/chord.rs:156-158 | the order is decided by the variant rank alone |
| `ChordModifications.DynamicsCompareEqual` | amm_sdk/src/modification/chord.rs:150-158 | Dynamic(pp) and Dynamic(mp) compare Equal although they are not equal |
| `PhraseModifications.RankIdentifiesVariant` | amm_macros/src/lib.rs:375-390 | two phrase modification types have the same rank exactly when they are the same variant |
| `PhraseModifications.NewPhraseModification` | amm_sdk/src/modification/phrase.rs:73-78 | the modification has the given type and id |
| `PhraseModifications.CloneModification` | amm_sdk/src/modification/phrase.rs:88-99 | the clone equals the original under the id-blind equality and takes the fresh id |
| `PhraseModifications.Compare` | amm_sdk/src/modification/phrase.rs:103-105 | Equal exactly for the same variant, Less exactly for a lower variant |
| `PhraseModifications.TupletsCompareEqual` | amm_sdk/src/modification/phrase.rs:97-105 | Tuplet(3, 2) and Tuplet(5, 4) compare Equal although they are not equal |
| `SectionModifications.RankIdentifiesVariant` | amm_macros/src/lib.rs:375-390 | two section modification types have the same rank exactly when they are the same variant |
| `SectionModifications.NewSectionModification` | amm_sdk/src/modification/section.rs:53-58 | the modification has the given type and id |
| `SectionModifications.CloneModification` | amm_sdk/src/modification/section.rs:68-79 | the clone equals the original under the id-blind equality and takes the fresh id |
| `SectionModifications.Compare` | amm_sdk/src/modification/section.rs:83-85 | Equal exactly for the same variant, Less exactly for a lower variant |
| `SectionModifications.OnlyPlayCompareEqual` | amm_sdk/src/modification/section.rs:77-85 | OnlyPlay([1]) and OnlyPlay([2]) compare Equal although they are not equal |
| `Directions.RankIdentifiesVariant` | amm_macros/src/lib.rs:375-390 | two direction types have the same rank exactly when they are the same variant |
| `Directions.NewDirection` | amm_sdk/src/modification/direction.rs:48-53 | the direction has the given type and id |
| `Directions.CloneModification` | amm_sdk/src/modification/direction.rs:71-82 | the clone equals the original under the id-blind equality and takes the fresh id |
| `Directions.Compare` | amm_sdk/src/modification/direction.rs:86-88 | Equal exactly for the same variant, Less exactly for a lower variant |
| `Directions.KeyChangesCompareEqual` | amm_sdk/src/modification/direction.rs:80-88 | KeyChange(C major) and KeyChange(G major) compare Equal although they are not equal |
| `Timeslices.NewContent` | amm_sdk/src/temporal/timeslice.rs:50-55 | the content holds the note and no phrase details |
| `Timeslices.AddPhraseDetails` | amm_sdk/src/temporal/timeslice.rs:57-66 | exactly one entry is appended, earlier entries and the note are kept, and the new entry has the given index and length, no modifications, next pitch Rest and next accidental None |
| `Timeslices.FirstTuplet` | amm_sdk/src/temporal/timeslice.rs:69-81 | the ratio source is absent exactly when no phrase detail holds a Tuplet, and otherwise is the first Tuplet of the first detail that holds one |
| `Timeslices.TupletRatio` | amm_sdk/src/temporal/timeslice.rs:69-81 | the ratio is absent exactly without a Tuplet, and otherwise times num_beats equals into_beats |
| `Timeslices.ContentBeats` | amm_sdk/src/temporal/timeslice.rs:69-81 | a grace note counts 0 beats; without a Tuplet the content counts the note's own beats |
| `Timeslices.NewTimeslice` | amm_sdk/src/temporal/timeslice.rs:128-135 | a new slice is not arpeggiated and has no content, directions or tempo details |
| `Timeslices.WithNote` | amm_sdk/src/temporal/timeslice.rs:137-140 | one content entry for the note is appended and nothing else changes |
| `Timeslices.WithDirection` | amm_sdk/src/temporal/timeslice.rs:142-145 | only the directions change; the new direction is present, it is the only one of its variant, and the other directions are the old ones of other variants |
| `Timeslices.WithTempoDetails` | amm_sdk/src/temporal/timeslice.rs:147-155 | only the tempo details change; OnlyPlay and Repeat are ignored, a variant already present is kept, and any other detail is added |
| `Timeslices.Combined` | amm_sdk/src/temporal/timeslice.rs:157-163 | arpeggiated is the OR of both, the other slice's content follows this one's in order, and directions and tempo details are merged with the other slice's entries winning per variant |
| `Timeslices.CombineWithEmpty` | amm_sdk/src/temporal/timeslice.rs:157-163 | combining with a new slice changes nothing |
| `Timeslices.MinOf` | amm_sdk/src/temporal/timeslice.rs:166-179 | the minimum is one of the values and no value is smaller |
| `Timeslices.SoundingBeats` | amm_sdk/src/temporal/timeslice.rs:166-179 | the values are exactly the beats of the non-grace contents |
| `Timeslices.TimesliceBeats` | amm_sdk/src/temporal/timeslice.rs:166-179 | a slice counts 0 beats when every content is a grace note, and otherwise the least beats over its non-grace contents |
| `Timeslices.DirectionToTimeslice` | amm_sdk/src/modification/direction.rs:63-67 | the slice holds exactly one direction, equal to the given one under the fresh id, and no content, tempo details or arpeggio |
| `Timeslices.NoteToTimeslice` | amm_sdk/src/note/note.rs:219-223 | the slice holds exactly one content entry, a clone of the note with no phrase details, and nothing else |
| `Timeslices.TimesliceCell.AddNote` | amm_sdk/src/temporal/timeslice.rs:137-140 | the slice becomes `WithNote` of the old one |
| `Timeslices.TimesliceCell.AddDirection` | amm_sdk/src/temporal/timeslice.rs:142-145 | the slice becomes `WithDirection` of the old one |
| `Timeslices.TimesliceCell.AddTempoDetails` | amm_sdk/src/temporal/timeslice.rs:147-155 | the slice becomes `WithTempoDetails` of the old one |
| `Timeslices.TimesliceCell.CombineWith` | amm_sdk/src/temporal/timeslice.rs:157-163 | the slice becomes `Combined` of both old slices, and the other slice is left with no content, directions or tempo details |
| `Timeslices.NewPartTimeslice` | amm_sdk/src/temporal/timeslice.rs:238-242 | a new part slice maps no part |
| `Timeslices.PartTimesliceFrom` | amm_sdk/src/temporal/timeslice.rs:245-249 | the part slice maps exactly the one part name to the slice |
| `Timeslices.AddTimeslice` | amm_sdk/src/temporal/timeslice.rs:251-254 | the part name now maps to the slice, overwriting any earlier one, and every other part keeps its slice |
| `Timeslices.GetTimesliceFor` | amm_sdk/src/temporal/timeslice.rs:257-259 | a slice is found exactly when the part name is present, and it is the stored one |
| `Timeslices.AddThenGet` | amm_sdk/src/temporal/timeslice.rs:251-259 | after adding, the part's slice is the one added and every other part's lookup is unchanged |
| `Temporal.NextSlot` | amm_sdk/src/temporal/mod.rs:14-23 | the scan from index stops at the first entry that does not start before the time, or at the end |
| `Temporal.PlaceAndMerge` | amm_sdk/src/temporal/mod.rs:5-35 | the list and the index returned are `Placed` of the inputs, and the time returned is the current time plus the slice's beats at a 2048th base |
| `Temporal.PlaceSlice` | amm_sdk/src/temporal/mod.rs:14-32 | the loop that advances the index, pushes, merges or inserts computes `Placed` |
| `Temporal.PlaceIntoEmpty` | amm_sdk/src/temporal/mod.rs:31-34 | into an empty list the slice becomes the single entry at the current time and the index returned is index + 1 |
| `Temporal.PlaceKeepsOrder` | amm_sdk/src/temporal/mod.rs:14-32 | on a list sorted by start whose entries before index start earlier, the list stays sorted, the entry before the returned index starts at the current time and holds the slice for the part, and every old start time is still present |
| `Temporal.PlaceGrowth` | amm_sdk/src/temporal/mod.rs:19-32 | the list grows by one entry unless an entry already starts at the current time, in which case its length is unchanged |
| `Temporal.MergeOverwrites` | amm_sdk/src/temporal/mod.rs:26-27 | merging into an entry that starts at the current time overwrites the part's slice there and leaves every other part's slice |
| `Chords.NewChord` | amm/src/structure/chord.rs:22-28 | a new chord has the fresh id, no notes and no modifications |
| `Chords.ClaimNote` | amm/src/structure/chord.rs:55-64 | the notes are the old ones not alike in pitch, duration and accidental, in order, followed by the note; no two notes of the result are alike when none were before |
| `Chords.ClaimNoteIdempotent` | amm/src/structure/chord.rs:55-64 | claiming the same note twice is the same as claiming it once |
| `Chords.AddNote` | amm/src/structure/chord.rs:35-46 | adding is claiming a new note with the fresh id and no modifications |
| `Chords.AddModification` | amm/src/structure/chord.rs:48-53 | only the modifications change; the new one is present, it is the only one of its variant, and the others are the old ones of other variants; the fresh id is returned |
| `Chords.RemoveItem` | amm/src/structure/chord.rs:101-104 | exactly the notes with that id go; the others stay in their order and multiplicity (the `retain` filter of the content); id and modifications stay |
| `Chords.RemoveFromNotes` | amm/src/structure/chord.rs:108-110 | each note keeps its place and everything but the modifications with that id |
| `Chords.RemoveFromNotesAt` | amm/src/structure/chord.rs:106-112 | the `for_each` over the notes: each note of the result is its note with that modification removed |
| `Chords.RemoveModification` | amm/src/structure/chord.rs:106-112 | the modification with that id leaves the chord and every note, and nothing else changes |
| `Chords.RemoveModificationAbsent` | amm/src/structure/chord.rs:106-112 | removing an id nobody carries leaves the chord unchanged |
| `ChordPlaces.ChordPlace.ClaimNote` | amm/src/structure/chord.rs:55-64 | `retain` then `push` on the chord's own notes: the chord is `Chords.ClaimNote` of the old one, and the index returned holds the note, last |
| `ChordPlaces.ChordPlace.AddNote` | amm/src/structure/chord.rs:35-46 | the chord is `Chords.AddNote` of the old one, and the index returned holds the new note, last |
| `ChordPlaces.ChordPlace.AddModification` | amm/src/structure/chord.rs:48-53 | `replace` on the chord's own set: chord and id are those of `Chords.AddModification` |
| `ChordPlaces.ChordPlace.RemoveItem` | amm/src/structure/chord.rs:101-104 | `retain` on the chord's own notes: the chord is `Chords.RemoveItem` of the old one |
| `ChordPlaces.ChordPlace.RemoveModification` | amm/src/structure/chord.rs:106-112 | `retain` on the set, then each note edited in turn: the chord is `Chords.RemoveModification` of the old one |
| `Chords.ChordBeats` | amm/src/structure/chord.rs:88-94 | an empty chord counts 0 beats; otherwise the beats of one of its notes and no more than any note's |
| `Chords.LeastBeats` | amm/src/structure/chord.rs:88-94 | the fold with `f64::min` is one of the notes' beats and at most every note's |
| `Chords.CloneModifications` | amm/src/structure/chord.rs:172-178 | the clones have the same types in the same order under the fresh ids, and stay a valid set |
| `Chords.CloneNotes` | amm/src/structure/chord.rs:172-178 | each cloned note equals its original and takes its fresh id |
| `Chords.CloneChord` | amm/src/structure/chord.rs:172-184 | the clone equals the chord under the id-blind equality and takes the fresh id |
| `Chords.TransferableKinds` | amm/src/structure/chord.rs:131-134 | the transferred types are exactly the note types of the chord's modifications that convert |
| `Chords.AddKinds` | amm/src/structure/chord.rs:137-139 | after adding the types in order, every type's variant is present, every modification is one of the types or an old one of another variant, and the old ones of other variants stay |
| `Chords.AddKindsLatestWins` | amm/src/structure/chord.rs:137-139 | for each variant, the last type added of that variant is the one present |
| `Chords.ChordNote` | amm/src/structure/chord.rs:135-141 | each note of the slice is a clone of the chord's note alike in pitch, duration and accidental, with the transferred modifications carried over |
| `Chords.ChordContents` | amm/src/structure/chord.rs:135-142 | one content entry per note, in order, each carrying the transferred modifications |
| `Chords.ToTimeslice` | amm/src/structure/chord.rs:127-144 | the slice is arpeggiated exactly when an Arpeggiate modification is present, has one content entry per note in order with the transferable modifications carried over, and no directions or tempo details |
| `Phrases.NewPhrase` | amm_sdk/src/structure/phrase.rs:29-35 | a new phrase has the fresh id, no content and no modifications |
| `Phrases.NewMultiVoice` | amm_sdk/src/structure/multivoice.rs:26-31 | a new multivoice has the fresh id and no voices |
| `Phrases.Claim` | amm_sdk/src/structure/phrase.rs:150-153 | the item goes in last, the earlier content and the modifications are unchanged |
| `Phrases.AddNote` | amm_sdk/src/structure/phrase.rs:109-117 | one new note with the fresh id goes in last and the earlier content is unchanged |
| `Phrases.AddChord` | amm_sdk/src/structure/phrase.rs:119-125 | one new empty chord goes in last and the earlier content is unchanged |
| `Phrases.AddPhrase` | amm_sdk/src/structure/phrase.rs:127-133 | one new empty phrase goes in last and the earlier content is unchanged |
| `Phrases.AddMultiVoice` | amm_sdk/src/structure/phrase.rs:135-141 | one new empty multivoice goes in last and the earlier content is unchanged |
| `Phrases.Insert` | amm_sdk/src/structure/phrase.rs:187-225 | for index ≤ length, the item is at the index, the items before keep their place and the items after move up by one |
| `Phrases.InsertNote` | amm_sdk/src/structure/phrase.rs:187-201 | inserting a note is inserting a new note with the fresh id |
| `Phrases.InsertChord` | amm_sdk/src/structure/phrase.rs:203-209 | inserting a chord is inserting a new empty chord |
| `Phrases.InsertPhrase` | amm_sdk/src/structure/phrase.rs:211-217 | inserting a phrase is inserting a new empty phrase |
| `Phrases.InsertMultiVoice` | amm_sdk/src/structure/phrase.rs:219-225 | inserting a multivoice is inserting a new empty multivoice |
| `Phrases.InsertAtEndIsClaim` | amm_sdk/src/structure/phrase.rs:150-225 | inserting at the end is claiming |
| `Phrases.AddModification` | amm_sdk/src/structure/phrase.rs:143-148 | only the modifications change; the new one is present and is the only one of its variant, the others are the old ones of other variants |
| `Phrases.AddVoice` | amm_sdk/src/structure/multivoice.rs:318-324 | one new empty voice goes in last and the earlier voices are unchanged |
| `Phrases.ClaimVoice` | amm_sdk/src/structure/multivoice.rs:326-337 | the voice goes in last and the earlier voices are unchanged |
| `Phrases.OwnRatio` | amm_sdk/src/structure/phrase.rs:333-336 | the phrase's own ratio is absent exactly without a Tuplet modification, and otherwise is into/num of one of its Tuplets |
| `Phrases.IsTupletIffRatio` | amm_sdk/src/structure/phrase.rs:404-408 | a phrase is a tuplet exactly when it has its own ratio |
| `Phrases.InnerRatio` | amm_sdk/src/structure/phrase.rs:337-343 | the inherited ratio is multiplied by the phrase's own; either one alone passes through; non-negative ratios stay non-negative |
| `Phrases.PhraseBeats` | amm_sdk/src/structure/phrase.rs:331-355 | a phrase's beats are non-negative under a non-negative ratio |
| `Phrases.ItemsBeats` | amm_sdk/src/structure/phrase.rs:345-354 | no items count 0 beats, and the sum is non-negative under a non-negative ratio |
| `Phrases.MultiVoiceBeats` | amm_sdk/src/structure/multivoice.rs:404-410 | no voices count 0 beats; otherwise the beats of one voice and at least every voice's |
| `Phrases.LongestVoice` | amm_sdk/src/structure/multivoice.rs:404-410 | the fold with the larger value is one voice's beats and at least every voice's |
| `Phrases.MultiVoiceBeatsSnoc` | amm_sdk/src/structure/multivoice.rs:404-410 | one more voice makes the multivoice as long as the longer of the voices so far and the new one |
| `Phrases.ItemsBeatsAppend` | amm_sdk/src/structure/phrase.rs:345-354 | the beats of two runs of items add up |
| `Phrases.ClaimAddsBeats` | amm_sdk/src/structure/phrase.rs:150-153 | claiming an item adds exactly its beats under the phrase's ratio |
| `Phrases.InsertAddsBeats` | amm_sdk/src/structure/phrase.rs:187-225 | inserting an item anywhere adds exactly its beats under the phrase's ratio |
| `Phrases.ClaimVoiceBeats` | amm_sdk/src/structure/multivoice.rs:331-337 | claiming a voice makes the multivoice as long as the longer of itself and the voice |
| `Phrases.PhraseDuration` | amm_sdk/src/structure/phrase.rs:358-360 | no value at 0 bpm; otherwise the duration times the beats per minute is the beats at the tempo's base note times 60 |
| `Phrases.QuarterIsOneBeat` | amm_sdk/src/note/note.rs:160-194 | a quarter note counts one beat at a quarter base |
| `Phrases.QuarterUnderRatio` | amm_sdk/src/note/note.rs:192-194 | under a tuplet ratio a quarter counts the ratio |
| `Phrases.TripletDuration` | amm_sdk/src/structure/phrase.rs:705-729 | three quarters last 1.5 s at 120 bpm, and 1.0 s once a Tuplet(3, 2) is added |
| `Phrases.RemoveItem` | amm_sdk/src/structure/phrase.rs:362-382 | the direct children with that id go; the i-th child left is the i-th child with another id, with the id removed inside it (`RemoveInside`); no item with that id remains anywhere below |
| `Phrases.RemoveFromItems` | amm_sdk/src/structure/phrase.rs:363-380 | the items with that id go; the i-th item left is `RemoveInside` of the i-th item with another id, and nothing inside carries the id |
| `Phrases.RemovedItemsSnoc` | amm_sdk/src/structure/phrase.rs:363-380 | one more item: dropped when it has the id, otherwise appended with the id removed inside; the ids left and the id's absence carry over |
| `Phrases.RemovedItemsKept` | amm_sdk/src/structure/phrase.rs:363-380 | one more item keeps each kept item lined up with its edited copy |
| `Phrases.RemoveInside` | amm_sdk/src/structure/phrase.rs:364-379 | the item keeps its id and nothing inside it carries the id any more; a note is unchanged, and a chord, phrase or multivoice becomes its own `Chords.RemoveItem`, `RemoveItem` or `MultiVoiceRemoveItem` |
| `Phrases.MultiVoiceRemoveItem` | amm_sdk/src/structure/multivoice.rs:417-425 | the voices with that id go; the k-th voice left is `RemoveItem` of the k-th voice with another id, and nothing inside them carries the id |
| `Phrases.RemoveFromVoices` | amm_sdk/src/structure/multivoice.rs:417-425 | the voices with that id go; the k-th voice left is `RemoveItem` of the k-th voice with another id, and nothing inside them carries it |
| `Phrases.RemovedVoicesSnoc` | amm_sdk/src/structure/multivoice.rs:417-425 | one more voice: dropped when it has the id, otherwise appended with the id removed; the ids left and the id's absence carry over |
| `Phrases.RemovedVoicesKept` | amm_sdk/src/structure/multivoice.rs:417-425 | one more voice keeps each kept voice lined up with its edited copy |
| `Phrases.RemoveAbsentItem` | amm_sdk/src/structure/phrase.rs:362-382 | removing an id that does not occur changes nothing |
| `Phrases.RemoveItemIdempotent` | amm_sdk/src/structure/phrase.rs:362-382 | removing the same id twice is removing it once |
| `Phrases.RemoveModification` | amm_sdk/src/structure/phrase.rs:384-401 | the phrase's own modifications are the `retain` of those with another id, in order; item `i` is `RemoveModsInside` of item `i`; nothing inside carries the id any more |
| `Phrases.RemoveModsFromItems` | amm_sdk/src/structure/phrase.rs:386-399 | one item per item, in order, each `RemoveModsInside` of its original |
| `Phrases.RemoveModsInside` | amm_sdk/src/structure/phrase.rs:386-399 | a note, chord, phrase or multivoice becomes its own `Notes.RemoveModification`, `Chords.RemoveModification`, `RemoveModification` or `MultiVoiceRemoveModification`; its id stays and nothing inside carries the id |
| `Phrases.MultiVoiceRemoveModification` | amm_sdk/src/structure/multivoice.rs:427-432 | the id stays and voice `k` is `RemoveModification` of voice `k` |
| `Phrases.RemoveModsFromVoices` | amm_sdk/src/structure/multivoice.rs:427-432 | one voice per voice, in order, each `RemoveModification` of its original |
| `Phrases.RemoveAbsentModification` | amm_sdk/src/structure/phrase.rs:384-401 | removing a modification id that does not occur changes nothing |
| `Phrases.GetMultiVoice` | amm_sdk/src/structure/phrase.rs:296-302 | the result is the first multivoice with the id in depth-first order (`FirstWithId` over `ItemsMultiVoices`); one is found exactly when one with that id lies somewhere inside |
| `Phrases.FindInItems` | amm_sdk/src/structure/phrase.rs:296-302 | the first multivoice with the id among the items, depth-first |
| `Phrases.MultiVoiceGet` | amm_sdk/src/structure/multivoice.rs:354-362 | the multivoice itself on an id match, otherwise the first match depth-first inside its voices |
| `Phrases.FindInVoices` | amm_sdk/src/structure/multivoice.rs:354-362 | the first multivoice with the id inside the voices, depth-first |
| `Phrases.FindInItem` | amm_sdk/src/structure/phrase.rs:296-302 | the first multivoice with the id inside one item, depth-first |
| `Phrases.FirstWithId` | amm_sdk/src/structure/phrase.rs:296-302 | the first multivoice of a list with the id: every earlier one has another id, and none is found exactly when none has it |
| `Phrases.FirstWithIdAppend` | amm_sdk/src/structure/phrase.rs:296-302 | searching two runs is searching the first, then the second |
| `Phrases.SamePhraseReflexive` | amm_sdk/src/structure/phrase.rs:502-504 | every phrase equals itself under the id-blind equality, all the way down |
| `PhraseSimplify.Simplify` | amm_sdk/src/structure/phrase.rs:37-69 | the id and modifications stay; afterwards no sub-phrase anywhere is empty or modification-free and every multivoice has at least two non-empty voices; the phrase does not grow, stays well formed, and keeps its beats under every base and non-negative ratio |
| `PhraseSimplify.SimplifyRound` | amm_sdk/src/structure/phrase.rs:39-67 | one pass of the `while content_changed` loop never grows the content, shrinks it strictly when it reports a change, leaves it simplified when it reports none, and keeps the beats |
| `PhraseSimplify.SimplifyItem` | amm_sdk/src/structure/phrase.rs:41-56 | an item is replaced by items no larger, strictly smaller when edited, simplified when not, with the same beats |
| `PhraseSimplify.SimplifySubPhrase` | amm_sdk/src/structure/phrase.rs:42-50 | a sub-phrase is dropped when it becomes empty, spliced in as its items when it has no modifications, and kept otherwise, with the same beats |
| `PhraseSimplify.SimplifyMultiVoiceItem` | amm_sdk/src/structure/phrase.rs:51-58 | a multivoice left with no voices is dropped, one left with a single voice becomes that phrase, and the beats are kept |
| `PhraseSimplify.SimplifyMultiVoice` | amm_sdk/src/structure/multivoice.rs:34-44 | the id stays; when exactly one voice remains it is returned and the multivoice is left empty, otherwise the multivoice keeps two or more non-empty simplified voices; the beats are those of the original multivoice |
| `PhraseSimplify.SimplifyVoices` | amm_sdk/src/structure/multivoice.rs:35-38 | the `retain_mut` loop keeps the voices that are non-empty after simplification, each simplified, and the longest voice's beats are unchanged |
| `PhraseSimplify.KeepNext` | amm_sdk/src/structure/multivoice.rs:35-38 | one voice of the `retain_mut`: the kept voices stay simplified, no larger than those seen, well formed and measured when the input is, and of the same beats |
| `PhraseSimplify.KeepStep` | amm_sdk/src/structure/multivoice.rs:35-38 | one more voice, kept when non-empty, preserves what the loop promises about the voices kept so far |
| `PhraseSimplify.KeepVoice` | amm_sdk/src/structure/multivoice.rs:35-38 | keeping a simplified voice of the same beats keeps the longest voice's beats equal |
| `PhraseSimplify.DropVoice` | amm_sdk/src/structure/multivoice.rs:35-38 | dropping an empty voice, which counts 0 beats, keeps the longest voice's beats equal |
| `PhraseSimplify.SpliceBeats` | amm_sdk/src/structure/phrase.rs:48-49 | a sub-phrase without modifications counts the same beats as its items spliced in its place |
| `PhraseSimplify.ItemsSizeAppend` | amm_sdk/src/structure/phrase.rs:39-67 | the size measure that bounds the loop adds up over concatenation |
| `PhraseFlatten.FlattenPhrase` | amm_sdk/src/structure/phrase.rs:72-102 | the flat phrase takes the next id and the phrase's modifications; with `fully` it holds only notes, chords and flat tuplets, without it no multivoice |
| `PhraseFlatten.FlattenFully` | amm_sdk/src/structure/phrase.rs:81-92 | the `fully` loop leaves only notes, chords and flat tuplets |
| `PhraseFlatten.FlattenFullyItem` | amm_sdk/src/structure/phrase.rs:82-91 | notes and chords are copied as they are; a flattened tuplet stays a phrase, any other sub-phrase and every multivoice give up their items |
| `PhraseFlatten.FlattenMultiVoice` | amm_sdk/src/structure/multivoice.rs:212-311 | the flattened multivoice is a phrase without modifications holding only notes, chords and flat tuplets |
| `PhraseFlatten.FlattenEach` | amm_sdk/src/structure/multivoice.rs:212-221 | every voice is flattened fully, one result per voice |
| `PhraseFlatten.FlattenShallow` | amm_sdk/src/structure/phrase.rs:94-99 | without `fully` there is one item per item, and no multivoice remains |
| `PhraseFlatten.FlattenShallowItem` | amm_sdk/src/structure/phrase.rs:95-98 | notes and chords are copied as they are; sub-phrases and multivoices become flattened phrases |
| `PhraseFlatten.FlattenKeepsBeats` | amm_sdk/src/structure/phrase.rs:72-102 | on a phrase without multivoices, flattening either way succeeds and keeps the beats |
| `PhraseFlatten.FullyKeepsBeats` | amm_sdk/src/structure/phrase.rs:81-92 | the `fully` loop keeps the beats of items without multivoices |
| `PhraseFlatten.ShallowKeepsBeats` | amm_sdk/src/structure/phrase.rs:94-99 | the shallow map keeps the beats of items without multivoices |
| `MultiVoiceFlatten.MergeNote` | amm_sdk/src/structure/multivoice.rs:285-290 | one note added to the merged chord: it replaces any alike note, becomes the last note and copies the note's modification types (with fresh ids); the chord's other notes not alike it are kept |
| `MultiVoiceFlatten.AddKindsCopies` | amm_sdk/src/structure/multivoice.rs:287-289 | adding every modification type of a valid note to a bare copy yields a note with exactly the same set of types |
| `MultiVoiceFlatten.MergeNotes` | amm_sdk/src/structure/multivoice.rs:295-300 | after a chord's notes are added in turn, every one has an alike note in the chord, every old note still has one, and every note is old or a copy of an added one |
| `MultiVoiceFlatten.ChordAddKinds` | amm_sdk/src/structure/multivoice.rs:292-294 | `add_modification` of each chord modification type: every type's variant is present, and an old modification survives exactly when no added type shares its variant |
| `MultiVoiceFlatten.MergeItem` | amm_sdk/src/structure/multivoice.rs:284-303 | merging one note or chord carries its notes and its chord modification types into the chord and keeps what was there |
| `MultiVoiceFlatten.Merge` | amm_sdk/src/structure/multivoice.rs:283-304 | merging all the items of a slot: the chord holds a note alike every item note, only copies of them, and the variant of every chord modification type of the items |
| `MultiVoiceFlatten.SlotChord` | amm_sdk/src/structure/multivoice.rs:282-304 | the chord a slot of several plain items becomes takes the fresh id and is the merge of the items |
| `MultiVoiceFlatten.CombineSlot` | amm_sdk/src/structure/multivoice.rs:274-308 | one slot is combined unless it holds a tuplet among several items (the tuplet path is not modelled); none exactly in that case |
| `MultiVoiceFlatten.CombineSlotOutcome` | amm_sdk/src/structure/multivoice.rs:274-308 | a slot of one item gives that item unchanged; a slot of several plain items gives one chord under the next id that merges them |
| `MultiVoiceFlatten.CombineSlots` | amm_sdk/src/structure/multivoice.rs:259-309 | the combine over all slots in time order; ids only grow |
| `MultiVoiceFlatten.CombineNoneIffTuplet` | amm_sdk/src/structure/multivoice.rs:262-281 | the combine gives none exactly when some slot holds a tuplet among several items |
| `MultiVoiceFlatten.CombineOutcomes` | amm_sdk/src/structure/multivoice.rs:259-309 | the flat phrase has one item per slot, each the slot's single item or the chord merging it |
| `MultiVoiceFlatten.CombineAll` | amm_sdk/src/structure/multivoice.rs:262-309 | the combining loop computes the combine over all slots |
| `MultiVoiceFlatten.SliceDuration` | amm_sdk/src/structure/multivoice.rs:226-231 | an item's length in beats is never negative |
| `MultiVoiceFlatten.FlattenVoices` | amm_sdk/src/structure/multivoice.rs:212-311 | `MultiVoice::flatten` of fully flattened voices: none exactly when a slot holds a tuplet; otherwise a new phrase under the fresh id, without modifications, holding one flat item per slot, each that slot's item or the chord merging it |
| `MultiVoiceFlatten.Flatten` | amm_sdk/src/structure/multivoice.rs:212-311 | the placement and combining loops compute `FlattenVoices` |
| `MultiVoiceFlatten.LayoutFlattened` | amm_sdk/src/structure/multivoice.rs:222-257 | laying out flattened voices gives slots that are never empty and hold only flattened items |
| `MultiVoiceFlatten.SumIsBeats` | amm_sdk/src/structure/multivoice.rs:224-254 | the running time `curr_time`, added up item by item, is the beats of the items before |
| `MultiVoiceFlatten.LayoutInOrder` | amm_sdk/src/structure/multivoice.rs:222-257 | when every item lasts, the slots' start times strictly increase |
| `MultiVoiceFlatten.LayoutLands` | amm_sdk/src/structure/multivoice.rs:222-257 | when every item lasts, item `i` of voice `k` is in the slot starting at the beats of the items before it in its voice |
| `SlotLayout.PlaceOne` | amm_sdk/src/structure/multivoice.rs:232-255 | placing one item: appended in a new slot past the end, added to the slot starting at its time, or in a new slot inserted before the first later one; the index moves past its slot |
| `SlotLayout.PlaceVoice` | amm_sdk/src/structure/multivoice.rs:224-256 | one voice's loop places each item at the running time, from index 0 and time 0 |
| `SlotLayout.PlaceVoices` | amm_sdk/src/structure/multivoice.rs:222-257 | the placement loop over all voices, each from index 0 and time 0 |
| `SlotLayout.PlacedInOrder` | amm_sdk/src/structure/multivoice.rs:232-255 | placing an item keeps the start times strictly increasing and the item ends in the slot at its own time, just before the returned index |
| `SlotLayout.PlacedKeeps` | amm_sdk/src/structure/multivoice.rs:232-255 | placing an item loses no slot and no item already placed |
| `SlotLayout.ReadyAfter` | amm_sdk/src/structure/multivoice.rs:232-255 | after a placement the next item, starting later, can be placed from the returned index |
| `SlotLayout.PlaceItemsInOrder` | amm_sdk/src/structure/multivoice.rs:224-256 | placing a voice whose items all last keeps the start times strictly increasing |
| `SlotLayout.PlaceItemsKeeps` | amm_sdk/src/structure/multivoice.rs:224-256 | placing a voice loses nothing already placed |
| `SlotLayout.PlaceItemsLands` | amm_sdk/src/structure/multivoice.rs:224-256 | item `i` of a voice lands in the slot starting at the summed lengths of the items before it |
| `SlotLayout.PlaceAllInOrder` | amm_sdk/src/structure/multivoice.rs:222-257 | laying out every voice keeps the start times strictly increasing |
| `SlotLayout.PlaceAllKeeps` | amm_sdk/src/structure/multivoice.rs:222-257 | laying out more voices loses nothing already placed |
| `SlotLayout.PlaceAllLands` | amm_sdk/src/structure/multivoice.rs:222-257 | every item of every voice lands in the slot starting at the summed lengths of the items before it in its voice |
| `SlotLayout.PlaceAllHolds` | amm_sdk/src/structure/multivoice.rs:222-257 | a property every placed item has holds of every slot's items |
| `PhraseSlices.Detailed` | amm_sdk/src/structure/phrase.rs:517-526 | a phrase with modifications adds, to every note of a slice, one detail with the slice's index, the phrase's slice count and the modification types; notes and everything else are untouched, and a phrase without modifications adds nothing |
| `PhraseSlices.WithNext` | amm_sdk/src/structure/phrase.rs:527-536 | the held slice learns the following note: every phrase detail of every note gets its next pitch and accidental, and nothing else changes |
| `PhraseSlices.ContentWithNext` | amm_sdk/src/structure/phrase.rs:529-534 | one note's phrase details all get the next pitch and accidental |
| `PhraseSlices.Decorated` | amm_sdk/src/structure/phrase.rs:517-543 | the details a phrase adds, slice by slice, with each slice told the first note of the one after it |
| `PhraseSlices.VoiceOutputs` | amm_sdk/src/structure/multivoice.rs:458-470 | one voice per phrase of the multivoice, each offering that phrase's slices |
| `PhraseSlices.RawSlicesAppend` | amm_sdk/src/structure/phrase.rs:546-600 | the slices of two runs of items are the slices of the first run followed by those of the second |
| `PhraseSlices.PhraseSlices` | amm_sdk/src/structure/phrase.rs:454-464 | all the phrase iterator hands out: the raw slices of the content, decorated with the phrase's modifications (a definition; `PhraseTimesliceIter` is proved to hand out exactly these) |
| `PhraseSlices.NumTimeslices` | amm_sdk/src/structure/phrase.rs:430-439 | one per note or chord, a sub-phrase's own count, a multivoice's slice count (a definition; `PhraseSlicesCount` proves it counts `PhraseSlices`) |
| `PhraseSlices.MultiVoiceSlices` | amm_sdk/src/structure/multivoice.rs:458-470 | all the multivoice iterator hands out: the voices' slices merged by countdown (a definition; `MultiVoiceTimesliceIter` is proved to hand out exactly these) |
| `PhraseSlices.PhraseSlicesCount` | amm_sdk/src/structure/phrase.rs:429-439 | `num_timeslices` is the number of slices the phrase iterator hands out |
| `PhraseSlices.RawSlicesCount` | amm_sdk/src/structure/phrase.rs:431-438 | a run of items gives one slice per note or chord and the slice count of each sub-phrase and multivoice |
| `PhraseSlices.DecoratedKeepsNotes` | amm_sdk/src/structure/phrase.rs:517-543 | the phrase's decoration never changes a slice's notes |
| `PhraseSlices.PhraseDetails` | amm_sdk/src/structure/phrase.rs:517-526 | every note of slice `k` is the raw note; with modifications it gains exactly one detail, at index `k`, with the phrase's slice count and modification types |
| `PhraseSlices.NextPitch` | amm_sdk/src/structure/phrase.rs:527-536 | every phrase detail of slice `k` names the pitch and accidental of the first note of slice `k + 1` |
| `PhraseSlices.PushKinds` | amm_sdk/src/structure/phrase.rs:521-524 | the loop pushing each modification type appends them all in order |
| `PhraseSlices.TellNext` | amm_sdk/src/structure/phrase.rs:527-536 | the loops over the held slice's notes and details compute `WithNext` |
| `PhraseSlices.PhraseTimesliceIter.constructor` | amm_sdk/src/structure/phrase.rs:454-464 | a fresh iterator over a phrase has handed out nothing |
| `PhraseSlices.PhraseTimesliceIter.UpdateDetails` | amm_sdk/src/structure/phrase.rs:517-543 | the index moves on, the decorated slice is held, and the slice held before is returned, told the new slice's first note when it has one |
| `PhraseSlices.PhraseTimesliceIter.Next` | amm_sdk/src/structure/phrase.rs:544-601 | each call hands out the next slice of the phrase; after the last it returns none and keeps returning none |
| `PhraseSlices.PhraseTimesliceIter.FromChild` | amm_sdk/src/structure/phrase.rs:549-560 | a running child iterator supplies the next slice |
| `PhraseSlices.PhraseTimesliceIter.FromItem` | amm_sdk/src/structure/phrase.rs:561-595 | the next item is started; what it returns, if anything, is the next slice |
| `PhraseSlices.PhraseTimesliceIter.StartItem` | amm_sdk/src/structure/phrase.rs:562-594 | an item with slices gives its first to `update_timeslice_details` and keeps the rest as the child |
| `PhraseSlices.PhraseTimesliceIter.Flush` | amm_sdk/src/structure/phrase.rs:596 | with the items exhausted, the held slice is the last one handed out |
| `PhraseSlices.MultiVoiceTimesliceIter.constructor` | amm_sdk/src/structure/multivoice.rs:458-470 | each voice starts at countdown 0 holding its phrase's first slice |
| `PhraseSlices.MultiVoiceTimesliceIter.Next` | amm_sdk/src/structure/multivoice.rs:519-549 | one call is one step of the countdown merge, under the rule the iterator was made with |
| `PhraseSlices.MultiVoiceTimesliceIter.Count` | amm_sdk/src/structure/multivoice.rs:445-447 | calling `next` until none counts the merge's slices |
| `PhraseSlices.CountMultiVoice` | amm_sdk/src/structure/multivoice.rs:445-447 | `num_timeslices` counts a fresh iterator's slices, as written or corrected; the corrected count is the number of slices the multivoice plays |
| `VoiceMerge.Advance` | amm_sdk/src/structure/multivoice.rs:524-528 | a due voice hands out its item, holds the next one from its iterator and waits the handed item's length; any other voice is unchanged |
| `VoiceMerge.NextInstant` | amm_sdk/src/structure/multivoice.rs:520-538 | the step to the next instant is at most `f64::MAX`, no more than any bounding voice's bound, and equal to one of them unless it is `f64::MAX` |
| `VoiceMerge.ReadyItems` | amm_sdk/src/structure/multivoice.rs:524-535 | the items due now, in voice order; none exactly when no voice is due |
| `VoiceMerge.Joined` | amm_sdk/src/structure/multivoice.rs:531-535 | the due items combined left to right; none exactly when there are none, the item itself when there is one |
| `VoiceMerge.Advanced` | amm_sdk/src/structure/multivoice.rs:522-538 | every voice advanced, voice by voice |
| `VoiceMerge.Lowered` | amm_sdk/src/structure/multivoice.rs:539-543 | every countdown lowered by the step and nothing else changed |
| `VoiceMerge.MergeStep` | amm_sdk/src/structure/multivoice.rs:519-546 | one call: none exactly when no voice is due, and then nothing changes |
| `VoiceMerge.Step` | amm_sdk/src/structure/multivoice.rs:519-546 | the visiting loop and the lowering loop compute `MergeStep` |
| `VoiceMerge.Visit` | amm_sdk/src/structure/multivoice.rs:522-538 | the visiting loop advances every voice, finds the next instant and combines the due items |
| `VoiceMerge.VisitOne` | amm_sdk/src/structure/multivoice.rs:525-537 | the loop body for one voice extends the three results by that voice |
| `VoiceMerge.VisitReady` | amm_sdk/src/structure/multivoice.rs:525-535 | the due-voice branch of the body |
| `VoiceMerge.VisitWaiting` | amm_sdk/src/structure/multivoice.rs:536-537 | the waiting-voice branch of the body |
| `VoiceMerge.Lower` | amm_sdk/src/structure/multivoice.rs:539-543 | the lowering loop computes `Lowered` |
| `VoiceMerge.AdvanceConsumes` | amm_sdk/src/structure/multivoice.rs:522-538 | advancing consumes exactly the due items |
| `VoiceMerge.StepConsumes` | amm_sdk/src/structure/multivoice.rs:519-546 | a call that returns a slice consumes at least one item, so the iterator ends |
| `VoiceMerge.Drain` | amm_sdk/src/structure/multivoice.rs:445-447 | calling until none: the voices then have nothing due, and at most as many slices as items came out |
| `VoiceMerge.Start` | amm_sdk/src/structure/multivoice.rs:458-470 | each voice starts at countdown 0 holding its first item, or nothing when it has none |
| `VoiceMerge.StartIsLive` | amm_sdk/src/structure/multivoice.rs:458-470 | a fresh merge is in the state the corrected rule keeps |
| `VoiceMerge.StepKeepsLengths` | amm_sdk/src/structure/multivoice.rs:519-546 | countdowns stay within the lengths of the items |
| `VoiceMerge.StepKeepsLive` | amm_sdk/src/structure/multivoice.rs:519-546 | under the corrected rule a step keeps that state |
| `VoiceMerge.IntendedNeverStopsEarly` | amm_sdk/src/structure/multivoice.rs:519-546 | under the corrected rule a call returns none exactly when no voice holds an item |
| `VoiceMerge.DrainAfter` | amm_sdk/src/structure/multivoice.rs:445-447 | a call that returns a slice puts it first among the drained slices |
| `VoiceMerge.IntendedDrainsAll` | amm_sdk/src/structure/multivoice.rs:445-447 | under the corrected rule the iterator ends only once every voice has handed out all its items |
| `VoiceMerge.ThreeVoices` | amm_sdk/src/structure/multivoice.rs:519-546 | one call on three voices written out: the due items joined, each voice moved by the step |
| `VoiceMerge.AsWrittenStopsEarly` | amm_sdk/src/structure/multivoice.rs:536-537 | as written, voices of beats [2], [6, 1] and [1, 4, 1] yield 9 and 4 and then none, with two voices still holding items |
| `VoiceMerge.IntendedEmitsAll` | amm_sdk/src/structure/multivoice.rs:519-546 | under the corrected rule the same voices yield 9, 4, 1 and 1 |
| `Staves.Lift` | amm/src/structure/staff.rs:55-60 | a phrase item becomes the staff entry of the same kind that holds it |
| `Staves.LiftAll` | amm/src/structure/staff.rs:53-61 | every item lifted, in order |
| `Staves.EntryIds` | amm/src/structure/staff.rs:374-381 | the ids of the entries, in order |
| `Staves.NewStaff` | amm/src/structure/staff.rs:31-37 | a new staff has the fresh id, the name and no content |
| `Staves.Claim` | amm/src/structure/staff.rs:160-198 | `claim_*` appends the entry last and keeps the earlier content |
| `Staves.AddNote` | amm/src/structure/staff.rs:118-126 | a new note under the fresh id is appended and the earlier content is kept |
| `Staves.AddChord` | amm/src/structure/staff.rs:128-134 | a new empty chord is appended and the earlier content is kept |
| `Staves.AddPhrase` | amm/src/structure/staff.rs:136-142 | a new empty phrase is appended and the earlier content is kept |
| `Staves.AddMultiVoice` | amm/src/structure/staff.rs:144-150 | a new empty multivoice is appended and the earlier content is kept |
| `Staves.AddDirection` | amm/src/structure/staff.rs:152-158 | a new direction of the type is appended and the earlier content is kept |
| `Staves.Insert` | amm/src/structure/staff.rs:200-248 | the entry is at the index, the entries before it are unchanged and those after it move up by one |
| `Staves.InsertNote` | amm/src/structure/staff.rs:200-214 | `insert_note` inserts a new note under the fresh id at the index |
| `Staves.InsertChord` | amm/src/structure/staff.rs:216-222 | `insert_chord` inserts a new empty chord at the index |
| `Staves.InsertPhrase` | amm/src/structure/staff.rs:224-230 | `insert_phrase` inserts a new empty phrase at the index |
| `Staves.InsertMultiVoice` | amm/src/structure/staff.rs:232-238 | `insert_multivoice` inserts a new empty multivoice at the index |
| `Staves.InsertDirection` | amm/src/structure/staff.rs:240-248 | `insert_direction` inserts a new direction of the type at the index |
| `Staves.InsertAtEndIsClaim` | amm/src/structure/staff.rs:160-248 | inserting at the end is claiming |
| `Staves.EntryBeats` | amm/src/structure/staff.rs:359-365 | an entry's beats are never negative |
| `Staves.StaffBeats` | amm/src/structure/staff.rs:355-367 | `get_beats` is never negative |
| `Staves.StaffDuration` | amm/src/structure/staff.rs:370-372 | `get_duration`: no value at 0 bpm; otherwise the seconds times the beats per minute are sixty times the staff's beats at the tempo's base note |
| `Staves.EntriesBeats` | amm/src/structure/staff.rs:356-367 | the `sum` of the entries' beats, added first to last, is never negative |
| `Staves.EntriesBeatsAppend` | amm/src/structure/staff.rs:355-367 | the beats of two runs of entries add up |
| `Staves.ClaimAddsBeats` | amm/src/structure/staff.rs:355-367 | claiming an entry adds its beats; a direction adds none |
| `Staves.InsertAddsBeats` | amm/src/structure/staff.rs:355-367 | inserting an entry anywhere adds its beats |
| `Staves.LiftedBeats` | amm/src/structure/staff.rs:355-367 | lifted phrase items have the beats they had in the phrase |
| `Staves.EntrySlices` | amm/src/structure/staff.rs:504-507 | a direction, note or chord gives exactly one slice |
| `Staves.StaffSlices` | amm/src/structure/staff.rs:437-443 | all the staff iterator hands out: each entry's slices in content order (a definition; `StaffTimesliceIter` is proved to hand out exactly these) |
| `Staves.NumTimeslices` | amm/src/structure/staff.rs:417-426 | one per note, chord or direction and a child's own count (a definition; `StaffSlicesCount` proves it counts `StaffSlices`) |
| `Staves.StaffSlicesCount` | amm/src/structure/staff.rs:416-426 | `num_timeslices` is the number of slices the staff iterator hands out |
| `Staves.EntriesSlicesCount` | amm/src/structure/staff.rs:416-426 | one slice per note, chord or direction, and each phrase's and multivoice's own count |
| `Staves.EntrySlicesCount` | amm/src/structure/staff.rs:416-426 | one entry hands out as many slices as `num_timeslices` counts for it |
| `Staves.EntriesSlicesAppend` | amm/src/structure/staff.rs:492-538 | the slices of two runs of entries are those of the first followed by those of the second |
| `Staves.StaffTimesliceIter.constructor` | amm/src/structure/staff.rs:436-443 | a fresh iterator over a staff has handed out nothing |
| `Staves.StaffTimesliceIter.Next` | amm/src/structure/staff.rs:492-538 | each call hands out the next slice in content order, all of a child's slices before the next entry; after the last it returns none and keeps returning none |
| `Staves.StaffTimesliceIter.FromChild` | amm/src/structure/staff.rs:495-506 | a running child iterator supplies the next slice |
| `Staves.StaffTimesliceIter.FromEntry` | amm/src/structure/staff.rs:509-533 | the next entry is started; an empty child yields nothing and the loop moves on |
| `Staves.CollectSlices` | amm/src/structure/staff.rs:416-443 | draining a fresh iterator gives the staff's slices, as many as `num_timeslices` |
| `Staves.RemoveItem` | amm/src/structure/staff.rs:374-395 | the top-level entries with the id are dropped; the i-th entry left is `RemoveInsideEntry` of the i-th entry with another id, and no entry holds the id at any depth |
| `Staves.RemoveFromEntries` | amm/src/structure/staff.rs:374-395 | the same over a run of entries |
| `Staves.RemovedEntriesSnoc` | amm/src/structure/staff.rs:374-395 | one more entry: dropped when it has the id, otherwise appended with the id removed inside, so each kept entry stays lined up with its edited copy |
| `Staves.RemoveInsideEntry` | amm/src/structure/staff.rs:382-393 | a direction or note is unchanged; a chord, phrase or multivoice becomes its own `Chords.RemoveItem`, `Phrases.RemoveItem` or `Phrases.MultiVoiceRemoveItem` |
| `Staves.RemoveAbsentItem` | amm/src/structure/staff.rs:374-395 | removing an id that occurs nowhere changes nothing |
| `Staves.RemoveItemIdempotent` | amm/src/structure/staff.rs:374-395 | removing an id twice is removing it once |
| `Staves.RemoveModification` | amm/src/structure/staff.rs:397-414 | directions are unchanged and every other entry is the lift of `Phrases.RemoveModsInside` of its item, in place; no entry keeps a modification with the id |
| `Staves.RemoveModsFromEntries` | amm/src/structure/staff.rs:397-414 | the same over a run of entries |
| `Staves.ModsEntriesSnoc` | amm/src/structure/staff.rs:397-414 | one more entry, edited by its kind's removal, keeps every entry lined up with its edited copy |
| `Staves.CloneStaff` | amm/src/structure/staff.rs:470-477 | a clone has the fresh id and equals the original |
| `Staves.SameStaffReflexive` | amm/src/structure/staff.rs:480-484 | every staff equals itself (name and content, not id) |
| `Staves.Rename` | amm/src/structure/staff.rs:113-116 | only the name changes |
| `Staves.EntriesSizeAppend` | amm/src/structure/staff.rs:39-85 | the size that every editing round of `simplify` reduces adds up over runs |
| `Staves.LiftedSize` | amm/src/structure/staff.rs:47-62 | lifting a phrase's items keeps their size |
| `Staves.Simplify` | amm/src/structure/staff.rs:39-85 | afterwards no direct phrase is empty or without modifications and every direct multivoice has two voices or more; well-formedness and every beat count are kept |
| `Staves.SimplifyRound` | amm/src/structure/staff.rs:41-83 | one pass of the loop: the size never grows, an edit makes it smaller, no edit means the content is simplified; beats are kept |
| `Staves.SimplifyEntry` | amm/src/structure/staff.rs:43-71 | one entry: an empty phrase is removed, a phrase without modifications gives up its items, a multivoice that simplifies to one phrase becomes it; size and beats as for the round |
| `Sections.ContentIds` | amm/src/structure/section.rs:441-447 | the ids of the items, in order |
| `Sections.NewSection` | amm/src/structure/section.rs:26-33 | a new section has the fresh id and the name, no content and no modifications, so it plays once, on every iteration, with no tempo of its own |
| `Sections.ClaimStaff` | amm/src/structure/section.rs:150-160 | the content is the old content, in order, without the direct staves of that name, followed by the staff; no other direct staff has that name, and id, name and modifications stay |
| `Sections.AddStaff` | amm/src/structure/section.rs:124-134 | the content is the old content, in order, without the direct staves of that name, followed by a new empty staff of that name |
| `Sections.ClaimSection` | amm/src/structure/section.rs:162-168 | the sub-section is appended and the earlier content is kept |
| `Sections.AddSection` | amm/src/structure/section.rs:136-142 | a new sub-section is appended and the earlier content is kept |
| `Sections.AddModification` | amm/src/structure/section.rs:144-148 | the modifications are the old ones of a different type, in order, followed by the new one; the content stays |
| `Sections.Rename` | amm/src/structure/section.rs:119-122 | only the name changes |
| `Sections.FindMapFirst` | amm/src/structure/section.rs:364-396 | `find_map` gives what the function makes of the first modification it accepts |
| `Sections.FindMapNone` | amm/src/structure/section.rs:364-396 | `find_map` gives nothing exactly when the function accepts no modification |
| `Sections.TempoOf` | amm/src/structure/section.rs:390-394 | an explicit tempo as given, an implicit one as a quarter note at the suggestion's speed, nothing for any other modification |
| `Sections.TotalIterations` | amm/src/structure/section.rs:364-373 | the count of the first `Repeat`, or 1 (a definition; `TotalIterationsFirstRepeat` and `TotalIterationsWithoutRepeat` state both cases) |
| `Sections.PlayableIterations` | amm/src/structure/section.rs:376-385 | the list of the first `OnlyPlay`, or empty (a definition; `PlayableIterationsFirstOnlyPlay` and `PlayableIterationsWithoutOnlyPlay` state both cases) |
| `Sections.SectionTempo` | amm/src/structure/section.rs:388-396 | the tempo of the first tempo modification, if any (a definition; `SectionTempoFirst` and `SectionTempoNone` state both cases) |
| `Sections.TotalIterationsFirstRepeat` | amm/src/structure/section.rs:364-373 | `get_total_iterations` is the count of the first `Repeat` |
| `Sections.TotalIterationsWithoutRepeat` | amm/src/structure/section.rs:364-373 | without a `Repeat` it is 1 |
| `Sections.PlayableIterationsFirstOnlyPlay` | amm/src/structure/section.rs:376-385 | `get_playable_iterations` is the list of the first `OnlyPlay` |
| `Sections.PlayableIterationsWithoutOnlyPlay` | amm/src/structure/section.rs:376-385 | without an `OnlyPlay` it is empty |
| `Sections.SectionTempoFirst` | amm/src/structure/section.rs:388-396 | `get_section_tempo` is the tempo of the first tempo modification |
| `Sections.SectionTempoNone` | amm/src/structure/section.rs:388-396 | there is none exactly when no modification sets a tempo |
| `Sections.AddRepeatSetsIterations` | amm/src/structure/section.rs:144-148 | adding a `Repeat` to a section without one sets the iteration count |
| `Sections.AddRepeatKeepsEarlierRepeat` | amm/src/structure/section.rs:144-148 | adding a second `Repeat` replaces the first, since the set holds one modification per variant |
| `Sections.ScaleIsProduct` | amm/src/structure/section.rs:412-420 | beats added up once per iteration are the beats times the count |
| `Sections.Iterations` | amm/src/structure/section.rs:419-422 | a sub-section plays as many iterations as it names, or all of them when it names none |
| `Sections.SectionBeats` | amm/src/structure/section.rs:400-428 | the first staff of each run of staves times the iterations, and each sub-section's beats times the iterations it plays (a definition; `GetBeats` computes it and `ClaimSectionAddsBeats`, `StavesOnlyBeats` state its properties) |
| `Sections.GetBeats` | amm/src/structure/section.rs:400-428 | the loop with the `staff_found` flag computes the section's beats |
| `Sections.FollowingStaffIgnored` | amm/src/structure/section.rs:409-416 | a staff that follows another staff adds nothing: replacing it leaves the beats unchanged |
| `Sections.StavesOnlyBeats` | amm/src/structure/section.rs:400-428 | a section of staves only lasts its first staff's beats times its iterations |
| `Sections.ClaimSectionAddsBeats` | amm/src/structure/section.rs:400-428 | claiming a sub-section adds its beats times the iterations it plays on |
| `Sections.SectionDuration` | amm/src/structure/section.rs:432-439 | `get_duration`: no value when the section's beats per minute (its own tempo's, or the given one's) are 0; otherwise the seconds times them are sixty times the beats |
| `Sections.RemoveItem` | amm/src/structure/section.rs:441-455 | the direct items with the id go; the i-th item left is `RemoveInside` of the i-th item with another id, and nothing inside holds the id |
| `Sections.RemoveFromContent` | amm/src/structure/section.rs:441-455 | the same over a run of items |
| `Sections.RemovedContentSnoc` | amm/src/structure/section.rs:441-455 | one more staff or section: dropped when it has the id, otherwise appended with the id removed inside; the ids left and the id's absence carry over |
| `Sections.RemovedContentKept` | amm/src/structure/section.rs:441-455 | one more staff or section keeps each kept item lined up with its edited copy |
| `Sections.RemoveInside` | amm/src/structure/section.rs:448-453 | a staff or sub-section keeps its own id and loses the id inside: a staff becomes `Staves.RemoveItem` of itself, a sub-section `Sections.RemoveItem` of itself |
| `Sections.RemoveAbsentItem` | amm/src/structure/section.rs:441-455 | removing an id that occurs nowhere changes nothing |
| `Sections.RemoveItemIdempotent` | amm/src/structure/section.rs:441-455 | removing an id twice is removing it once |
| `Sections.RemoveModification` | amm/src/structure/section.rs:457-460 | exactly the modifications with another id stay; the content is unchanged |
| `SectionPlaces.SectionPlace.Rename` | amm/src/structure/section.rs:119-122 | the section is `Sections.Rename` of the old one |
| `SectionPlaces.SectionPlace.ClaimStaff` | amm/src/structure/section.rs:150-160 | `retain` then `push` on the section's own content: the section is `Sections.ClaimStaff` of the old one, and the index returned holds the staff, last |
| `SectionPlaces.SectionPlace.AddStaff` | amm/src/structure/section.rs:124-134 | the section is `Sections.AddStaff` of the old one, and the index returned holds the new staff, last |
| `SectionPlaces.SectionPlace.ClaimSection` | amm/src/structure/section.rs:162-168 | `push`: the section is `Sections.ClaimSection` of the old one, and the index returned holds the sub-section, last |
| `SectionPlaces.SectionPlace.AddSection` | amm/src/structure/section.rs:136-142 | the section is `Sections.AddSection` of the old one, and the index returned holds the new sub-section, last |
| `SectionPlaces.SectionPlace.AddModification` | amm/src/structure/section.rs:144-148 | `retain` then `push` on the section's own modifications: the section is `Sections.AddModification` of the old one, and the index returned holds the new modification, last |
| `SectionPlaces.SectionPlace.RemoveModification` | amm/src/structure/section.rs:457-460 | `retain` on the section's own modifications: the section is `Sections.RemoveModification` of the old one |
| `Sections.StaffNames` | amm/src/structure/section.rs:187-204 | `get_staff_names` is strictly increasing (sorted, no repeats) and holds exactly the names of the staves, within sub-sections too when asked |
| `Sections.ContentNames` | amm/src/structure/section.rs:190-201 | the names gathered from a run of items are exactly its staves' names |
| `Sections.ItemNames` | amm/src/structure/section.rs:192-199 | the names gathered from one item |
| `Sections.AllSections` | amm/src/structure/section.rs:260-269 | the sections searched, the section itself first |
| `Sections.FirstWithId` | amm/src/structure/section.rs:260-269 | the first section with the id, none exactly when none has it |
| `Sections.FirstWithIdAppend` | amm/src/structure/section.rs:260-269 | searching two runs is searching the first, then the second |
| `Sections.GetSection` | amm/src/structure/section.rs:260-269 | `get_section` returns the section itself on an id match, else the first match depth-first |
| `Sections.FindInContent` | amm/src/structure/section.rs:263-268 | the search over the items finds the first match among their sections |
| `Sections.FindInItem` | amm/src/structure/section.rs:263-268 | the search inside one sub-section |
| `Sections.SameSectionReflexive` | amm/src/structure/section.rs:570-574 | every section equals itself (name, content and modifications, not id) |
| `Sections.CloneSection` | amm/src/structure/section.rs:559-567 | a clone has the fresh id and equals the original |
| `Sections.Groups` | amm/src/structure/section.rs:495-512 | the grouping ends in an implicit group when the content ends in a staff |
| `Sections.GroupSectionsFromContent` | amm/src/structure/section.rs:495-512 | every explicit group is a sub-section of the content |
| `Sections.GroupStavesFromContent` | amm/src/structure/section.rs:495-512 | every staff of an implicit group is a staff of the content |
| `Sections.DirectStavesFromContent` | amm/src/structure/section.rs:495-512 | the direct staves are staves of the content |
| `Sections.GroupsKeepStaves` | amm/src/structure/section.rs:495-512 | with the opening staff kept, the implicit groups hold exactly the direct staves, in order |
| `Sections.OpeningStaffDroppedAsWritten` | amm/src/structure/section.rs:497-504 | as written, a staff followed by a sub-section gives an empty implicit section: the staff is not played |
| `Sections.Retained` | amm/src/structure/section.rs:42-56 | a run of staves keeps its last staff with the name, or the filler for its opening staff when none has it |
| `Sections.SingleStaff` | amm/src/structure/section.rs:36-90 | the clone keeps name and modifications and never has more items |
| `Sections.SingleStaffContent` | amm/src/structure/section.rs:41-88 | never more items, and it ends in a staff exactly when the content does |
| `Sections.SingleStaffByGroups` | amm/src/structure/section.rs:36-90 | the clone has one item per group: the staff retained from each run and the clone of each sub-section |
| `Sections.StavesSlices` | amm/src/structure/section.rs:522-537 | the staff path: the slices merged from every staff, once per iteration, in order of their times |
| `Sections.NoStavesNoSlices` | amm/src/structure/section.rs:522-537 | without staves there are no slices |
| `Sections.DirectStavesWellFormed` | amm/src/structure/section.rs:522-537 | the direct staves of a well-formed section are well formed |
| `Sections.GroupWellFormed` | amm/src/structure/section.rs:495-512 | every group of a well-formed section is well formed |
| `Sections.RoundsWithoutPlayLists` | amm/src/structure/section.rs:514-520 | when no sub-section names its iterations, every iteration plays the same slices |
| `Sections.SameRounds` | amm/src/structure/section.rs:515-519 | groups that play on every iteration play the same on any two |
| `Sections.BuildGroups` | amm/src/structure/section.rs:495-512 | the grouping loop, keeping each opening staff |
| `Sections.PlaceStaff` | amm/src/structure/section.rs:526-532 | one staff's slices merged in turn from index 0 and time 0 |
| `Sections.PlaceAllStaves` | amm/src/structure/section.rs:524-535 | every staff merged in, one after the other |
| `Sections.StavesTimeslices` | amm/src/structure/section.rs:522-537 | the staff path's loops compute `StavesSlices` |
| `Sections.PlayRound` | amm/src/structure/section.rs:515-519 | one iteration plays every group that plays on it, in order |
| `Sections.PlayGroup` | amm/src/structure/section.rs:517 | one group plays its slices |
| `Sections.SectionSlices` | amm/src/structure/section.rs:484-540 | the slices a section plays, by rounds over its groups or merged from its staves (a definition; `IterTimeslices` computes it) |
| `Sections.NumTimeslices` | amm/src/structure/section.rs:463-465 | the length of the section's slice list (a definition) |
| `Sections.IterTimeslices` | amm/src/structure/section.rs:484-540 | `iter_timeslices`' loops compute the section's slices (with the opening staff kept) |
| `Sections.PlayRounds` | amm/src/structure/section.rs:512-520 | the loop over `0..get_total_iterations()` gives the rounds' slices of every iteration, one after another |
| `Parts.SectionIds` | amm_sdk/src/structure/part.rs:228-233 | the ids of the sections, in order |
| `Parts.BeatsOf` | amm_sdk/src/structure/part.rs:216-221 | the `sum` of the sections' beats, first to last (a definition; `BeatsOfAppend` states how it adds up) |
| `Parts.SlicesOf` | amm_sdk/src/structure/part.rs:269-274 | each section's slices in turn (a definition; `Part.IterTimeslices` is proved to compute it) |
| `Parts.BeatsOfAppend` | amm_sdk/src/structure/part.rs:216-221 | the beats of two runs of sections add up |
| `Parts.NamesOf` | amm_sdk/src/structure/part.rs:122-129 | the names gathered are exactly those of the staves of the sections, at any depth |
| `Parts.FindSection` | amm_sdk/src/structure/part.rs:132-136 | the first section with the id among the sections and their sub-sections, depth-first |
| `Parts.CountIsLength` | amm_sdk/src/structure/part.rs:253-258 | `num_timeslices` is the number of slices `iter_timeslices` gives |
| `Parts.RemoveItemFrom` | amm_sdk/src/structure/part.rs:235-243 | the sections with the id go; the i-th section left is `Sections.RemoveItem` of the i-th section with another id, and nothing inside them holds the id |
| `Parts.RemovedSectionsSnoc` | amm_sdk/src/structure/part.rs:235-243 | one more section: dropped when it has the id, otherwise appended with the id removed; the ids left and the id's absence carry over |
| `Parts.RemovedSectionsKept` | amm_sdk/src/structure/part.rs:235-243 | one more section keeps each kept section lined up with its edited copy |
| `Parts.RemoveAbsentFrom` | amm_sdk/src/structure/part.rs:235-243 | removing an id that occurs nowhere changes nothing |
| `Parts.RemoveItemFromIdempotent` | amm_sdk/src/structure/part.rs:235-243 | removing an id twice is removing it once |
| `Parts.SameSectionsReflexive` | amm_sdk/src/structure/part.rs:311-315 | every run of sections equals itself |
| `Parts.Part.constructor` | amm_sdk/src/structure/part.rs:22-28 | a new part has the fresh id and the name and no sections |
| `Parts.Part.Rename` | amm_sdk/src/structure/part.rs:81-84 | only the name changes |
| `Parts.Part.AddSection` | amm_sdk/src/structure/part.rs:86-92 | a new section is appended and returned; the earlier sections are kept |
| `Parts.Part.ClaimSection` | amm_sdk/src/structure/part.rs:99-105 | the section is appended; the earlier sections are kept |
| `Parts.Part.StaffNames` | amm_sdk/src/structure/part.rs:122-129 | `get_staff_names` is strictly increasing (sorted, no repeats) and holds exactly the staff names of all sections, at any depth |
| `Parts.Part.GetSection` | amm_sdk/src/structure/part.rs:132-136 | the first section with the id, depth-first; none exactly when no section has it |
| `Parts.Part.Duration` | amm_sdk/src/structure/part.rs:224-226 | `get_duration`: no value at 0 bpm; otherwise the seconds times the beats per minute are sixty times the part's beats |
| `Parts.Part.RemoveSection` | amm_sdk/src/structure/part.rs:228-233 | exactly the sections with another id stay, in order |
| `Parts.Part.RemoveItem` | amm_sdk/src/structure/part.rs:235-243 | the sections become `RemoveItemFrom` of the old ones |
| `Parts.Part.RemoveModification` | amm_sdk/src/structure/part.rs:245-250 | every section loses the modification with the id, and nothing else changes |
| `Parts.Part.NumTimeslices` | amm_sdk/src/structure/part.rs:253-258 | the count of the part's slices |
| `Parts.Part.IterTimeslices` | amm_sdk/src/structure/part.rs:269-274 | the loop gives each section's slices in turn |
| `Parts.Part.Clone` | amm_sdk/src/structure/part.rs:301-308 | a clone has the fresh id and equals the original (name and sections) |
| `Parts.Part.ExtractStavesAsParts` | amm_sdk/src/structure/part.rs:50-69 | one new part per staff name, in name order, named "<part>_<staff>", holding each section cloned with that staff alone |
| `Parts.NewParts` | amm_sdk/src/structure/part.rs:51-60 | one fresh, empty part per staff name, all distinct, named "<part>_<staff>" |
| `Parts.PushSection` | amm_sdk/src/structure/part.rs:59-66 | each extracted part gets the next section cloned with its staff |
| `Json.FindChar` | amm_internal/src/lib.rs:151-152 | the first position at or after `from` holding the character; none exactly when no later position holds it |
| `Json.FindText` | amm_internal/src/lib.rs:151 | the first position where the pattern occurs; none exactly when it occurs nowhere after `from` |
| `Json.GetType` | amm_internal/src/lib.rs:149-156 | `json_get_type` never contains a quote, and is empty when there is no `"_type":"` marker |
| `Json.MarkerAfter` | amm_internal/src/lib.rs:151 | after quote-free text the marker written first is the one found |
| `Json.GetTypeOf` | amm_internal/src/lib.rs:149-156 | a type name written after the marker and closed by a quote is read back |
| `Json.GetTypeUnclosed` | amm_internal/src/lib.rs:152 | with no closing quote the type is empty |
| `Json.NextKeyOf` | amm_internal/src/lib.rs:158-170 | a key written between quotes after quote-free text is read back, with the text after its closing quote as the rest |
| `Json.TwoOccurrences` | amm_internal/src/lib.rs:161-167 | two positions holding the same character count it twice |
| `Json.NextKeyWithoutTwoQuotes` | amm_internal/src/lib.rs:169 | with fewer than two quotes, `json_next_key` gives neither key nor rest |
| `Json.NextKey` | amm_internal/src/lib.rs:158-170 | the key holds no quote, and when something is found the text ends with the quoted key and then the rest |
| `Json.JsonNextKey` | amm_internal/src/lib.rs:158-170 | the character loop of `json_next_key` computes `NextKey` |
| `Json.Scan` | amm_internal/src/lib.rs:172-207 | the scan of `json_next_value` from one position, state by state (a definition; `ScanEnds` and the `ScanPlain`/`ScanNested` lemmas state what it returns) |
| `Json.ScanEnds` | amm_internal/src/lib.rs:172-207 | wherever the scan stops, the value either runs to the end with nothing left, or the value, one comma, quote or closing bracket, and the rest end the text |
| `Json.NextValue` | amm_internal/src/lib.rs:172-207 | what `json_next_value` returns: a value followed by one delimiter and the rest, or a value that runs to the end |
| `Json.JsonNextValue` | amm_internal/src/lib.rs:172-207 | the character loop of `json_next_value` computes `NextValue` |
| `Json.ScanPlain` | amm_internal/src/lib.rs:177-182 | outside brackets, a value runs up to the first comma or quote, which is consumed |
| `Json.ScanPlainToEnd` | amm_internal/src/lib.rs:206 | a value that never ends runs to the end of the text, with no rest |
| `Json.NextValueQuoted` | amm_internal/src/lib.rs:172-207 | a quoted string without commas, quotes or brackets is read back without its quotes |
| `Json.NextValueBare` | amm_internal/src/lib.rs:172-207 | a bare value (a number, `true`) is read up to the comma or quote after it |
| `Json.NextValueLast` | amm_internal/src/lib.rs:206 | the last bare value of a text is all of what is left |
| `Json.ScanNested` | amm_internal/src/lib.rs:183-191 | inside brackets, commas and quotes do not end the value; the bracket that closes the outermost one does |
| `Json.NextValueBracketed` | amm_internal/src/lib.rs:172-207 | a bracketed list or object is read back without its outer brackets |
| `Json.ShiftInValue` | amm_internal/src/lib.rs:175-193 | a character put in front shifts the scan inside a value by one place and changes nothing else |
| `Json.ShiftBeforeValue` | amm_internal/src/lib.rs:194-204 | the same before the value has started |
| `Json.NextValueSkips` | amm_internal/src/lib.rs:194 | a leading space, colon, comma or closing bracket is skipped when a value follows |
| `Json.NextValueNothing` | amm_internal/src/lib.rs:206 | a text with only skipped characters gives no rest and the whole text as the value |
| `Json.SerializeString` | amm_internal/src/lib.rs:76-80 | the text between two quotes |
| `Json.DeserializeString` | amm_internal/src/lib.rs:136-140 | the text itself; it never fails |
| `Json.StringRoundTrip` | amm_internal/src/lib.rs:76-140 | deserialising a serialised string does not give it back (the quotes stay); reading it with `json_next_value` first does |
| `StringSets.InsertName` | amm/src/structure/section.rs:201 | inserting a name keeps a sorted, repeat-free list, holding the old names and the new one |
| `StringSets.SortedSet` | amm/src/structure/section.rs:201-203 | collecting names through a `BTreeSet` gives a strictly increasing list of exactly those names |
| `StringSets.IncreasingUnique` | amm/src/structure/section.rs:201-203 | two strictly increasing lists with the same names are equal |
| `StringSets.SortedSetOfSameElements` | amm/src/structure/section.rs:201-203 | the collected list depends only on which names occur |
| `StringSets.BelowTotal` | amm/src/structure/section.rs:201 | the order on names is total |
| `StringSets.BelowTransitive` | amm/src/structure/section.rs:201 | the order on names is transitive |
| `MusicXml.TimeSliceContainer.IsEmpty` | amm_sdk/src/storage/musicxml.rs:170-182 | a container is empty exactly when all eleven fields are empty or unset, that is, when it equals the default |
| `MusicXml.QuotientHalved` | amm_sdk/src/storage/musicxml.rs:290 | halving a quotient by `a` gives the quotient by `2a` |
| `MusicXml.HalvedIsDivision` | amm_sdk/src/storage/musicxml.rs:290 | halving `k` times, truncating each time, is dividing by `2^k` |
| `MusicXml.HalvesExactlyIsDivisibility` | amm_sdk/src/storage/musicxml.rs:290 | halving `k` times loses nothing exactly when `2^k` divides the number |
| `MusicXml.DotsLoop` | amm_sdk/src/storage/musicxml.rs:288-291 | the dot loop never counts more than eight dots |
| `MusicXml.NumDots` | amm_sdk/src/storage/musicxml.rs:286-293 | `calculate_num_dots` gives at most 8; it fails (underflow) when the total is below the base and gives 0 when they are equal |
| `MusicXml.CalculateNumDots` | amm_sdk/src/storage/musicxml.rs:286-293 | the loop computes `NumDots`, and stops because of the eight-dot cap |
| `MusicXml.DotDivisionsClosedForm` | amm_sdk/src/storage/musicxml.rs:288-291 | a base of `c * 2^k` with `k` dots spans `c * (2^(k+1) - 1)` divisions |
| `MusicXml.DotsLoopCounts` | amm_sdk/src/storage/musicxml.rs:288-291 | from `n` dots on, the loop counts up to exactly `k` dots |
| `MusicXml.NumDotsRoundTrip` | amm_sdk/src/storage/musicxml.rs:286-293 | counting the dots of a dotted duration gives its dots back, for any base that halves exactly |
| `MusicXml.NumDotsZeroBase` | amm_sdk/src/storage/musicxml.rs:286-293 | a base that truncates to zero always gives eight dots: the cap is what ends the loop |
| `MusicXml.WithDots` | amm_sdk/src/storage/musicxml.rs:528-584 | a type with its counted dots, absent exactly when the count failed |
| `MusicXml.ConvertFromSkips` | amm_sdk/src/storage/musicxml.rs:527-585 | the corrected scan passes over the types that are too long |
| `MusicXml.TooShortForLonger` | amm_sdk/src/storage/musicxml.rs:527-585 | a note shorter than twice a type is too short for every longer type |
| `MusicXml.ConvertDivisionsToDuration` | amm_sdk/src/storage/musicxml.rs:526-586 | `convert_divisions_to_duration` as written: the quotient tests from Maxima down, with the dots its base leaves (a definition; `DottedSixteenthAsWritten` and `AsWrittenAgreesFromQuarter` state what it does) |
| `MusicXml.ConvertDivisions` | amm_sdk/src/storage/musicxml.rs:526-586 | the conversion as evidently intended, the shorter types chosen by doubling the divisions (a definition; `ConvertRoundTrip` proves it inverts `DurationDivisions`) |
| `MusicXml.ConvertRoundTrip` | amm_sdk/src/storage/musicxml.rs:526-586 | the corrected conversion turns the divisions of any dotted duration, maxima down to 1024th, back into that duration |
| `MusicXml.AsWrittenAgreesFromQuarter` | amm_sdk/src/storage/musicxml.rs:527-550 | from a quarter note up, the conversion as written agrees with the corrected one |
| `MusicXml.ConvertWholeHalfQuarter` | amm_sdk/src/storage/musicxml.rs:539-550 | a quarter, a half and a whole note's worth of divisions give those types, undotted |
| `MusicXml.DottedSixteenthAsWritten` | amm_sdk/src/storage/musicxml.rs:551-558 | as written, a dotted sixteenth (3 divisions at 8 a quarter) passes the eighth-note test and fails the dot count; the corrected conversion reads it back |
| `MusicXml.Slots` | amm_sdk/src/storage/musicxml.rs:1500-1508 | one slot (or none) per element |
| `MusicXml.WalkElements` | amm_sdk/src/storage/musicxml.rs:2142-2145 | the element loop computes the cursors after all elements and the slot of every note |
| `MusicXml.SlotsAt` | amm_sdk/src/storage/musicxml.rs:1500-1508 | a note's slot depends only on the cursors the elements before it leave |
| `MusicXml.ChordJoinsPrecedingNote` | amm_sdk/src/storage/musicxml.rs:1500-1508 | a chord note right after a note that moved the cursor is filed with that note |
| `MusicXml.ForwardThenBackup` | amm_sdk/src/storage/musicxml.rs:676-683 | a forward then a backup of the same duration return the cursor to where it was |
| `MusicXml.BackupSaturates` | amm_sdk/src/storage/musicxml.rs:2142-2145 | a backup past the start stops the cursor at zero and remembers where it was |
| `MusicXml.StillElement` | amm_sdk/src/storage/musicxml.rs:2142-2145 | an element that does not move the cursor leaves both cursors alone |
| `MusicXml.IntendedSlots` | amm_sdk/src/storage/musicxml.rs:1500-1508 | one slot (or none) per element, under the corrected chord rule |
| `MusicXml.IntendedSlotsAt` | amm_sdk/src/storage/musicxml.rs:1500-1508 | under the corrected rule, too, a slot depends only on the elements before it |
| `MusicXml.IntendedCursorsAgree` | amm_sdk/src/storage/musicxml.rs:2142-2145 | the corrected bookkeeping moves the cursors exactly as the loader does |
| `MusicXml.IntendedChordJoinsNote` | amm_sdk/src/storage/musicxml.rs:1500-1508 | under the corrected rule every chord note is filed with the note that opens its chord, grace notes included |
| `MusicXml.LastNoteAfterChords` | amm_sdk/src/storage/musicxml.rs:1500-1508 | the last note filed that was not a chord note is the one that opened the trailing chord |
| `MusicXml.GraceChordAsWritten` | amm_sdk/src/storage/musicxml.rs:1500-1508 | as written, a chord note after a grace note is filed at the note before the grace note |
| `MusicXmlModRanges.NoteValid` | amm_sdk/src/storage/musicxml.rs:1666-1672 | a non-empty container leaves the ranges and the open variants alone |
| `MusicXmlModRanges.CloseAtBoundary` | amm_sdk/src/storage/musicxml.rs:1673-1680 | at a section start or a direction, every unfinished range ends here and the finished ones are kept |
| `MusicXmlModRanges.CloseOne` | amm_sdk/src/storage/musicxml.rs:1681-1689 | an end entry keeps the open variants well formed and moves no range's start |
| `MusicXmlModRanges.CloseEnds` | amm_sdk/src/storage/musicxml.rs:1681-1689 | the same for all end entries of a container |
| `MusicXmlModRanges.OpenOne` | amm_sdk/src/storage/musicxml.rs:1690-1697 | a start entry keeps the open variants well formed |
| `MusicXmlModRanges.OpenStarts` | amm_sdk/src/storage/musicxml.rs:1690-1697 | the same for all start entries of a container |
| `MusicXmlModRanges.Step` | amm_sdk/src/storage/musicxml.rs:1665-1700 | one container's pass keeps the open variants well formed |
| `MusicXmlModRanges.Collect` | amm_sdk/src/storage/musicxml.rs:1661-1700 | the collection after any number of containers has well-formed open variants |
| `MusicXmlModRanges.CloseUnfinished` | amm_sdk/src/storage/musicxml.rs:1674-1678 | the loop computes `CloseAtBoundary` |
| `MusicXmlModRanges.MatchEnd` | amm_sdk/src/storage/musicxml.rs:1682-1688 | the count update computes `CloseOne` |
| `MusicXmlModRanges.MatchEnds` | amm_sdk/src/storage/musicxml.rs:1681-1689 | the loop computes `CloseEnds` |
| `MusicXmlModRanges.MatchStart` | amm_sdk/src/storage/musicxml.rs:1691-1696 | the count update computes `OpenOne` |
| `MusicXmlModRanges.MatchStarts` | amm_sdk/src/storage/musicxml.rs:1690-1697 | the loop computes `OpenStarts` |
| `MusicXmlModRanges.CollectOne` | amm_sdk/src/storage/musicxml.rs:1666-1699 | one container's pass computes `Step` |
| `MusicXmlModRanges.CollectModRanges` | amm_sdk/src/storage/musicxml.rs:1660-1700 | the collection phase computes `Collect`'s ranges and map, and clears every container's start and end lists, nothing else |
| `MusicXmlModRanges.CloseEndsStartsBefore` | amm_sdk/src/storage/musicxml.rs:1681-1689 | ranges that started before the container still do |
| `MusicXmlModRanges.OpenStartsWithin` | amm_sdk/src/storage/musicxml.rs:1690-1697 | every range opened here starts here |
| `MusicXmlModRanges.StepWithin` | amm_sdk/src/storage/musicxml.rs:1665-1700 | after a container every range lies within the containers seen |
| `MusicXmlModRanges.CollectWithin` | amm_sdk/src/storage/musicxml.rs:1661-1700 | every collected range starts and ends at a container that exists |
| `MusicXmlModRanges.CollectStartsMarked` | amm_sdk/src/storage/musicxml.rs:1690-1697 | every collected range starts at a container that had a start entry |
| `MusicXmlModRanges.Filled` | amm_sdk/src/storage/musicxml.rs:1666 | which containers are not empty |
| `MusicXmlModRanges.FollowsAsNextUnique` | amm_sdk/src/storage/musicxml.rs:1666-1672 | at most one container is the next non-empty one |
| `MusicXmlModRanges.EmptyKeepsValidMeaning` | amm_sdk/src/storage/musicxml.rs:1666-1672 | an empty container leaves the map of next non-empty containers correct |
| `MusicXmlModRanges.NoteValidMeaning` | amm_sdk/src/storage/musicxml.rs:1666-1672 | a non-empty container becomes a key, the previous one maps to it, and the map stays correct |
| `MusicXmlModRanges.CollectValid` | amm_sdk/src/storage/musicxml.rs:1661-1672 | the map has exactly the non-empty containers as keys, each mapped to the next non-empty one (0 when none) |
| `MusicXmlModRanges.DropSingleSliceRanges` | amm_sdk/src/storage/musicxml.rs:1892-1903 | exactly the legato, crescendo and decrescendo ranges whose end is the container after their start are removed |
| `MusicXmlModRanges.DroppedMeansAdjacent` | amm_sdk/src/storage/musicxml.rs:1892-1903 | read on the containers: a collected range is dropped exactly when it is a legato or dynamic range with no non-empty container strictly inside it and a non-empty end (or no end and nothing after) |
| `MusicXmlModRanges.StartsAtMembership` | amm_sdk/src/storage/musicxml.rs:1906-1917 | each range puts its start entry on its start container, and nothing else goes there |
| `MusicXmlModRanges.EndsAtMembership` | amm_sdk/src/storage/musicxml.rs:1918-1924 | each range puts its end entry on its end container, and nothing else goes there |
| `MusicXmlModRanges.StartCountIsRangeCount` | amm_sdk/src/storage/musicxml.rs:1906-1925 | when every range lies on existing containers, all of them are counted as starting on one: each writes its start entry |
| `MusicXmlModRanges.EmittedStep` | amm_sdk/src/storage/musicxml.rs:1906-1925 | writing one more range appends its start and end entries to their containers |
| `MusicXmlModRanges.EmitModRanges` | amm_sdk/src/storage/musicxml.rs:1905-1925 | every container gets the start and end entries of the ranges that begin and end on it, in order; `combine_with_next` only when the next range spans the same containers |
| `MusicXmlModRanges.EnsureValidModOverlaps` | amm_sdk/src/storage/musicxml.rs:1659-1926 | afterwards every container's start and end lists hold exactly the entries written back from the collected, resolved and filtered ranges; nothing else changes |

## Left out

- Reading and writing files, and the `midly` event parsing of the MIDI loader. These are I/O and
  dispatch over an external parser. The loader's arithmetic on lengths and keys is modelled.
- The MusicXML loader's matching on the `musicxml` crate's types, its `find_*` helpers, and the
  section-structure builder. These are wrappers over an external parser.
- The `while swapped` overlap-resolution loops of `ensure_valid_mod_overlaps`. They have no evident
  termination measure. `MusicXmlModRanges.EnsureValidModOverlaps` takes them as the parameter
  `resolve`, which must keep ranges within bounds; the collect, filter and re-emit phases around
  them are modelled.
- The key-dependent branches of `Note::from_midi`. They call `Key::is_sharp_key` and
  `Key::contains`, which are not part of this model. Only the rest case is modelled
  (`Notes.FromMidiRest`).
- `Note::pitch_hz`, `Dynamic::value` and the MusicXML measure-length rounding. They are
  floating-point only (`powf`, `f32`).
- `Duration::get_minimum_divisible_notes`. It uses `fract` and float casts. The rest-filled staff
  that `clone_with_single_staff` builds from it is the parameter `Sections.Filler`.
- `TimesliceContent::get_pcm_samples`. It is `todo!()` in the source.
- `flatten_tuplets`. A slot that needs it makes `MultiVoiceFlatten.FlattenVoices` return none.
- `place_and_merge_timeslice` is not part of this model. The non-sub-section path of
  `Section::iter_timeslices` takes it as the parameter `Sections.Place`.
- `Section::insert_staff` and `Section::insert_section`. They return `last_mut()` rather than the
  inserted item, and hit `unreachable_unchecked` when the last item is of the other kind.
- `Staff::flatten`, `Section::flatten` and `Part::flatten`, and the id lookups (`get_note`,
  `get_chord`, `get_phrase`, `get_multivoice`, `get_direction`, `get_staff`, the `_mut` forms,
  `get_index_of_item`, `get_modification`). They only delegate to the modelled phrase code or search
  by id.
- Returned `&mut` references. `NotePlace`, `ChordPlace` and `SectionPlace` return the index of the
  added item. Every other edit is a function from the old value to the new one: the phrase and
  multivoice edits (`Phrases.Claim`, `Phrases.AddNote`, `Phrases.Insert`, `Phrases.AddModification`,
  `Phrases.ClaimVoice`, `Phrases.RemoveItem`, `Phrases.RemoveModification` and the rest), the staff edits, and
  `Sections.RemoveItem`, which edits nested staves and sections through the references the source
  iterates over. The caller writes the edited value back, so aliasing between the references is not
  modelled.
- The proc-macro code generation, the JSON round-trip test that depends on it, the `MutSet` wrapper,
  the WASM bindings and the demo binaries. The ordering that the generated `Ord` gives (by variant
  only) is modelled in `ModSets`.
- Atomic id generation. Ids are `freshId` parameters.
- Durations.FromBeats: requires a value below sixteen whole notes plus a 2048th
  (`FromBeatsLimit`). At or above it, `dots_from_remainder` over exact reals and an unbounded dot
  count never ends (`Durations.MaximaDotsNeverEnd`). The source's `dots` is a `u8`: on the 256th pass
  a debug build panics on the overflow, and a release build wraps it to 0, adds a whole Maxima and
  exits with a wrong dot count. Neither outcome is modelled.
- Durations.FromBeatsTied: the source's `f64::EPSILON` comparison is exact equality. Beats are
  exact reals here, and so is the 0.000001 tolerance of the merge and placement code.
- Pitches and Notes: `u8` and `i8` arithmetic is exact up to octave 9 (`Pitches.NoWrapUpToNine`).
  Above that the model takes the release build's wrap-around; a debug build panics instead. So does
  `Midi.KeyOctave`: for a key below 12 it gives the release build's wrapped octave 255, where a debug
  build panics on the `u8` subtraction. A note's
  dot count is a `nat`, and its `u8` wrap is not modelled.
- Timeslices.TupletRatio, Timeslices.ContentBeats, Timeslices.SoundingBeats, Timeslices.TimesliceBeats, Temporal.PlaceAndMerge and Phrases.PhraseBeats: require a tuplet's `num_beats` to be positive
  (`TupletHasBeats`). The source accepts zero and divides by it, which gives a float infinity or NaN.
- PhraseSlices.SliceLength: a slice whose tuplet has zero `num_beats` is given the countdown 0.0,
  and the multivoice merge (`PhraseSlices.MultiVoiceSlices`) runs on that value. The source's
  countdown is then +inf, or NaN for a zero-length note, and its merge compares against that.
- MusicXml.ConvertDivisionsToDuration: requires positive divisions and positive divisions per
  quarter note. The source divides by both.
- Json.NextKey, Json.NextValue and Json.GetType: index characters. The source enumerates `chars()`
  and slices bytes with those indices. The two agree on ASCII text. Before a multi-byte character,
  the source returns different slices or panics on a character boundary.
- PhraseSlices.MultiVoiceSlices, Sections.IterTimeslices and Sections.SectionSlices: state the
  corrected behaviour of the two findings below. Multivoices are merged under the corrected clock
  rule, and a section keeps the opening staff of a run of staves. `PhraseSlices.CountMultiVoice`
  counts under either rule (`intended`). The rules as written are modelled beside them, with the
  input that tells them apart.
- PhraseSlices, PhraseFlatten, Staves.EntrySlices and Sections.SingleStaff: a clone keeps the id of
  what it copies, where the source draws a fresh id. Ids take no part in equality.
- PhraseFlatten.FlattenKeepsBeats: requires that the phrase holds no multivoice. A flattened
  multivoice may overlap its voices (`MultiVoiceFlatten`), and those beats are not proved preserved.
- Parts.Part.Beats: carries no contract of its own. Its properties are stated on the function it is
  built from (`Parts.BeatsOf`).
- Tempos.Seconds and every `get_duration`: a tempo of 0 bpm gives no value (`None`). The source
  divides by zero there and gets a float infinity or NaN.
- Parts.Part.Clone and the other clones: an object that is cloned keeps the ids of what it holds
  (a part's sections keep theirs), so after a clone an id can occur twice in a score.

## Findings

| source | as written | input that shows it | evidently intended | confidence | as-written member | corrected member |
|---|---|---|---|---|---|---|
| amm_sdk/src/structure/multivoice.rs:517-550 | a voice that has run dry keeps its countdown, and that countdown still bounds the next step; a later call finds no voice due and returns none while other voices still hold slices | voices whose slices last 2; 6 and 1; 1, 4 and 1 beats: two slices, then none, with two voices still pending | an exhausted voice takes no part in the clock, and the iterator hands out every slice | not executed | `VoiceMerge.AsWrittenStopsEarly` | `VoiceMerge.IntendedDrainsAll` |
| amm/src/structure/section.rs:497-504 | the first staff of a run of staves opens the implicit section without being pushed into it | a staff followed by a sub-section: the staff's group is empty, so the staff never plays | every staff of the section is played once, in order | not executed | `Sections.OpeningStaffDroppedAsWritten` | `Sections.GroupsKeepStaves` |
| amm_sdk/src/storage/musicxml.rs:551-558 | `divisions_per_quarter_note / divisions <= 2` picks the eighth for a dotted sixteenth, and the dot count underflows | 8 divisions per quarter, 3 divisions (a dotted sixteenth) | the dotted sixteenth | not executed | `MusicXml.DottedSixteenthAsWritten` | `MusicXml.ConvertRoundTrip` |
| amm_sdk/src/storage/musicxml.rs:1500-1508 | a chord note is filed at `previous_cursor`, and a grace note does not move the cursor, so a chord note after a grace note lands with the note before it | a note of 4 divisions, a grace note, then a chord note: slots 0, 4, 0 | the chord note joins the grace note: slots 0, 4, 4 | not executed | `MusicXml.GraceChordAsWritten` | `MusicXml.IntendedChordJoinsNote` |
| amm_sdk/src/storage/midi.rs:67-71 | key % 12 = 3 gives E natural, the same as 4 | key 63 (E flat above middle C) is read back as 64 | E flat, so every key is read back as itself | not executed | `Midi.EFlatReadAsE` | `Midi.IntendedKeyLetterRoundTrip` |

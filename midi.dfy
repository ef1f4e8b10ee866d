/** The MIDI loader's arithmetic: splitting a note length into tied
    durations from a fixed table, and turning a MIDI key into a pitch. */
module Midi {
  import opened Ints
  import SeqFacts
  import opened Durations
  import opened Pitches
  import opened Accidentals

  const WholeValue: real := 1.0
  const HalfValue: real := 0.5
  const QuarterValue: real := 0.25
  const EighthValue: real := 0.125
  const SixteenthValue: real := 0.0625
  const ThirtySecondValue: real := 0.03125
  const SixtyFourthValue: real := 0.015625

  /** The lengths, in whole notes, that a tied piece may take: each type
      from a 64th to a whole, plain, dotted and double dotted, except that
      the last entry is a plain whole again. Each entry is the base value
      times 1, 1.5 or 1.75. */
  function NoteLengths(): seq<real> {
    seq(21, NoteLength)
  }

  /** Entry `i` of the table. */
  function NoteLength(i: int): real
  {
    if i == 0 then 0.015625
    else if i == 1 then 0.0234375
    else if i == 2 then 0.02734375
    else if i == 3 then 0.03125
    else if i == 4 then 0.046875
    else if i == 5 then 0.0546875
    else if i == 6 then 0.0625
    else if i == 7 then 0.09375
    else if i == 8 then 0.109375
    else if i == 9 then 0.125
    else if i == 10 then 0.1875
    else if i == 11 then 0.21875
    else if i == 12 then 0.25
    else if i == 13 then 0.375
    else if i == 14 then 0.4375
    else if i == 15 then 0.5
    else if i == 16 then 0.75
    else if i == 17 then 0.875
    else if i == 18 then 1.0
    else if i == 19 then 1.5
    else 1.0
  }


  /** The durations whose values the table lists, entry by entry. */
  const LengthDurations: seq<Duration> := [
    Duration(SixtyFourth, 0), Duration(SixtyFourth, 1), Duration(SixtyFourth, 2),
    Duration(ThirtySecond, 0), Duration(ThirtySecond, 1), Duration(ThirtySecond, 2),
    Duration(Sixteenth, 0), Duration(Sixteenth, 1), Duration(Sixteenth, 2),
    Duration(Eighth, 0), Duration(Eighth, 1), Duration(Eighth, 2),
    Duration(Quarter, 0), Duration(Quarter, 1), Duration(Quarter, 2),
    Duration(Half, 0), Duration(Half, 1), Duration(Half, 2),
    Duration(Whole, 0), Duration(Whole, 1), Duration(Whole, 0)
  ]

  // ---------------------------------------------------------------------
  // Flooring a length to the table
  // ---------------------------------------------------------------------

  /** The scan of `floor_note_length` from entry `i` on, holding `value`:
      every entry not above `x` replaces it, and the first entry above `x`
      ends the scan. */
  function FloorFrom(table: seq<real>, x: real, i: nat, value: real): (r: real)
    requires i <= |table|
    ensures r == value || (r in table[i..] && r <= x)
    ensures i < |table| && table[i] <= x ==> r in table[i..] && r <= x
    decreases |table| - i
  {
    if i == |table| then value
    else if table[i] <= x then FloorFrom(table, x, i + 1, table[i])
    else value
  }

  /** `floor_note_length` over a table: starting from 0. */
  function Floor(table: seq<real>, x: real): (r: real)
    ensures r == 0.0 || (r in table && r <= x)
    ensures |table| > 0 && table[0] <= x ==> r in table && r <= x
    ensures |table| > 0 && x < table[0] ==> r == 0.0
  {
    assert table[0..] == table;
    FloorFrom(table, x, 0, 0.0)
  }

  /** `floor_note_length`, the loop over the table. */
  method FloorNoteLength(table: seq<real>, x: real) returns (value: real)
    ensures value == Floor(table, x)
  {
    value := 0.0;
    var i := 0;
    while i < |table|
      invariant 0 <= i <= |table|
      invariant FloorFrom(table, x, i, value) == Floor(table, x)
    {
      if table[i] <= x {
        value := table[i];
      } else {
        return;
      }
      i := i + 1;
    }
  }

  /** Entries `0..n` never decrease. */
  ghost predicate AscendingUpTo(table: seq<real>, n: nat) {
    n <= |table| && forall a, b :: 0 <= a < b < n ==> table[a] <= table[b]
  }

  /** When the first `n` entries ascend and entry `n - 1` is already above
      `x`, the scan from `i` returns the greatest entry below `n` not above `x`. */
  lemma {:induction false} FloorFromGreatest(table: seq<real>, x: real, i: nat, value: real, n: nat)
    requires i <= n && AscendingUpTo(table, n)
    requires (i == 0 && value == 0.0) || (0 < i && value == table[i - 1] && value <= x)
    requires n < |table| ==> 0 < n && table[n - 1] > x
    ensures forall j :: 0 <= j < n && table[j] <= x ==> table[j] <= FloorFrom(table, x, i, value)
    decreases |table| - i
  {
    if i == |table| {
    } else if table[i] <= x {
      FloorFromGreatest(table, x, i + 1, table[i], n);
    } else {
      forall j | i <= j < n
        ensures table[j] > x
      {
        assert table[i] <= table[j];
      }
      forall j | 0 <= j < n && table[j] <= x
        ensures table[j] <= value
      {
      }
    }
  }

  lemma {:induction false} NoteLengthsAscendBeforeLast()
    ensures AscendingUpTo(NoteLengths(), 20)
  {
    forall a, b | 0 <= a < b < 20
      ensures NoteLengths()[a] <= NoteLengths()[b]
    {
      var k := a;
      while k < b
        invariant a <= k <= b
        invariant NoteLengths()[a] <= NoteLengths()[k]
      {
        k := k + 1;
      }
    }
  }

  /** Below a dotted whole the table ascends, so the floor is the greatest
      entry not above `x`. */
  lemma {:induction false} FloorIsGreatestBelowDottedWhole(x: real)
    requires x < WholeValue * 1.5
    ensures forall j :: 0 <= j < |NoteLengths()| && NoteLengths()[j] <= x ==> NoteLengths()[j] <= Floor(NoteLengths(), x)
  {
    var table := NoteLengths();
    assert table[19] > x by {
      assert table[19] == NoteLength(19);
    }
    assert table[20] == table[18] by {
      assert table[20] == NoteLength(20) && table[18] == NoteLength(18);
    }
    NoteLengthsAscendBeforeLast();
    FloorFromGreatest(table, x, 0, 0.0, 20);
    RepeatedLastCovered(table, x, Floor(table, x));
  }

  /** A bound on the entries before the last also bounds the last when it
      repeats an earlier one. */
  lemma RepeatedLastCovered(table: seq<real>, x: real, f: real)
    requires |table| == 21 && table[20] == table[18]
    requires forall j :: 0 <= j < 20 && table[j] <= x ==> table[j] <= f
    ensures forall j :: 0 <= j < |table| && table[j] <= x ==> table[j] <= f
  {
  }

  /** Every entry lies between a 64th and a dotted whole. */
  lemma {:induction false} LengthBounds()
    ensures forall t :: t in NoteLengths() ==> SixtyFourthValue <= t <= WholeValue * 1.5
  {
    forall t | t in NoteLengths()
      ensures SixtyFourthValue <= t <= WholeValue * 1.5
    {
      var k :| 0 <= k < 21 && NoteLengths()[k] == t;
      EntryBounds(k);
    }
  }

  lemma {:induction false} EntryBounds(k: int)
    requires 0 <= k < 21
    ensures SixtyFourthValue <= NoteLength(k) <= WholeValue * 1.5
  {
  }

  /** When no entry from `i` on is above `x`, the scan ends on the last entry. */
  lemma {:induction false} FloorFromAllBelow(table: seq<real>, x: real, i: nat, value: real)
    requires i < |table|
    requires forall k :: i <= k < |table| ==> table[k] <= x
    ensures FloorFrom(table, x, i, value) == table[|table| - 1]
    decreases |table| - i
  {
    if i + 1 < |table| {
      FloorFromAllBelow(table, x, i + 1, table[i]);
    }
  }

  /** From a dotted whole on, the scan passes the dotted whole and ends on
      the plain whole after it. */
  lemma {:induction false} FloorFromDottedWhole(x: real)
    requires x >= WholeValue * 1.5
    ensures Floor(NoteLengths(), x) == WholeValue
  {
    var table := NoteLengths();
    assert table[|table| - 1] == WholeValue by {
      assert table[20] == NoteLength(20);
    }
    LengthBounds();
    AllBelowAbove(table, WholeValue * 1.5, x);
    FloorOfAllBelow(table, x);
  }

  /** Entries not above `hi` are not above anything above `hi`. */
  lemma AllBelowAbove(table: seq<real>, hi: real, x: real)
    requires forall t :: t in table ==> SixtyFourthValue <= t <= hi
    requires hi <= x
    ensures forall t :: t in table ==> t <= x
  {
  }

  /** When no entry is above `x`, the scan ends on the last entry. */
  lemma {:induction false} FloorOfAllBelow(table: seq<real>, x: real)
    requires table != [] && forall t :: t in table ==> t <= x
    ensures Floor(table, x) == table[|table| - 1]
  {
    forall k | 0 <= k < |table|
      ensures table[k] <= x
    {
      assert table[k] in table;
    }
    FloorFromAllBelow(table, x, 0, 0.0);
    assert table[0..] == table;
  }

  /** The dotted whole is never returned: above it the plain whole wins, and
      below it the dotted whole is above `x`. */
  lemma {:induction false} DottedWholeUnreachable(x: real)
    ensures Floor(NoteLengths(), x) != WholeValue * 1.5
  {
    if x >= WholeValue * 1.5 {
      FloorFromDottedWhole(x);
    }
  }

  /** A duration with up to two dots is worth its type's value times 1,
      1.5 or 1.75. */
  lemma {:induction false} DottedValue(d: Duration)
    requires d.dots <= 2
    ensures d.dots == 0 ==> Value(d) == TypeValue(d.value)
    ensures d.dots == 1 ==> Value(d) == TypeValue(d.value) * 1.5
    ensures d.dots == 2 ==> Value(d) == TypeValue(d.value) * 1.75
    ensures Halve(TypeValue(d.value), d.dots) >= TypeValue(d.value) / 4.0
  {
    var t := TypeValue(d.value);
    assert Halve(t, 1) == t / 2.0;
    assert Halve(t, 2) == t / 4.0;
    assert DotSum(t, 1) == t + t / 2.0;
    assert DotSum(t, 2) == t + t / 2.0 + t / 4.0;
  }

  /** Every table entry is the value of the duration listed beside it, and
      `from_beats` rebuilds that duration from it. */
  lemma {:induction false} LengthDurationsMatch(i: nat)
    requires i < |NoteLengths()|
    ensures Value(LengthDurations[i]) == NoteLengths()[i]
    ensures NoteLengths()[i] < FromBeatsLimit
    ensures FromValue(NoteLengths()[i]) == LengthDurations[i]
  {
    var d := LengthDurations[i];
    DottedValue(d);
    FromValueRoundTrip(d);
  }

  lemma {:induction false} LengthsRoundTrip(t: real)
    requires t in NoteLengths()
    ensures t < FromBeatsLimit && Value(FromValue(t)) == t
  {
    var i :| 0 <= i < |NoteLengths()| && NoteLengths()[i] == t;
    LengthDurationsMatch(i);
  }

  // ---------------------------------------------------------------------
  // Splitting a length into tied pieces
  // ---------------------------------------------------------------------

  function Sum(s: seq<real>): real {
    if s == [] then 0.0 else s[0] + Sum(s[1..])
  }

  /** The lengths `from_beats_with_tie` splits a length `v` (in whole notes)
      into: the floor of what is left, as long as more than a 64th is left. */
  function TieLengths(v: real): (r: seq<real>)
    ensures v <= SixtyFourthValue ==> r == []
    decreases (v * 64.0).Floor
  {
    if v <= SixtyFourthValue then []
    else
      var t := Floor(NoteLengths(), v);
      // Never taken: above a 64th the floor is a table entry (`TieStep`).
      if t < SixtyFourthValue then []
      else [t] + TieLengths(v - t)
  }

  /** The pieces are table lengths and fall short of `v` by at most a 64th. */
  lemma {:induction false} TieLengthsCover(v: real)
    ensures v > SixtyFourthValue ==> |TieLengths(v)| > 0 && 0.0 <= v - Sum(TieLengths(v)) <= SixtyFourthValue
    ensures forall k :: 0 <= k < |TieLengths(v)| ==> TieLengths(v)[k] in NoteLengths()
    decreases (v * 64.0).Floor
  {
    if v > SixtyFourthValue {
      TieStep(v);
      var t := Floor(NoteLengths(), v);
      var rest := TieLengths(v - t);
      FloorShrinks(v, t);
      TieLengthsCover(v - t);
      SumCons(t, rest);
      var pieces := TieLengths(v);
      assert pieces == [t] + rest;
      if v - t <= SixtyFourthValue {
        assert rest == [];
      }
      PrependAllIn(t, rest, NoteLengths());
    }
  }

  /** An entry of the table followed by entries of the table. */
  lemma PrependAllIn(t: real, rest: seq<real>, table: seq<real>)
    requires t in table && forall k :: 0 <= k < |rest| ==> rest[k] in table
    ensures forall k :: 0 <= k < |[t] + rest| ==> ([t] + rest)[k] in table
  {
  }

  lemma SumCons(t: real, rest: seq<real>)
    ensures Sum([t] + rest) == t + Sum(rest)
    ensures forall k :: 0 < k <= |rest| ==> ([t] + rest)[k] == rest[k - 1]
  {
    assert ([t] + rest)[1..] == rest;
  }

  /** Above a 64th, the split takes the floor off first; the floor is at
      least a 64th and at most what is left. */
  lemma {:induction false} TieStep(v: real)
    requires v > SixtyFourthValue
    ensures SixtyFourthValue <= Floor(NoteLengths(), v) <= v && Floor(NoteLengths(), v) in NoteLengths()
    ensures TieLengths(v) == [Floor(NoteLengths(), v)] + TieLengths(v - Floor(NoteLengths(), v))
  {
    LengthBounds();
  }

  lemma {:induction false} FloorShrinks(value: real, temp: real)
    requires temp >= SixtyFourthValue
    ensures ((value - temp) * 64.0).Floor < (value * 64.0).Floor
  {
  }

  /** One tied piece: the duration of a table length. The source asks
      `from_beats` for `length / base.value()` beats, which it multiplies
      back by the base value to `length` itself. */
  function TiePiece(length: real): (d: Duration)
    requires length in NoteLengths()
    ensures Value(d) == length
  {
    LengthsRoundTrip(length);
    FromValue(length)
  }

  /** `Duration::from_beats_with_tie`: the pieces, longest first, that tie
      together to `beatLength` beats of `base`. */
  method FromBeatsWithTie(base: Duration, beatLength: real) returns (durations: seq<Duration>)
    ensures |durations| == |TieLengths(beatLength * Value(base))|
    ensures forall k :: 0 <= k < |durations| ==> Value(durations[k]) == TieLengths(beatLength * Value(base))[k]
    ensures beatLength * Value(base) <= SixtyFourthValue ==> durations == []
    ensures beatLength * Value(base) > SixtyFourthValue ==>
      0.0 <= beatLength * Value(base) - TotalValue(durations) <= SixtyFourthValue
  {
    var value := beatLength * Value(base);
    durations := TiePieces(value);
  }

  /** The loop of `from_beats_with_tie`, on the length `v` in whole notes. */
  method TiePieces(v: real) returns (durations: seq<Duration>)
    ensures |durations| == |TieLengths(v)|
    ensures forall k :: 0 <= k < |durations| ==> Value(durations[k]) == TieLengths(v)[k]
    ensures v <= SixtyFourthValue ==> durations == []
    ensures v > SixtyFourthValue ==> 0.0 <= v - TotalValue(durations) <= SixtyFourthValue
  {
    var value := v;
    ghost var lengths: seq<real> := [];
    durations := [];
    while value > SixtyFourthValue
      invariant |durations| == |lengths|
      invariant forall k :: 0 <= k < |durations| ==> Value(durations[k]) == lengths[k]
      invariant lengths + TieLengths(value) == TieLengths(v)
      invariant TotalValue(durations) + value == v
      invariant value == v || value >= 0.0
      decreases (value * 64.0).Floor
    {
      var temp, d := NextTiePiece(value, durations, lengths, v);
      durations := durations + [d];
      lengths := lengths + [temp];
      value := value - temp;
    }
  }

  /** One pass of the tie loop: the floor of the value left, as a length
      and as a duration; it is the first tie length of that value, so
      moving it from the value left to the pieces keeps the loop's
      invariant. */
  method NextTiePiece(value: real, durations: seq<Duration>, ghost lengths: seq<real>, ghost v: real)
    returns (temp: real, d: Duration)
    requires value > SixtyFourthValue
    requires lengths + TieLengths(value) == TieLengths(v)
    ensures Value(d) == temp && SixtyFourthValue <= temp <= value
    ensures (lengths + [temp]) + TieLengths(value - temp) == TieLengths(v)
    ensures TotalValue(durations + [d]) == TotalValue(durations) + temp
    ensures ((value - temp) * 64.0).Floor < (value * 64.0).Floor
  {
    temp := FloorNoteLength(NoteLengths(), value);
    TieStep(value);
    d := TiePiece(temp);
    FloorShrinks(value, temp);
    SeqFacts.ShiftFirst(lengths, temp, TieLengths(value - temp), TieLengths(value), TieLengths(v));
    TotalValuePush(durations, d);
  }

  /** When entries `i..m` are not above `x` and entry `m` is, the scan
      from `i` ends on entry `m - 1`. */
  lemma {:induction false} FloorFromStops(table: seq<real>, x: real, i: nat, value: real, m: nat)
    requires i < m < |table|
    requires forall l :: i <= l < m ==> table[l] <= x
    requires table[m] > x
    ensures FloorFrom(table, x, i, value) == table[m - 1]
    decreases m - i
  {
    if i + 1 < m {
      FloorFromStops(table, x, i + 1, table[i], m);
    }
  }

  /** An `x` from entry `k` up to the next entry, below a dotted whole,
      floors to entry `k`. */
  lemma {:induction false} FloorIs(x: real, k: int)
    requires 0 <= k < 19 && NoteLength(k) <= x < NoteLength(k + 1)
    ensures Floor(NoteLengths(), x) == NoteLength(k)
  {
    NoteLengthsAscendBeforeLast();
    forall l | 0 <= l < k + 1
      ensures NoteLengths()[l] <= x
    {
      assert NoteLengths()[l] <= NoteLengths()[k];
    }
    FloorFromStops(NoteLengths(), x, 0, 0.0, k + 1);
  }

  /** The splits of the source's tests, in quarter-note beats. 2.5 beats
      are a half and an eighth. */
  lemma {:induction false} TieHalfEighth(beats: real)
    requires beats == 2.5
    ensures TieLengths(beats * 0.25) == [HalfValue, EighthValue]
  {
    var x, rest := beats * 0.25, beats * 0.25 - HalfValue;
    assert x == 0.625 && rest == 0.125;
    assert NoteLength(15) == 0.5 && NoteLength(16) == 0.75 && NoteLength(9) == 0.125;
    TieTwo(x, 15, rest);
    TieOne(rest, 9);
  }

  /** 5 beats are a whole and a quarter. */
  lemma {:induction false} TieWholeQuarter(beats: real)
    requires beats == 5.0
    ensures TieLengths(beats * 0.25) == [WholeValue, QuarterValue]
  {
    var x, rest := beats * 0.25, beats * 0.25 - WholeValue;
    assert x == 1.25 && rest == 0.25;
    assert NoteLength(18) == 1.0 && NoteLength(19) == 1.5 && NoteLength(12) == 0.25;
    TieTwo(x, 18, rest);
    TieOne(rest, 12);
  }

  /** 1.25 beats are a quarter and a sixteenth. */
  lemma {:induction false} TieQuarterSixteenth(beats: real)
    requires beats == 1.25
    ensures TieLengths(beats * 0.25) == [QuarterValue, SixteenthValue]
  {
    var x, rest := beats * 0.25, beats * 0.25 - QuarterValue;
    assert x == 0.3125 && rest == 0.0625;
    assert NoteLength(12) == 0.25 && NoteLength(13) == 0.375 && NoteLength(6) == 0.0625;
    TieTwo(x, 12, rest);
    TieOne(rest, 6);
  }

  /** 5.25 beats are a whole, a quarter and a sixteenth. */
  lemma {:induction false} TieWholeQuarterSixteenth(beats: real)
    requires beats == 5.25
    ensures TieLengths(beats * 0.25) == [WholeValue, QuarterValue, SixteenthValue]
  {
    var x, rest := beats * 0.25, beats - 4.0;
    assert x == 1.3125 && rest == 1.25;
    assert NoteLength(18) == 1.0 && NoteLength(19) == 1.5;
    TieTwo(x, 18, rest * 0.25);
    TieQuarterSixteenth(rest);
  }

  /** A length that is itself an entry splits into that entry alone. */
  lemma {:induction false} TieOne(x: real, k: int)
    requires 0 <= k < 19 && NoteLength(k) == x && SixtyFourthValue < x
    ensures TieLengths(x) == [x]
  {
    FloorIs(x, k);
    EntryBounds(k);
  }

  /** A length whose floor is entry `k` splits into that entry and the
      split of the rest. */
  lemma {:induction false} TieTwo(x: real, k: int, rest: real)
    requires 0 <= k < 19 && SixtyFourthValue < x
    requires NoteLength(k) <= x < NoteLength(k + 1) && rest == x - NoteLength(k)
    ensures TieLengths(x) == [NoteLength(k)] + TieLengths(rest)
  {
    FloorIs(x, k);
    EntryBounds(k);
  }

  /** A pitch found for a MIDI key, with its accidental (`PitchContainer`). */
  datatype PitchContainer = PitchContainer(pitch: Pitch, accidental: Accidental)

  /** The letter and accidental the loader gives each key within an octave,
      counted from C, as written: keys 3 and 4 both give a natural E. */
  function KeyLetter(k: int): (r: (PitchName, Accidental))
    requires 0 <= k < 12
    ensures r.0 != Rest
  {
    if k == 0 then (C, Accidental.None)
    else if k == 1 then (D, Flat)
    else if k == 2 then (D, Accidental.None)
    else if k == 3 then (E, Accidental.None)
    else if k == 4 then (E, Accidental.None)
    else if k == 5 then (F, Accidental.None)
    else if k == 6 then (F, Sharp)
    else if k == 7 then (G, Accidental.None)
    else if k == 8 then (A, Flat)
    else if k == 9 then (A, Accidental.None)
    else if k == 10 then (B, Flat)
    else (B, Accidental.None)
  }

  /** The same table with key 3 spelled E flat, as the other black keys are
      spelled with a flat. */
  function IntendedKeyLetter(k: int): (r: (PitchName, Accidental))
    requires 0 <= k < 12
    ensures r.0 != Rest
    ensures k != 3 ==> r == KeyLetter(k)
  {
    if k == 3 then (E, Flat) else KeyLetter(k)
  }

  /** The octave the loader computes for a key: one less than the number of
      whole octaves in it, in wrapping `u8` arithmetic. */
  function KeyOctave(key: U8): (r: U8)
    ensures key >= 12 ==> r == key / 12 - 1 && r <= 20
    ensures key < 12 ==> r == 255
  {
    WrapU8(key / 12 - 1)
  }

  /** `PitchContainer::new`: key 255 is a rest; any other key takes its
      letter from `key % 12` and its octave from a loop that strips twelve
      semitones at a time, then steps one octave down. */
  method NewPitchContainer(key: U8) returns (c: PitchContainer)
    ensures key == 255 <==> IsRest(c.pitch)
    ensures key == 255 ==> c == PitchContainer(NewRest(), Accidental.None)
    ensures key != 255 ==> c.pitch.name == KeyLetter(key % 12).0 && c.accidental == KeyLetter(key % 12).1
    ensures key != 255 ==> c.pitch.octave == KeyOctave(key)
  {
    if key == 255 {
      return PitchContainer(NewRest(), Accidental.None);
    }
    var (name, accidental) := KeyLetter(key % 12);
    var octave: U8 := 0;
    var k: U8 := key;
    while k >= 12
      invariant 0 <= octave <= 21
      invariant k + 12 * octave == key
    {
      octave := octave + 1;
      k := k - 12;
    }
    assert octave == key / 12;
    octave := WrapU8(octave - 1);
    c := PitchContainer(NewPitch(name, octave), accidental);
  }

  /** The MIDI number a pitch and accidental stand for: 69 for A4, plus the
      semitone distance from A4 and the accidental's alteration. */
  function MidiKeyOf(c: PitchContainer): int {
    69 + Offset(c.pitch) + AccidentalValue(c.accidental)
  }

  /** The table as written gives back every key of an octave's C to the top
      of the MIDI range except the one `key % 12 == 3`, which comes back a
      semitone too high. */
  lemma {:induction false} KeyLetterRoundTrip(key: U8)
    requires 12 <= key < 128
    ensures var c := PitchContainer(Pitch(KeyLetter(key % 12).0, KeyOctave(key)), KeyLetter(key % 12).1);
      MidiKeyOf(c) == if key % 12 == 3 then key + 1 else key
  {
    var p := Pitch(KeyLetter(key % 12).0, KeyOctave(key));
    OffsetExact(p);
    assert key == 12 * (key / 12) + key % 12;
  }

  /** Key 63 (the E flat above middle C) is read back as key 64, E. */
  lemma {:induction false} EFlatReadAsE()
    ensures KeyLetter(63 % 12) == (E, Accidental.None)
    ensures MidiKeyOf(PitchContainer(Pitch(E, KeyOctave(63)), Accidental.None)) == 64
  {
    KeyLetterRoundTrip(63);
  }

  /** With key 3 spelled E flat, every key from 12 to 127 is read back as
      itself. */
  lemma {:induction false} IntendedKeyLetterRoundTrip(key: U8)
    requires 12 <= key < 128
    ensures var c := PitchContainer(Pitch(IntendedKeyLetter(key % 12).0, KeyOctave(key)), IntendedKeyLetter(key % 12).1);
      MidiKeyOf(c) == key
  {
    var p := Pitch(IntendedKeyLetter(key % 12).0, KeyOctave(key));
    OffsetExact(p);
    assert key == 12 * (key / 12) + key % 12;
  }
}

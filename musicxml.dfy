/** The MusicXML loader's own bookkeeping: the per-instant container it
    files parsed items into, turning a count of divisions into a dotted
    duration, and the cursor that tracks where in a measure the next item
    belongs.  Ranges of phrase modifications are in `MusicXmlModRanges`. */
module MusicXml {
  import opened Wrappers
  import opened Ints
  import opened Durations
  import Pitches
  import Accidentals
  import NoteModifications
  import ChordModifications
  import PM = PhraseModifications
  import Directions
  import Tempos
  import TempoSuggestions

  /** A phrase modification starting or ending at an instant. */
  datatype PhraseModDetails = PhraseModDetails(
    modification: PM.PhraseModificationType,
    isStart: bool,
    number: Option<U8>,
    forVoice: Option<string>,
    combineWithNext: bool)

  /** One parsed note, before it is placed in a phrase. */
  datatype NoteDetails = NoteDetails(
    pitch: Pitches.Pitch,
    duration: Duration,
    accidental: Accidentals.Accidental,
    divisions: nat,
    voice: Option<string>,
    arpeggiated: bool,
    nonArpeggiated: bool,
    noteModifications: seq<NoteModifications.NoteModificationType>,
    phraseModificationsStart: seq<PhraseModDetails>,
    phraseModificationsEnd: seq<PhraseModDetails>)

  /** Everything the loader found at one instant (one division) of a staff. */
  datatype TimeSliceContainer = TimeSliceContainer(
    direction: seq<Directions.DirectionType>,
    chordModification: seq<ChordModifications.ChordModificationType>,
    phraseModificationStart: seq<PhraseModDetails>,
    phraseModificationEnd: seq<PhraseModDetails>,
    jumpTo: Option<string>,
    sectionStart: Option<string>,
    ending: seq<(bool, seq<U8>)>,
    repeat: seq<(bool, U8)>,
    tempoChangeExplicit: Option<Tempos.Tempo>,
    tempoChangeImplicit: Option<TempoSuggestions.TempoSuggestion>,
    notes: seq<NoteDetails>)
  {
    /** Nothing was filed here: the container equals the derived default. */
    predicate IsEmpty(): (r: bool)
      ensures r <==> this == EmptyContainer
    {
      && direction == []
      && chordModification == []
      && phraseModificationStart == []
      && phraseModificationEnd == []
      && jumpTo.None?
      && sectionStart.None?
      && ending == []
      && repeat == []
      && tempoChangeExplicit.None?
      && tempoChangeImplicit.None?
      && notes == []
    }
  }

  /** The derived default container, with every list empty and every option unset. */
  const EmptyContainer: TimeSliceContainer :=
    TimeSliceContainer([], [], [], [], None, None, [], [], None, None, [])

  // ---------------------------------------------------------------------
  // Arithmetic on powers of two
  // ---------------------------------------------------------------------

  /** `n` halved `k` times, truncating each time; equal to `n / 2^k`. */
  function Halved(n: nat, k: nat): nat {
    if k == 0 then n else Halved(n, k - 1) / 2
  }

  /** `n` doubled `k` times, that is `n * 2^k`. */
  function Doubled(n: nat, k: nat): nat {
    if k == 0 then n else 2 * Doubled(n, k - 1)
  }

  /** `n` is a multiple of `2^k`: halving it `k` times loses nothing. */
  predicate HalvesExactly(n: nat, k: nat) {
    Doubled(Halved(n, k), k) == n
  }

  lemma MulMono(a: nat, b: nat, p: nat)
    requires a <= b
    ensures a * p <= b * p
  {
    var d := b - a;
    assert b * p == a * p + d * p;
  }

  lemma MulStep(a: nat, b: nat, p: nat)
    requires a < b
    ensures a * p + p <= b * p
  {
    var d := b - a;
    assert b * p == a * p + d * p;
    MulMono(1, d, p);
  }

  lemma DivUnique(n: nat, p: nat, q: nat)
    requires p > 0 && p * q <= n < p * q + p
    ensures n / p == q
  {
    var q0, r0 := n / p, n % p;
    assert n == p * q0 + r0;
    if q0 < q {
      MulStep(q0, q, p);
    } else if q0 > q {
      MulStep(q, q0, p);
    }
  }

  /** Halving a quotient by `a` is the quotient by `2 * a`. */
  lemma QuotientHalved(n: nat, a: nat)
    requires a > 0
    ensures (n / a) / 2 == n / (2 * a)
  {
    var m := n / a;
    var q := m / 2;
    assert m == 2 * q + m % 2;
    assert n == a * m + n % a;
    assert a * m == a * (2 * q) + a * (m % 2);
    assert a * (2 * q) == (2 * a) * q;
    MulMono(m % 2, 1, a);
    DivUnique(n, 2 * a, q);
  }

  /** Repeated halving is the division by `2^k` that the source performs. */
  lemma {:induction false} HalvedIsDivision(n: nat, k: nat)
    ensures Halved(n, k) == n / Pow2(k)
  {
    if k > 0 {
      HalvedIsDivision(n, k - 1);
      QuotientHalved(n, Pow2(k - 1));
    }
  }

  /** Repeated doubling is the multiplication by `2^k`. */
  lemma {:induction false} DoubledIsProduct(n: nat, k: nat)
    ensures Doubled(n, k) == n * Pow2(k)
  {
    if k > 0 {
      DoubledIsProduct(n, k - 1);
      assert n * Pow2(k) == 2 * (n * Pow2(k - 1));
    }
  }

  /** Halving exactly is divisibility by `2^k`. */
  lemma {:induction false} HalvesExactlyIsDivisibility(n: nat, k: nat)
    ensures HalvesExactly(n, k) <==> n % Pow2(k) == 0
  {
    HalvedIsDivision(n, k);
    DoubledIsProduct(Halved(n, k), k);
    assert n == (n / Pow2(k)) * Pow2(k) + n % Pow2(k);
  }

  lemma {:induction false} DoubledShift(n: nat, k: nat)
    ensures Doubled(2 * n, k) == Doubled(n, k + 1)
  {
    if k > 0 {
      DoubledShift(n, k - 1);
    }
  }

  lemma {:induction false} DoubledGrowsWithCount(n: nat, j: nat, k: nat)
    requires j <= k
    ensures Doubled(n, j) <= Doubled(n, k)
  {
    if j < k {
      DoubledGrowsWithCount(n, j, k - 1);
    }
  }

  lemma {:induction false} DoubledStrict(a: nat, b: nat, k: nat)
    requires a < b
    ensures Doubled(a, k) < Doubled(b, k)
  {
    if k > 0 {
      DoubledStrict(a, b, k - 1);
    }
  }

  lemma {:induction false} DoubledMono(a: nat, b: nat, k: nat)
    requires a <= b
    ensures Doubled(a, k) <= Doubled(b, k)
  {
    if a < b {
      DoubledStrict(a, b, k);
    }
  }

  /** Halving `c * 2^k` `j <= k` times leaves `c * 2^(k-j)`. */
  lemma {:induction false} HalvedDoubled(c: nat, k: nat, j: nat)
    requires j <= k
    ensures Halved(Doubled(c, k), j) == Doubled(c, k - j)
  {
    if j > 0 {
      HalvedDoubled(c, k, j - 1);
      assert Doubled(c, k - (j - 1)) == 2 * Doubled(c, k - j);
    }
  }

  // ---------------------------------------------------------------------
  // Counting dots (`calculate_num_dots`)
  // ---------------------------------------------------------------------

  /** The dot loop from `dots` dots on, with `remaining` divisions left to
      account for: each dot takes away the base halved once more, and the
      loop stops when nothing remains or at eight dots.  None stands for
      the `usize` subtraction underflowing. */
  function DotsLoop(base: nat, dots: nat, remaining: nat): (r: Option<nat>)
    requires dots <= 8
    ensures r.Some? ==> dots <= r.value <= 8
    decreases 8 - dots
  {
    if remaining > 0 && dots < 8 then
      var step := Halved(base, dots + 1);
      if remaining < step then None else DotsLoop(base, dots + 1, remaining - step)
    else Some(dots)
  }

  /** The number of dots that `total` divisions add to a type spanning
      `base` divisions; None when `total < base` (the first subtraction
      underflows) or a later subtraction does. */
  function NumDots(base: nat, total: nat): (r: Option<nat>)
    ensures r.Some? ==> r.value <= 8
    ensures total < base ==> r.None?
    ensures total == base ==> r == Some(0)
  {
    if total < base then None else DotsLoop(base, 0, total - base)
  }

  /** `calculate_num_dots`, as the loop the source runs. */
  method CalculateNumDots(base: nat, total: nat) returns (r: Option<nat>)
    ensures r == NumDots(base, total)
  {
    if total < base {
      return None;
    }
    var dots: nat, remaining: nat := 0, total - base;
    while remaining > 0 && dots < 8
      invariant dots <= 8
      invariant DotsLoop(base, dots, remaining) == NumDots(base, total)
      decreases 8 - dots
    {
      var step := base / Pow2(dots + 1);
      HalvedIsDivision(base, dots + 1);
      if remaining < step {
        return None;
      }
      dots, remaining := dots + 1, remaining - step;
    }
    return Some(dots);
  }

  /** The divisions spanned by a type of `base` divisions with `k` dots,
      each dot adding the base halved once more (truncating, as the loop does). */
  function DotDivisions(base: nat, k: nat): nat {
    if k == 0 then base else DotDivisions(base, k - 1) + Halved(base, k)
  }

  /** When the base is `c * 2^k`, the dotted count is `c * (2^(k+1) - 1)`:
      twice the base less `c`. */
  lemma {:induction false} DotDivisionsClosedForm(c: nat, k: nat)
    ensures DotDivisions(Doubled(c, k), k) == 2 * Doubled(c, k) - c
    decreases k
  {
    if k > 0 {
      DoubledShift(c, k - 1);
      DotDivisionsClosedForm(2 * c, k - 1);
      HalvedDoubled(c, k, k);
    }
  }

  lemma {:induction false} DoubledAtLeast(c: nat, k: nat)
    ensures c <= Doubled(c, k)
    ensures k > 0 ==> 2 * c <= Doubled(c, k)
    ensures c == 0 ==> Doubled(c, k) == 0
  {
    if c == 0 && k > 0 {
      DoubledAtLeast(c, k - 1);
    }
    DoubledGrowsWithCount(c, 0, k);
    if k > 0 {
      DoubledGrowsWithCount(c, 1, k);
    }
  }

  /** From `n` dots on, with `c * (2^(k-n) - 1)` divisions left, the loop
      ends with exactly `k` dots. */
  lemma {:induction false} DotsLoopCounts(c: nat, k: nat, n: nat)
    requires 1 <= c && n <= k <= 8
    ensures Doubled(c, k - n) >= c
    ensures DotsLoop(Doubled(c, k), n, Doubled(c, k - n) - c) == Some(k)
    decreases k - n
  {
    DoubledAtLeast(c, k - n);
    if n < k {
      var b := Doubled(c, k);
      var x := Doubled(c, k - (n + 1));
      HalvedDoubled(c, k, n + 1);
      assert Doubled(c, k - n) == 2 * x;
      DotsLoopCounts(c, k, n + 1);
      DotsLoopStep(b, n, Doubled(c, k - n) - c, x);
    }
  }

  /** One turn of the dot loop: with something left and fewer than eight
      dots, a step the remainder covers is taken. */
  lemma DotsLoopStep(base: nat, dots: nat, remaining: nat, step: nat)
    requires dots < 8 && 0 < remaining && step <= remaining
    requires step == Halved(base, dots + 1)
    ensures DotsLoop(base, dots, remaining) == DotsLoop(base, dots + 1, remaining - step)
  {
  }

  /** Counting the dots of a dotted count recovers the dots, for every base
      that is a positive multiple of `2^k` and at most eight dots. */
  lemma {:induction false} NumDotsRoundTrip(c: nat, k: nat)
    requires 1 <= c && k <= 8
    ensures NumDots(Doubled(c, k), DotDivisions(Doubled(c, k), k)) == Some(k)
  {
    DotDivisionsClosedForm(c, k);
    DotsLoopCounts(c, k, 0);
  }

  /** A base that truncates to zero never shrinks the remainder: the loop
      only stops at the eight-dot cap. */
  lemma {:induction false} DotsLoopZeroBase(dots: nat, remaining: nat)
    requires dots <= 8 && remaining > 0
    ensures DotsLoop(0, dots, remaining) == Some(8)
    decreases 8 - dots
  {
    if dots < 8 {
      HalvedZero(dots + 1);
      DotsLoopZeroBase(dots + 1, remaining);
    }
  }

  lemma {:induction false} HalvedZero(k: nat)
    ensures Halved(0, k) == 0
  {
    if k > 0 {
      HalvedZero(k - 1);
    }
  }

  lemma {:induction false} NumDotsZeroBase(total: nat)
    requires total > 0
    ensures NumDots(0, total) == Some(8)
  {
    DotsLoopZeroBase(0, total);
  }

  // ---------------------------------------------------------------------
  // Divisions to a duration (`convert_divisions_to_duration`)
  // ---------------------------------------------------------------------

  /** A type with the dots counted for it, if the count succeeded. */
  function WithDots(t: DurationType, dots: Option<nat>): (r: Option<Duration>)
    ensures r.Some? <==> dots.Some?
    ensures r.Some? ==> r.value == Duration(t, dots.value)
  {
    match dots
    case Some(k) => Some(Duration(t, k))
    case None => None
  }

  /** `convert_divisions_to_duration` as written: the longest type whose
      quotient test passes, with the dots its base leaves over.  Types from
      a quarter up compare `divisions / dpq` with a power of two; shorter
      types compare `dpq / divisions` with a power of two.  None stands for
      an underflow in the dot count. */
  function ConvertDivisionsToDuration(divisions: nat, dpq: nat, numDots: U8): (r: Option<Duration>)
    requires divisions > 0 && dpq > 0
  {
    if divisions / dpq >= 32 then WithDots(Maxima, NumDots(32 * dpq, divisions))
    else if divisions / dpq >= 16 then WithDots(Long, NumDots(16 * dpq, divisions))
    else if divisions / dpq >= 8 then WithDots(Breve, NumDots(8 * dpq, divisions))
    else if divisions / dpq >= 4 then WithDots(Whole, NumDots(4 * dpq, divisions))
    else if divisions / dpq >= 2 then WithDots(Half, NumDots(2 * dpq, divisions))
    else if divisions / dpq >= 1 then WithDots(Quarter, NumDots(dpq, divisions))
    else if dpq / divisions <= 2 then WithDots(Eighth, NumDots(dpq / 2, divisions))
    else if dpq / divisions <= 4 then WithDots(Sixteenth, NumDots(dpq / 4, divisions))
    else if dpq / divisions <= 8 then WithDots(ThirtySecond, NumDots(dpq / 8, divisions))
    else if dpq / divisions <= 16 then WithDots(SixtyFourth, NumDots(dpq / 16, divisions))
    else if dpq / divisions <= 32 then WithDots(OneHundredTwentyEighth, NumDots(dpq / 32, divisions))
    else if dpq / divisions <= 64 then WithDots(TwoHundredFiftySixth, NumDots(dpq / 64, divisions))
    else if dpq / divisions <= 128 then WithDots(FiveHundredTwelfth, NumDots(dpq / 128, divisions))
    else if dpq / divisions <= 256 then WithDots(OneThousandTwentyFourth, NumDots(dpq / 256, divisions))
    else Some(Duration(TwoThousandFortyEighth, numDots))
  }

  /** The divisions spanned by the undotted type of index `i` (0 is a
      maxima, 5 a quarter), as the conversion computes them. */
  function BaseDivisions(i: nat, dpq: nat): nat {
    if i <= 5 then Doubled(dpq, 5 - i) else Halved(dpq, i - 5)
  }

  /** `divisions` is at least as long as the undotted type of index `i`. */
  predicate LongEnough(divisions: nat, dpq: nat, i: nat) {
    if i <= 5 then divisions >= Doubled(dpq, 5 - i) else Doubled(divisions, i - 5) >= dpq
  }

  /** The corrected scan from index `i` on: the first type the note is at
      least as long as. */
  function ConvertFrom(divisions: nat, dpq: nat, numDots: U8, i: nat): (r: Option<Duration>)
    requires i <= 14
    decreases 14 - i
  {
    if i == 14 then Some(Duration(TwoThousandFortyEighth, numDots))
    else if LongEnough(divisions, dpq, i) then WithDots(FromIndex(i), NumDots(BaseDivisions(i, dpq), divisions))
    else ConvertFrom(divisions, dpq, numDots, i + 1)
  }

  /** The conversion as evidently intended: the shorter types are chosen by
      `divisions * 2^j >= dpq`, so a note is never given a type longer than
      itself. */
  function ConvertDivisions(divisions: nat, dpq: nat, numDots: U8): (r: Option<Duration>)
    requires divisions > 0 && dpq > 0
  {
    ConvertFrom(divisions, dpq, numDots, 0)
  }

  /** The divisions a dotted duration spans when a quarter spans `dpq`. */
  function DurationDivisions(d: Duration, dpq: nat): nat {
    DotDivisions(BaseDivisions(Index(d.value), dpq), d.dots)
  }

  /** The scan passes over indices whose type is too long. */
  lemma {:induction false} ConvertFromSkips(divisions: nat, dpq: nat, numDots: U8, i: nat, j: nat)
    requires i <= j <= 14
    requires forall l :: i <= l < j ==> !LongEnough(divisions, dpq, l)
    ensures ConvertFrom(divisions, dpq, numDots, i) == ConvertFrom(divisions, dpq, numDots, j)
    decreases j - i
  {
    if i < j {
      ConvertFromSkips(divisions, dpq, numDots, i + 1, j);
    }
  }

  /** Every note shorter than twice the undotted type of index `i` is too
      short for the longer types. */
  lemma {:induction false} TooShortForLonger(divisions: nat, dpq: nat, i: nat, l: nat)
    requires l < i < 14
    requires i <= 5 || HalvesExactly(dpq, i - 5)
    requires divisions < 2 * BaseDivisions(i, dpq)
    ensures !LongEnough(divisions, dpq, l)
  {
    var b := BaseDivisions(i, dpq);
    if i <= 5 {
      DoubledGrowsWithCount(dpq, 6 - i, 5 - l);
    } else {
      DoubledAtLeast(b, i - 5);
      if l <= 5 {
        DoubledAtLeast(dpq, 5 - l);
      } else {
        DoubledStrict(divisions, 2 * b, l - 5);
        DoubledShift(b, l - 5);
        DoubledGrowsWithCount(b, l - 4, i - 5);
      }
    }
  }

  /** The corrected conversion recovers every duration from a maxima down to
      a 1024th with at most eight dots, whenever its base and dots divide
      the divisions per quarter exactly. */
  lemma {:induction false} ConvertRoundTrip(d: Duration, dpq: nat, numDots: U8)
    requires dpq > 0 && Index(d.value) < 14 && d.dots <= 8
    requires Index(d.value) <= 5 || HalvesExactly(dpq, Index(d.value) - 5)
    requires HalvesExactly(BaseDivisions(Index(d.value), dpq), d.dots)
    ensures DurationDivisions(d, dpq) > 0
    ensures ConvertDivisions(DurationDivisions(d, dpq), dpq, numDots) == Some(d)
  {
    var i, k := Index(d.value), d.dots;
    var b := BaseDivisions(i, dpq);
    if i <= 5 {
      DoubledAtLeast(dpq, 5 - i);
    }
    if i > 5 {
      DoubledAtLeast(b, i - 5);
    }
    var c := Halved(b, k);
    DoubledAtLeast(c, k);
    assert c >= 1;
    var divisions := DurationDivisions(d, dpq);
    DotDivisionsClosedForm(c, k);
    DoubledAtLeast(c, k);
    assert b <= divisions < 2 * b;
    forall l | 0 <= l < i
      ensures !LongEnough(divisions, dpq, l)
    {
      TooShortForLonger(divisions, dpq, i, l);
    }
    ConvertFromSkips(divisions, dpq, numDots, 0, i);
    if i > 5 {
      DoubledMono(b, divisions, i - 5);
    }
    assert LongEnough(divisions, dpq, i);
    NumDotsRoundTrip(c, k);
    IndexInjective(FromIndex(i), d.value);
  }

  lemma QuotientAtLeast(x: nat, d: nat, m: nat)
    requires d > 0
    ensures x / d >= m <==> x >= m * d
  {
    var q := x / d;
    assert x == d * q + x % d;
    if q >= m {
      MulMono(m, q, d);
    } else {
      MulStep(q, m, d);
    }
  }

  /** For a note at least a quarter long, the conversion as written agrees
      with the corrected one. */
  lemma {:induction false} AsWrittenAgreesFromQuarter(divisions: nat, dpq: nat, numDots: U8)
    requires dpq > 0 && divisions >= dpq
    ensures ConvertDivisionsToDuration(divisions, dpq, numDots) == ConvertDivisions(divisions, dpq, numDots)
  {
    QuotientAtLeast(divisions, dpq, 32);
    QuotientAtLeast(divisions, dpq, 16);
    QuotientAtLeast(divisions, dpq, 8);
    QuotientAtLeast(divisions, dpq, 4);
    QuotientAtLeast(divisions, dpq, 2);
    QuotientAtLeast(divisions, dpq, 1);
    assert Doubled(dpq, 1) == 2 * dpq;
    assert Doubled(dpq, 2) == 4 * dpq;
    assert Doubled(dpq, 3) == 8 * dpq;
    assert Doubled(dpq, 4) == 16 * dpq;
    assert Doubled(dpq, 5) == 32 * dpq;
    assert LongEnough(divisions, dpq, 5);
  }

  /** A quarter, a half and a whole note's worth of divisions convert to
      those undotted types. */
  lemma {:induction false} ConvertWholeHalfQuarter(dpq: nat, numDots: U8)
    requires dpq > 0
    ensures ConvertDivisionsToDuration(dpq, dpq, numDots) == Some(Duration(Quarter, 0))
    ensures ConvertDivisionsToDuration(2 * dpq, dpq, numDots) == Some(Duration(Half, 0))
    ensures ConvertDivisionsToDuration(4 * dpq, dpq, numDots) == Some(Duration(Whole, 0))
  {
    ConvertRoundTrip(Duration(Quarter, 0), dpq, numDots);
    ConvertRoundTrip(Duration(Half, 0), dpq, numDots);
    ConvertRoundTrip(Duration(Whole, 0), dpq, numDots);
    AsWrittenAgreesFromQuarter(dpq, dpq, numDots);
    AsWrittenAgreesFromQuarter(2 * dpq, dpq, numDots);
    AsWrittenAgreesFromQuarter(4 * dpq, dpq, numDots);
  }

  /** With eight divisions per quarter, a dotted sixteenth spans three
      divisions.  As written, `8 / 3 <= 2` picks the eighth, whose four
      divisions exceed three, and the dot count underflows; the corrected
      conversion returns the dotted sixteenth. */
  lemma DottedSixteenthAsWritten()
    ensures DurationDivisions(Duration(Sixteenth, 1), 8) == 3
    ensures ConvertDivisionsToDuration(3, 8, 0) == None
    ensures ConvertDivisions(3, 8, 0) == Some(Duration(Sixteenth, 1))
  {
    assert Halved(8, 2) == 2;
    assert Doubled(Halved(8, 2), 2) == 8;
    assert Halved(2, 1) == 1 && Doubled(1, 1) == 2;
    ConvertRoundTrip(Duration(Sixteenth, 1), 8, 0);
  }

  // ---------------------------------------------------------------------
  // The measure cursor (`load_from_musicxml`)
  // ---------------------------------------------------------------------

  /** A measure element, as far as the cursor is concerned: a note with its
      chord flag and its divisions (zero for a grace note), a backup or a
      forward with its duration, and the elements that never move the cursor. */
  datatype MeasureElement =
    | AttributesElement
    | NoteElement(chord: bool, divisions: nat)
    | BackupElement(duration: nat)
    | ForwardElement(duration: nat)
    | DirectionElement
    | BarlineElement
    | OtherElement

  /** How far an element moves the cursor: what `parse_note_element`,
      `parse_backup_element`, `parse_forward_element` and the other parsers
      return.  A chord note returns 0; any other note its divisions. */
  function CursorChange(e: MeasureElement): int {
    match e
    case NoteElement(chord, divisions) => if chord then 0 else divisions
    case BackupElement(duration) => -(duration as int)
    case ForwardElement(duration) => duration
    case _ => 0
  }

  /** The loader's two cursors, in divisions from the start of the part. */
  datatype CursorState = CursorState(cursor: nat, previous: nat)

  /** `usize::saturating_add_signed`: a move below zero stops at zero. */
  function SaturatingAdd(x: nat, delta: int): nat {
    if x + delta < 0 then 0 else x + delta
  }

  /** The update after each element: only a nonzero move touches the
      cursors, and it remembers the cursor it leaves. */
  function Move(s: CursorState, change: int): CursorState {
    if change != 0 then CursorState(SaturatingAdd(s.cursor, change), s.cursor) else s
  }

  /** Where `parse_note_element` files a note: a chord note under the
      previous cursor, any other note under the cursor. */
  function NoteSlot(s: CursorState, chord: bool): nat {
    if chord then s.previous else s.cursor
  }

  /** The slot an element is filed under, if it is a note. */
  function SlotOf(s: CursorState, e: MeasureElement): Option<nat> {
    if e.NoteElement? then Some(NoteSlot(s, e.chord)) else None
  }

  /** The cursors after a run of elements, starting from zero. */
  function CursorAfter(elements: seq<MeasureElement>): CursorState {
    if elements == [] then CursorState(0, 0)
    else Move(CursorAfter(elements[..|elements| - 1]), CursorChange(elements[|elements| - 1]))
  }

  /** The slot of every element, in order. */
  function Slots(elements: seq<MeasureElement>): (r: seq<Option<nat>>)
    ensures |r| == |elements|
  {
    if elements == [] then []
    else
      var init := elements[..|elements| - 1];
      Slots(init) + [SlotOf(CursorAfter(init), elements[|elements| - 1])]
  }

  /** The element loop of `load_from_musicxml`, restricted to the cursors
      and to where each note is filed. */
  method WalkElements(elements: seq<MeasureElement>) returns (cursor: nat, previous: nat, slots: seq<Option<nat>>)
    ensures CursorState(cursor, previous) == CursorAfter(elements)
    ensures slots == Slots(elements)
  {
    cursor, previous, slots := 0, 0, [];
    var i := 0;
    while i < |elements|
      invariant i <= |elements|
      invariant CursorState(cursor, previous) == CursorAfter(elements[..i])
      invariant slots == Slots(elements[..i])
    {
      var e := elements[i];
      if e.NoteElement? {
        slots := slots + [Some(if e.chord then previous else cursor)];
      } else {
        slots := slots + [None];
      }
      var change := CursorChange(e);
      if change != 0 {
        previous := cursor;
        cursor := if cursor + change < 0 then 0 else cursor + change;
      }
      assert elements[..i + 1][..i] == elements[..i];
      i := i + 1;
    }
    assert elements[..i] == elements;
  }

  /** The slot of element `i` depends only on the elements before it. */
  lemma {:induction false} SlotsAt(elements: seq<MeasureElement>, i: nat)
    requires i < |elements|
    ensures Slots(elements)[i] == SlotOf(CursorAfter(elements[..i]), elements[i])
    decreases |elements|
  {
    var n := |elements| - 1;
    if i < n {
      SlotsAt(elements[..n], i);
      assert elements[..n][..i] == elements[..i];
    } else {
      assert elements[..n] == elements[..i];
    }
  }

  /** A note that moves the cursor, followed by a chord note: the chord note
      is filed with it. */
  lemma {:induction false} ChordJoinsPrecedingNote(elements: seq<MeasureElement>, i: nat)
    requires i + 1 < |elements|
    requires elements[i].NoteElement? && !elements[i].chord && elements[i].divisions > 0
    requires elements[i + 1].NoteElement? && elements[i + 1].chord
    ensures Slots(elements)[i + 1] == Slots(elements)[i]
  {
    SlotsAt(elements, i);
    SlotsAt(elements, i + 1);
    assert elements[..i + 1][..i] == elements[..i];
  }

  /** A forward followed by a backup of the same duration returns the
      cursor to where it was. */
  lemma {:induction false} ForwardThenBackup(elements: seq<MeasureElement>, d: nat)
    requires d > 0
    ensures CursorAfter(elements + [ForwardElement(d), BackupElement(d)]).cursor == CursorAfter(elements).cursor
  {
    var es := elements + [ForwardElement(d), BackupElement(d)];
    assert es[..|es| - 1] == elements + [ForwardElement(d)];
    assert (elements + [ForwardElement(d)])[..|elements|] == elements;
  }

  /** A backup further than the cursor stops at zero, and the cursor it
      left becomes the previous cursor. */
  lemma {:induction false} BackupSaturates(elements: seq<MeasureElement>, d: nat)
    requires d > CursorAfter(elements).cursor
    ensures CursorAfter(elements + [BackupElement(d)]) == CursorState(0, CursorAfter(elements).cursor)
  {
    assert (elements + [BackupElement(d)])[..|elements|] == elements;
  }

  /** An element that does not move the cursor leaves both cursors as they
      were: a grace note, a chord note, a direction, a barline. */
  lemma {:induction false} StillElement(elements: seq<MeasureElement>, e: MeasureElement)
    requires CursorChange(e) == 0
    ensures CursorAfter(elements + [e]) == CursorAfter(elements)
  {
    assert (elements + [e])[..|elements|] == elements;
  }

  // The corrected cursor: chord notes join the last note filed

  /** The cursors, plus the slot of the last note filed that was not a
      chord note. */
  datatype IntendedCursorState = IntendedCursorState(cursor: nat, previous: nat, lastNote: nat)

  function IntendedCursorAfter(elements: seq<MeasureElement>): IntendedCursorState {
    if elements == [] then IntendedCursorState(0, 0, 0)
    else
      var s := IntendedCursorAfter(elements[..|elements| - 1]);
      var e := elements[|elements| - 1];
      var m := Move(CursorState(s.cursor, s.previous), CursorChange(e));
      IntendedCursorState(m.cursor, m.previous, if e.NoteElement? && !e.chord then s.cursor else s.lastNote)
  }

  function IntendedSlotOf(s: IntendedCursorState, e: MeasureElement): Option<nat> {
    if e.NoteElement? then Some(if e.chord then s.lastNote else s.cursor) else None
  }

  /** The slots as evidently intended: a chord note goes where the note it
      sounds with went, even when that note is a grace note of no duration. */
  function IntendedSlots(elements: seq<MeasureElement>): (r: seq<Option<nat>>)
    ensures |r| == |elements|
  {
    if elements == [] then []
    else
      var init := elements[..|elements| - 1];
      IntendedSlots(init) + [IntendedSlotOf(IntendedCursorAfter(init), elements[|elements| - 1])]
  }

  lemma {:induction false} IntendedSlotsAt(elements: seq<MeasureElement>, i: nat)
    requires i < |elements|
    ensures IntendedSlots(elements)[i] == IntendedSlotOf(IntendedCursorAfter(elements[..i]), elements[i])
    decreases |elements|
  {
    var n := |elements| - 1;
    if i < n {
      IntendedSlotsAt(elements[..n], i);
      assert elements[..n][..i] == elements[..i];
    } else {
      assert elements[..n] == elements[..i];
    }
  }

  /** The corrected cursors move exactly as the loader's do. */
  lemma {:induction false} IntendedCursorsAgree(elements: seq<MeasureElement>)
    ensures IntendedCursorAfter(elements).cursor == CursorAfter(elements).cursor
    ensures IntendedCursorAfter(elements).previous == CursorAfter(elements).previous
  {
    if elements != [] {
      IntendedCursorsAgree(elements[..|elements| - 1]);
    }
  }

  /** Every chord note after a non-chord note `i`, with only chord notes
      between them, is filed with note `i`. */
  lemma {:induction false} IntendedChordJoinsNote(elements: seq<MeasureElement>, i: nat, j: nat)
    requires i < j < |elements|
    requires elements[i].NoteElement? && !elements[i].chord
    requires forall l :: i < l <= j ==> elements[l].NoteElement? && elements[l].chord
    ensures IntendedSlots(elements)[j] == IntendedSlots(elements)[i]
  {
    IntendedSlotsAt(elements, i);
    IntendedSlotsAt(elements, j);
    assert elements[..j][..i] == elements[..i];
    LastNoteAfterChords(elements[..j], i);
  }

  lemma {:induction false} LastNoteAfterChords(elements: seq<MeasureElement>, i: nat)
    requires i < |elements|
    requires elements[i].NoteElement? && !elements[i].chord
    requires forall l :: i < l < |elements| ==> elements[l].NoteElement? && elements[l].chord
    ensures IntendedCursorAfter(elements).lastNote == IntendedCursorAfter(elements[..i]).cursor
    decreases |elements|
  {
    var n := |elements| - 1;
    if i < n {
      assert elements[..n][..i] == elements[..i];
      LastNoteAfterChords(elements[..n], i);
    } else {
      assert elements[..n] == elements[..i];
    }
  }

  /** A grace note (no divisions) with a chord note after it: as written the
      chord note goes under the previous cursor, back where the note before
      the grace note was filed; as intended it joins the grace note. */
  lemma GraceChordAsWritten()
    ensures Slots([NoteElement(false, 4), NoteElement(false, 0), NoteElement(true, 0)]) == [Some(0), Some(4), Some(0)]
    ensures IntendedSlots([NoteElement(false, 4), NoteElement(false, 0), NoteElement(true, 0)]) == [Some(0), Some(4), Some(4)]
  {
    var es := [NoteElement(false, 4), NoteElement(false, 0), NoteElement(true, 0)];
    assert es[..2] == [NoteElement(false, 4), NoteElement(false, 0)];
    assert es[..2][..1] == [NoteElement(false, 4)];
    assert [NoteElement(false, 4)][..0] == [];
  }
}

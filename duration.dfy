/** Note durations: the fifteen duration types, dotted values, splitting a
    duration, and recovering durations from a beat count.  Values are exact
    reals measured in whole notes. */
module Durations {
  import opened Ints

  datatype DurationType =
    | Maxima | Long | Breve | Whole | Half | Quarter | Eighth | Sixteenth
    | ThirtySecond | SixtyFourth | OneHundredTwentyEighth | TwoHundredFiftySixth
    | FiveHundredTwelfth | OneThousandTwentyFourth | TwoThousandFortyEighth

  /** A base duration type and a number of augmentation dots. */
  datatype Duration = Duration(value: DurationType, dots: nat)

  /** The derived default: a quarter note without dots. */
  const DefaultDuration := Duration(Quarter, 0)

  /** The value of the shortest type, a 2048th note. */
  const SmallestValue: real := 0.00048828125

  /** Position of a type, from Maxima (0) down to 2048th (14). */
  function Index(t: DurationType): (i: nat)
    ensures i < 15
  {
    match t
    case Maxima => 0
    case Long => 1
    case Breve => 2
    case Whole => 3
    case Half => 4
    case Quarter => 5
    case Eighth => 6
    case Sixteenth => 7
    case ThirtySecond => 8
    case SixtyFourth => 9
    case OneHundredTwentyEighth => 10
    case TwoHundredFiftySixth => 11
    case FiveHundredTwelfth => 12
    case OneThousandTwentyFourth => 13
    case TwoThousandFortyEighth => 14
  }

  function FromIndex(i: nat): (t: DurationType)
    requires i < 15
    ensures Index(t) == i
  {
    if i == 0 then Maxima else if i == 1 then Long else if i == 2 then Breve
    else if i == 3 then Whole else if i == 4 then Half else if i == 5 then Quarter
    else if i == 6 then Eighth else if i == 7 then Sixteenth else if i == 8 then ThirtySecond
    else if i == 9 then SixtyFourth else if i == 10 then OneHundredTwentyEighth
    else if i == 11 then TwoHundredFiftySixth else if i == 12 then FiveHundredTwelfth
    else if i == 13 then OneThousandTwentyFourth else TwoThousandFortyEighth
  }

  lemma {:induction false} IndexInjective(s: DurationType, t: DurationType)
    ensures Index(s) == Index(t) ==> s == t
  {
  }

  /** The undotted value of a type in whole notes (`DurationType::value`). */
  function TypeValue(t: DurationType): real {
    match t
    case Maxima => 8.0
    case Long => 4.0
    case Breve => 2.0
    case Whole => 1.0
    case Half => 0.5
    case Quarter => 0.25
    case Eighth => 0.125
    case Sixteenth => 0.0625
    case ThirtySecond => 0.03125
    case SixtyFourth => 0.015625
    case OneHundredTwentyEighth => 0.0078125
    case TwoHundredFiftySixth => 0.00390625
    case FiveHundredTwelfth => 0.001953125
    case OneThousandTwentyFourth => 0.0009765625
    case TwoThousandFortyEighth => 0.00048828125
  }

  /** `v` divided by two `k` times, that is `v / 2^k`. */
  function Halve(v: real, k: nat): real {
    if k == 0 then v else Halve(v, k - 1) / 2.0
  }

  function Pow2(n: nat): (p: nat)
    ensures p >= 1
  {
    if n == 0 then 1 else 2 * Pow2(n - 1)
  }

  lemma {:induction false} HalfOfQuotient(v: real, p: real, h: real, q: real)
    requires p > 0.0 && h * p == v && q == 2.0 * p
    ensures (h / 2.0) * q == v
  {
  }

  /** Repeated halving is division by a power of two, as the source computes it. */
  lemma {:induction false} HalveIsDivision(v: real, k: nat)
    ensures Halve(v, k) * (Pow2(k) as real) == v
  {
    if k > 0 {
      HalveIsDivision(v, k - 1);
      HalfOfQuotient(v, Pow2(k - 1) as real, Halve(v, k - 1), Pow2(k) as real);
    }
  }

  lemma {:induction false} HalveAdd(v: real, m: nat, n: nat, mn: nat)
    requires mn == m + n
    ensures Halve(Halve(v, m), n) == Halve(v, mn)
    decreases n
  {
    if n > 0 {
      HalveAdd(v, m, n - 1, mn - 1);
    }
  }

  /** Halving commutes with the linear combination `2a - b`. */
  lemma {:induction false} HalveLinear(a: real, b: real, k: nat)
    ensures Halve(2.0 * a - b, k) == 2.0 * Halve(a, k) - Halve(b, k)
  {
    if k > 0 {
      HalveLinear(a, b, k - 1);
    }
  }

  lemma {:induction false} HalvePositive(v: real, k: nat)
    requires v > 0.0
    ensures 0.0 < Halve(v, k) <= v
  {
    if k > 0 {
      HalvePositive(v, k - 1);
    }
  }

  lemma {:induction false} HalveNonNegative(v: real, k: nat)
    requires v >= 0.0
    ensures Halve(v, k) >= 0.0
  {
    if k > 0 {
      HalveNonNegative(v, k - 1);
    }
  }

  /** Each further halving at least halves again: `v/2^j >= 2 * v/2^k` for `j < k`. */
  lemma {:induction false} HalveDecreasing(v: real, j: nat, k: nat)
    requires v > 0.0 && j < k
    ensures Halve(v, j) >= 2.0 * Halve(v, k)
    decreases k
  {
    if j < k - 1 {
      HalveDecreasing(v, j, k - 1);
      HalvePositive(v, k);
    }
  }

  /** Every value in the table is eight whole notes halved once per step down the list. */
  lemma {:induction false} TypeValueIsHalved(t: DurationType)
    ensures TypeValue(t) == Halve(8.0, Index(t))
  {
    assert Halve(8.0, 14) == SmallestValue;
  }

  /** A type `k` steps shorter is worth the longer type halved `k` times. */
  lemma {:induction false} TypeValueScaled(s: DurationType, t: DurationType, k: nat)
    requires Index(t) == Index(s) + k
    ensures TypeValue(t) == Halve(TypeValue(s), k)
  {
    TypeValueIsHalved(s);
    TypeValueIsHalved(t);
    HalveAdd(8.0, Index(s), k, Index(t));
  }

  /** base/2^0 + base/2^1 + ... + base/2^k: the value of a type with k dots. */
  function DotSum(base: real, k: nat): real {
    if k == 0 then base else DotSum(base, k - 1) + Halve(base, k)
  }

  /** The value of a dotted duration in whole notes (`Duration::value`). */
  function Value(d: Duration): real {
    DotSum(TypeValue(d.value), d.dots)
  }

  /** The dotted value falls short of twice the base by exactly the last dot. */
  lemma {:induction false} DotSumClosedForm(base: real, k: nat)
    ensures DotSum(base, k) == 2.0 * base - Halve(base, k)
  {
    if k > 0 {
      DotSumClosedForm(base, k - 1);
    }
  }

  /** A dotted duration is at least its type's value and stays below twice it. */
  lemma {:induction false} ValueBounds(d: Duration)
    ensures 0.0 < TypeValue(d.value) <= Value(d) < 2.0 * TypeValue(d.value)
  {
    var t := TypeValue(d.value);
    DotSumClosedForm(t, d.dots);
    HalvePositive(t, d.dots);
  }

  /** A triple-dotted whole and a quadruple-dotted quarter. */
  lemma {:induction false} ValueExamples()
    ensures Value(Duration(Whole, 3)) == 1.875
    ensures Value(Duration(Quarter, 4)) == 0.484375
  {
  }

  lemma {:induction false} DivThenMul(v: real, b: real)
    requires b != 0.0
    ensures (v / b) * b == v
  {
  }

  /** The number of beats of `base_beat_value` this duration lasts (`Duration::beats`). */
  function Beats(d: Duration, baseBeatValue: real): (r: real)
    requires baseBeatValue != 0.0
    ensures r * baseBeatValue == Value(d)
  {
    var v := Value(d);
    DivThenMul(v, baseBeatValue);
    v / baseBeatValue
  }

  /** One step shorter, saturating at the 2048th note. */
  function Shorter(t: DurationType): (r: DurationType)
    ensures Index(r) == if Index(t) < 14 then Index(t) + 1 else 14
  {
    match t
    case Maxima => Long
    case Long => Breve
    case Breve => Whole
    case Whole => Half
    case Half => Quarter
    case Quarter => Eighth
    case Eighth => Sixteenth
    case Sixteenth => ThirtySecond
    case ThirtySecond => SixtyFourth
    case SixtyFourth => OneHundredTwentyEighth
    case OneHundredTwentyEighth => TwoHundredFiftySixth
    case TwoHundredFiftySixth => FiveHundredTwelfth
    case FiveHundredTwelfth => OneThousandTwentyFourth
    case OneThousandTwentyFourth => TwoThousandFortyEighth
    case TwoThousandFortyEighth => TwoThousandFortyEighth
  }

  /** Each type's value is exactly half of the previous type's value. */
  lemma {:induction false} TypeValueHalves(t: DurationType)
    requires t != TwoThousandFortyEighth
    ensures TypeValue(Shorter(t)) * 2.0 == TypeValue(t)
  {
  }

  /** How often `n` can be halved (integer division) while it exceeds 1. */
  function Halvings(n: nat): nat {
    if n <= 1 then 0 else 1 + Halvings(n / 2)
  }

  function Min(a: int, b: int): int {
    if a <= b then a else b
  }

  /** `Duration::split`: one step shorter per halving of `intoNotes`, dots kept. */
  method Split(d: Duration, intoNotes: U8) returns (r: Duration)
    ensures r.dots == d.dots
    ensures r.value == FromIndex(Min(Index(d.value) + Halvings(intoNotes), 14))
    ensures intoNotes <= 1 ==> r == d
  {
    var n: nat := intoNotes;
    var duration := d.value;
    while n > 1
      invariant Index(duration) == Min(Index(d.value) + Halvings(intoNotes) - Halvings(n), 14)
      invariant Halvings(n) <= Halvings(intoNotes)
      decreases n
    {
      n := n / 2;
      duration := Shorter(duration);
    }
    r := Duration(duration, d.dots);
    IndexInjective(r.value, FromIndex(Min(Index(d.value) + Halvings(intoNotes), 14)));
  }

  /** Halving the base halves every dotted value built on it. */
  lemma {:induction false} DotSumHalved(b: real, m: nat, k: nat)
    ensures DotSum(Halve(b, m), k) == Halve(DotSum(b, k), m)
  {
    DotSumClosedForm(b, k);
    DotSumClosedForm(Halve(b, m), k);
    HalveLinear(b, Halve(b, k), m);
    HalveAdd(b, m, k, m + k);
    HalveAdd(b, k, m, m + k);
  }

  /** Splitting into `2^k` parts divides the value by `2^k` when no saturation occurs. */
  lemma {:induction false} SplitValue(d: Duration, k: nat)
    requires Index(d.value) + k <= 14
    ensures Value(Duration(FromIndex(Index(d.value) + k), d.dots)) == Halve(Value(d), k)
  {
    var t := FromIndex(Index(d.value) + k);
    TypeValueScaled(d.value, t, k);
    DotSumHalved(TypeValue(d.value), k, d.dots);
  }

  lemma {:induction false} HalvingStep(b: real, h: real, h2: real, kr: real)
    requires b >= 0.0 && h >= 0.0 && kr >= 1.0 && h * kr <= b && h2 == h / 2.0
    ensures h2 * (kr + 1.0) <= b
  {
    assert h * (kr + 1.0) <= h * (2.0 * kr);
  }

  /** Halving `k` times shrinks a value at least by the factor `k + 1`. */
  lemma {:induction false} HalveShrinks(b: real, k: nat)
    requires b >= 0.0
    ensures Halve(b, k) * ((k + 1) as real) <= b
  {
    if k > 0 {
      HalveShrinks(b, k - 1);
      HalveNonNegative(b, k - 1);
      HalvingStep(b, Halve(b, k - 1), Halve(b, k), k as real);
    }
  }

  /** The loop bound that makes `DotsFrom` terminate: past it the remainder is too small. */
  function DotsBound(base: real, full: real): nat
    requires base > 0.0 && full < 2.0 * base + SmallestValue
  {
    var q := (base / (SmallestValue - (full - 2.0 * base))).Floor;
    if q < 0 then 0 else q
  }

  lemma {:induction false} BelowQuotient(base: real, delta: real, h: real, kr: real)
    requires base > 0.0 && delta > 0.0 && h >= delta && h * kr <= base && kr >= 1.0
    ensures kr <= base / delta
  {
    assert delta * kr <= h * kr;
    assert (base / delta) * delta == base;
  }

  lemma {:induction false} DotsBoundSound(base: real, full: real, k: nat)
    requires base > 0.0 && full < 2.0 * base + SmallestValue
    requires full - DotSum(base, k) >= SmallestValue
    ensures k < DotsBound(base, full)
  {
    var delta := SmallestValue - (full - 2.0 * base);
    DotSumClosedForm(base, k);
    HalveShrinks(base, k);
    BelowQuotient(base, delta, Halve(base, k), (k + 1) as real);
  }

  /** The number of dots `dots_from_remainder` counts from `k` on: the first
      count whose dotted value comes within a 2048th of `full`. */
  function DotsFrom(base: real, full: real, k: nat): (r: nat)
    requires base > 0.0 && full < 2.0 * base + SmallestValue
    ensures k <= r
    ensures full - DotSum(base, r) < SmallestValue
    ensures forall j :: k <= j < r ==> full - DotSum(base, j) >= SmallestValue
    decreases DotsBound(base, full) - k
  {
    if full - DotSum(base, k) >= SmallestValue then
      DotsBoundSound(base, full, k);
      DotsFrom(base, full, k + 1)
    else
      k
  }

  /** `Duration::dots_from_remainder`: add one dot at a time, each worth
      `base / 2^dots`, while the value stays a 2048th or more short of `full`.
      The loop ends only when `full` is below twice `base` plus a 2048th. */
  method DotsFromRemainder(base: real, full: real) returns (dots: nat)
    requires base > 0.0 && full < 2.0 * base + SmallestValue
    ensures dots == DotsFrom(base, full, 0)
  {
    var current := base;
    dots := 0;
    while full - current >= SmallestValue
      invariant current == DotSum(base, dots)
      invariant DotsFrom(base, full, dots) == DotsFrom(base, full, 0)
      decreases DotsBound(base, full) - dots
    {
      DotsBoundSound(base, full, dots);
      dots := dots + 1;
      current := current + Halve(base, dots);
    }
  }

  /** The longest type whose value does not exceed `v`, or a 2048th when none does. */
  function LongestFitting(v: real): (t: DurationType)
    ensures v >= SmallestValue ==> TypeValue(t) <= v
    ensures t != Maxima ==> v < 2.0 * TypeValue(t)
    ensures v < SmallestValue ==> t == TwoThousandFortyEighth
  {
    if v >= 8.0 then Maxima
    else if v >= 4.0 then Long
    else if v >= 2.0 then Breve
    else if v >= 1.0 then Whole
    else if v >= 0.5 then Half
    else if v >= 0.25 then Quarter
    else if v >= 0.125 then Eighth
    else if v >= 0.0625 then Sixteenth
    else if v >= 0.03125 then ThirtySecond
    else if v >= 0.015625 then SixtyFourth
    else if v >= 0.0078125 then OneHundredTwentyEighth
    else if v >= 0.00390625 then TwoHundredFiftySixth
    else if v >= 0.001953125 then FiveHundredTwelfth
    else if v >= 0.0009765625 then OneThousandTwentyFourth
    else TwoThousandFortyEighth
  }

  /** A type whose value is at most `v` and more than half of `v` is the one picked. */
  lemma {:induction false} LongestFittingUnique(v: real, t: DurationType)
    requires TypeValue(t) <= v
    requires t == Maxima || v < 2.0 * TypeValue(t)
    ensures LongestFitting(v) == t
  {
  }

  /** The value bound below which `from_beats` terminates: sixteen whole notes
      plus a 2048th. */
  const FromBeatsLimit: real := 16.00048828125

  /** The duration `from_beats` builds for a value `v` in whole notes: the
      longest type that fits, with as many dots as bring it within a 2048th. */
  function FromValue(v: real): (r: Duration)
    requires v < FromBeatsLimit
    ensures v >= SmallestValue ==> TypeValue(r.value) <= v
    ensures v >= SmallestValue && r.value != Maxima ==> v < 2.0 * TypeValue(r.value)
    ensures v < SmallestValue ==> r == Duration(TwoThousandFortyEighth, 0)
    ensures v - Value(r) < SmallestValue
    ensures forall j :: 0 <= j < r.dots ==> v - DotSum(TypeValue(r.value), j) >= SmallestValue
  {
    var t := LongestFitting(v);
    Duration(t, DotsFrom(TypeValue(t), v, 0))
  }

  /** `Duration::from_beats`: the duration of `beats` beats of `base`.  A Maxima
      pick terminates only below sixteen whole notes plus a 2048th. */
  function FromBeats(base: Duration, beats: real): (r: Duration)
    requires beats * Value(base) < FromBeatsLimit
    ensures beats * Value(base) - Value(r) < SmallestValue
    ensures beats * Value(base) >= SmallestValue ==> TypeValue(r.value) <= beats * Value(base)
  {
    FromValue(beats * Value(base))
  }

  /** At or above the limit the value is a Maxima's, and every dot count
      `dots_from_remainder` reaches still leaves at least a 2048th uncovered:
      over exact reals with an unbounded count its loop goes on for ever.
      The source's `u8` count overflows on the 256th pass instead. */
  lemma {:induction false} MaximaDotsNeverEnd(v: real, k: nat)
    requires v >= FromBeatsLimit
    ensures LongestFitting(v) == Maxima
    ensures v - DotSum(TypeValue(Maxima), k) >= SmallestValue
  {
    DotSumClosedForm(TypeValue(Maxima), k);
    HalvePositive(TypeValue(Maxima), k);
  }

  /** Every earlier dot count leaves at least the last dot's worth uncovered. */
  lemma {:induction false} EarlierDotsFallShort(d: Duration, j: nat)
    requires j < d.dots
    ensures Value(d) - DotSum(TypeValue(d.value), j) >= Halve(TypeValue(d.value), d.dots)
  {
    var t := TypeValue(d.value);
    ValueBounds(d);
    DotSumClosedForm(t, j);
    DotSumClosedForm(t, d.dots);
    HalveDecreasing(t, j, d.dots);
  }

  /** `from_beats` recovers every duration whose last dot is at least a 2048th. */
  lemma {:induction false} FromValueRoundTrip(d: Duration)
    requires Halve(TypeValue(d.value), d.dots) >= SmallestValue
    ensures Value(d) < FromBeatsLimit
    ensures FromValue(Value(d)) == d
  {
    ValueBounds(d);
    var t, v := TypeValue(d.value), Value(d);
    LongestFittingUnique(v, d.value);
    var r := FromValue(v);
    assert r.value == d.value;
    if r.dots < d.dots {
      EarlierDotsFallShort(d, r.dots);
      assert false;
    } else if r.dots > d.dots {
      assert false;
    }
  }

  /** `Duration::from_duration`: the duration lasting `seconds` when `bpm`
      beats of `baseNote` sound per minute. */
  function FromDuration(baseNote: Duration, bpm: U16, seconds: real): (r: Duration)
    requires seconds * (bpm as real) / 60.0 * Value(baseNote) < FromBeatsLimit
    ensures seconds * (bpm as real) / 60.0 * Value(baseNote) - Value(r) < SmallestValue
  {
    FromBeats(baseNote, seconds * (bpm as real) / 60.0)
  }

  /** At 120 quarter notes per minute half a second is a quarter, 0.875 s a
      double-dotted quarter and one second a half note. */
  lemma {:induction false} FromDurationExamples()
    ensures FromDuration(DefaultDuration, 120, 0.5) == Duration(Quarter, 0)
    ensures FromDuration(DefaultDuration, 120, 0.875) == Duration(Quarter, 2)
    ensures FromDuration(DefaultDuration, 120, 1.0) == Duration(Half, 0)
  {
    FromValueRoundTrip(Duration(Quarter, 0));
    FromValueRoundTrip(Duration(Quarter, 2));
    FromValueRoundTrip(Duration(Half, 0));
  }

  /** The sum of the values of a list of tied durations. */
  function TotalValue(ds: seq<Duration>): real {
    if ds == [] then 0.0 else TotalValue(ds[..|ds| - 1]) + Value(ds[|ds| - 1])
  }

  lemma {:induction false} TotalValuePush(ds: seq<Duration>, d: Duration)
    ensures TotalValue(ds + [d]) == TotalValue(ds) + Value(d)
  {
    assert (ds + [d])[..|ds|] == ds;
  }

  /** Folding a piece worth half of the last undotted duration into it as a
      dot adds the piece's value to the total; a dotted last duration is never
      folded into, as the remaining value is below half its type's value. */
  lemma {:induction false} FoldIntoLast(tied: seq<Duration>, p: real, remaining: real)
    requires tied != [] && tied[|tied| - 1].dots <= 1
    requires 0.5 * Value(tied[|tied| - 1]) == p && p <= remaining
    requires tied[|tied| - 1].dots == 1 ==> remaining < TypeValue(tied[|tied| - 1].value) / 2.0
    ensures tied[|tied| - 1].dots == 0
    ensures TotalValue(tied[..|tied| - 1] + [Duration(tied[|tied| - 1].value, 1)]) == TotalValue(tied) + p
  {
    var n := |tied|;
    var last := tied[n - 1];
    ValueBounds(last);
    var folded := Duration(last.value, 1);
    assert Value(folded) == Value(last) + p;
    TotalValuePush(tied[..n - 1], folded);
    TotalValuePush(tied[..n - 1], last);
    assert tied[..n - 1] + [last] == tied;
  }

  /** The shape of a list of tied durations: at most one dot each, longest
      type first with only Maxima repeating, and no duration worth exactly
      half of the one before it. */
  predicate TiedShape(tied: seq<Duration>) {
    && (forall i :: 0 <= i < |tied| ==> tied[i].dots <= 1)
    && (forall i :: 0 <= i < |tied| - 1 ==>
         TypeValue(tied[i + 1].value) < TypeValue(tied[i].value) || tied[i].value == tied[i + 1].value == Maxima)
    && (forall i :: 0 <= i < |tied| - 1 ==> 0.5 * Value(tied[i]) != TypeValue(tied[i + 1].value))
  }

  /** An undotted piece that is shorter than the last duration (or a further
      Maxima) and not half of it keeps the shape when pushed. */
  lemma {:induction false} TiedShapePush(tied: seq<Duration>, piece: Duration)
    requires TiedShape(tied) && piece.dots == 0
    requires tied != [] ==>
      (TypeValue(piece.value) < TypeValue(tied[|tied| - 1].value) || tied[|tied| - 1].value == piece.value == Maxima)
    requires tied != [] ==> 0.5 * Value(tied[|tied| - 1]) != TypeValue(piece.value)
    ensures TiedShape(tied + [piece])
  {
    var r := tied + [piece];
    forall i | 0 <= i < |r| - 1
      ensures TypeValue(r[i + 1].value) < TypeValue(r[i].value) || r[i].value == r[i + 1].value == Maxima
      ensures 0.5 * Value(r[i]) != TypeValue(r[i + 1].value)
    {
      if i < |tied| - 1 {
        assert r[i] == tied[i] && r[i + 1] == tied[i + 1];
      } else {
        assert r[i] == tied[|tied| - 1] && r[i + 1] == piece;
      }
    }
  }

  /** Giving the last, undotted duration a dot keeps the shape: its type is
      unchanged, and it is the last one. */
  lemma {:induction false} TiedShapeFold(tied: seq<Duration>)
    requires TiedShape(tied) && tied != [] && tied[|tied| - 1].dots == 0
    ensures TiedShape(tied[..|tied| - 1] + [Duration(tied[|tied| - 1].value, 1)])
  {
    var n := |tied|;
    var r := tied[..n - 1] + [Duration(tied[n - 1].value, 1)];
    forall i | 0 <= i < |r| - 1
      ensures TypeValue(r[i + 1].value) < TypeValue(r[i].value) || r[i].value == r[i + 1].value == Maxima
      ensures 0.5 * Value(r[i]) != TypeValue(r[i + 1].value)
    {
      assert r[i] == tied[i] && r[i + 1].value == tied[i + 1].value;
    }
  }

  /** One pass's bookkeeping in `from_beats_tied`: the piece is folded into
      the last duration as a further dot when it is worth exactly half of
      that duration, and pushed otherwise. */
  function Tie(tied: seq<Duration>, piece: Duration): seq<Duration> {
    if tied != [] && 0.5 * Value(tied[|tied| - 1]) == Value(piece) then
      tied[..|tied| - 1] + [Duration(tied[|tied| - 1].value, tied[|tied| - 1].dots + 1)]
    else
      tied + [piece]
  }

  /** Taking a piece of at least a 2048th off the value lowers the number of
      whole 2048ths it holds. */
  lemma {:induction false} FloorDrops(remaining: real, p: real)
    requires SmallestValue <= p <= remaining
    ensures 0 <= ((remaining - p) / SmallestValue).Floor < (remaining / SmallestValue).Floor
  {
  }

  /** The greedy split `from_beats_tied` performs, as a reference: while at
      least a 2048th remains, the longest undotted type that fits is taken
      off the remaining value and tied on with `Tie`. */
  function TiedGreedy(tied: seq<Duration>, remaining: real): seq<Duration>
    decreases if remaining < SmallestValue then 0 else (remaining / SmallestValue).Floor
  {
    if remaining < SmallestValue then tied
    else
      var piece := Duration(LongestFitting(remaining), 0);
      FloorDrops(remaining, Value(piece));
      TiedGreedy(Tie(tied, piece), remaining - Value(piece))
  }

  /** One unfolding of the reference while a 2048th remains. */
  lemma {:induction false} TiedGreedyStep(tied: seq<Duration>, remaining: real)
    requires remaining >= SmallestValue
    ensures TiedGreedy(tied, remaining) ==
      TiedGreedy(Tie(tied, Duration(LongestFitting(remaining), 0)), remaining - Value(Duration(LongestFitting(remaining), 0)))
  {
  }

  /** Seven eighths of a whole note tie as a dotted half and an eighth: the
      quarter taken after the half is half of it and becomes its dot. */
  lemma {:induction false} TiedSevenEighths()
    ensures TiedGreedy([], 0.875) == [Duration(Half, 1), Duration(Eighth, 0)]
  {
    var half, quarter, eighth := Duration(Half, 0), Duration(Quarter, 0), Duration(Eighth, 0);
    assert Value(half) == 0.5 && Value(quarter) == 0.25 && Value(eighth) == 0.125;
    assert Value(Duration(Half, 1)) == 0.75;
    assert TiedGreedy([], 0.875) == TiedGreedy([half], 0.375);
    assert Tie([half], quarter) == [Duration(Half, 1)];
    assert TiedGreedy([half], 0.375) == TiedGreedy([Duration(Half, 1)], 0.125);
    assert Tie([Duration(Half, 1)], eighth) == [Duration(Half, 1), eighth];
    assert TiedGreedy([Duration(Half, 1)], 0.125) == TiedGreedy([Duration(Half, 1), eighth], 0.0);
  }

  /** `Duration::from_beats_tied`: greedily peel off the longest undotted type
      that fits the remaining value, folding a piece into the previous duration
      as an extra dot when it is exactly half of that duration's value.  The
      durations tie to the whole value less under a 2048th, and have the
      shape `TiedShape`: in particular no duration is worth exactly half of
      the one before it, since such a piece would have been folded. */
  method FromBeatsTied(base: Duration, beats: real) returns (tied: seq<Duration>)
    ensures beats * Value(base) < SmallestValue ==> tied == []
    ensures beats * Value(base) >= SmallestValue ==> 0.0 <= beats * Value(base) - TotalValue(tied) < SmallestValue
    ensures TiedShape(tied)
    ensures tied == TiedGreedy([], beats * Value(base))
  {
    tied := [];
    var remaining := beats * Value(base);
    ghost var v := remaining;
    while remaining >= SmallestValue
      invariant TiedGreedy(tied, remaining) == TiedGreedy([], v)
      invariant TotalValue(tied) + remaining == v
      invariant v < SmallestValue ==> tied == [] && remaining == v
      invariant v >= SmallestValue ==> remaining >= 0.0
      invariant TiedShape(tied)
      invariant tied != [] && tied[|tied| - 1].dots == 1 ==>
        remaining < TypeValue(tied[|tied| - 1].value) / 2.0
      invariant tied != [] && tied[|tied| - 1].value != Maxima ==> remaining < TypeValue(tied[|tied| - 1].value)
      decreases (remaining / SmallestValue).Floor
    {
      TieKeeps(tied, remaining);
      FloorDrops(remaining, Value(Duration(LongestFitting(remaining), 0)));
      tied, remaining := TiedPass(tied, remaining);
    }
  }

  /** One pass of the loop of `from_beats_tied`: the longest type that fits
      is taken off the remaining value and pushed, or folded into the last
      duration as a dot. */
  method TiedPass(tied: seq<Duration>, remaining: real) returns (tied': seq<Duration>, remaining': real)
    requires remaining >= SmallestValue
    ensures tied' == Tie(tied, Duration(LongestFitting(remaining), 0))
    ensures remaining' == remaining - Value(Duration(LongestFitting(remaining), 0))
    ensures TiedGreedy(tied', remaining') == TiedGreedy(tied, remaining)
  {
    var piece := Duration(LongestFitting(remaining), 0);
    var p := Value(piece);
    remaining' := remaining - p;
    if tied != [] && 0.5 * Value(tied[|tied| - 1]) == p {
      var last := tied[|tied| - 1];
      tied' := tied[..|tied| - 1] + [Duration(last.value, last.dots + 1)];
    } else {
      tied' := tied + [piece];
    }
    TiedGreedyPass(tied, remaining, tied', remaining');
  }

  /** A pass that ties on the longest fitting piece leaves the reference's
      result unchanged. */
  lemma {:induction false} TiedGreedyPass(tied: seq<Duration>, remaining: real, tied': seq<Duration>, remaining': real)
    requires remaining >= SmallestValue
    requires tied' == Tie(tied, Duration(LongestFitting(remaining), 0))
    requires remaining' == remaining - Value(Duration(LongestFitting(remaining), 0))
    ensures TiedGreedy(tied', remaining') == TiedGreedy(tied, remaining)
  {
    TiedGreedyStep(tied, remaining);
  }

  /** What one pass keeps: the total with what remains, the shape, and the
      bounds on what remains against the last duration. */
  lemma {:induction false} TieKeeps(tied: seq<Duration>, remaining: real)
    requires remaining >= SmallestValue && TiedShape(tied)
    requires tied != [] && tied[|tied| - 1].dots == 1 ==>
      remaining < TypeValue(tied[|tied| - 1].value) / 2.0
    requires tied != [] && tied[|tied| - 1].value != Maxima ==> remaining < TypeValue(tied[|tied| - 1].value)
    ensures var piece := Duration(LongestFitting(remaining), 0);
      var t := Tie(tied, piece);
      var rem := remaining - Value(piece);
      && TotalValue(t) + rem == TotalValue(tied) + remaining
      && TiedShape(t) && t != []
      && (t[|t| - 1].dots == 1 ==> rem < TypeValue(t[|t| - 1].value) / 2.0)
      && (t[|t| - 1].value != Maxima ==> rem < TypeValue(t[|t| - 1].value))
  {
    var piece := Duration(LongestFitting(remaining), 0);
    assert Value(piece) == TypeValue(piece.value);
    if tied != [] && 0.5 * Value(tied[|tied| - 1]) == Value(piece) {
      TieFoldStep(tied, remaining);
      var last := tied[|tied| - 1];
      assert Tie(tied, piece) == tied[..|tied| - 1] + [Duration(last.value, 1)];
    } else {
      TiePushStep(tied, remaining);
      assert Tie(tied, piece) == tied + [piece];
    }
  }

  /** The folding branch of one pass: the last duration takes a dot, the
      total grows by the piece, and the shape and the bounds on what remains
      carry over. */
  lemma {:induction false} TieFoldStep(tied: seq<Duration>, remaining: real)
    requires remaining >= SmallestValue && TiedShape(tied) && tied != []
    requires tied[|tied| - 1].dots == 1 ==> remaining < TypeValue(tied[|tied| - 1].value) / 2.0
    requires tied[|tied| - 1].value != Maxima ==> remaining < TypeValue(tied[|tied| - 1].value)
    requires 0.5 * Value(tied[|tied| - 1]) == TypeValue(LongestFitting(remaining))
    ensures tied[|tied| - 1].dots == 0
    ensures var t := tied[..|tied| - 1] + [Duration(tied[|tied| - 1].value, 1)];
      var rem := remaining - TypeValue(LongestFitting(remaining));
      && TotalValue(t) + rem == TotalValue(tied) + remaining
      && TiedShape(t)
      && rem < TypeValue(tied[|tied| - 1].value) / 2.0
  {
    var last := tied[|tied| - 1];
    var p := TypeValue(LongestFitting(remaining));
    FoldIntoLast(tied, p, remaining);
    TiedShapeFold(tied);
    ValueBounds(last);
    assert Value(last) == TypeValue(last.value);
  }

  /** The pushing branch of one pass: the undotted piece goes on the end,
      the total grows by it, and the shape and the bounds on what remains
      carry over. */
  lemma {:induction false} TiePushStep(tied: seq<Duration>, remaining: real)
    requires remaining >= SmallestValue && TiedShape(tied)
    requires tied != [] && tied[|tied| - 1].dots == 1 ==>
      remaining < TypeValue(tied[|tied| - 1].value) / 2.0
    requires tied != [] && tied[|tied| - 1].value != Maxima ==> remaining < TypeValue(tied[|tied| - 1].value)
    requires tied != [] ==> 0.5 * Value(tied[|tied| - 1]) != TypeValue(LongestFitting(remaining))
    ensures var piece := Duration(LongestFitting(remaining), 0);
      var rem := remaining - TypeValue(piece.value);
      && TotalValue(tied + [piece]) + rem == TotalValue(tied) + remaining
      && TiedShape(tied + [piece])
      && (piece.value != Maxima ==> rem < TypeValue(piece.value))
  {
    var piece := Duration(LongestFitting(remaining), 0);
    assert Value(piece) == TypeValue(piece.value);
    TotalValuePush(tied, piece);
    TiedShapePush(tied, piece);
  }
}

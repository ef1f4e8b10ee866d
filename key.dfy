/** Keys: a mode and a signature, their position on the circle of fifths,
    parallel and relative keys, and the accidentals a signature implies. */
module Keys {
  import opened Ints
  import opened Wrappers
  import opened Accidentals

  datatype KeyMode = Major | Minor

  datatype KeySignature =
    | A | ASharp | AFlat | B | BFlat | C | CSharp | CFlat | D | DSharp | DFlat
    | E | EFlat | F | FSharp | G | GSharp | GFlat

  datatype Key = Key(mode: KeyMode, signature: KeySignature)

  /** The default key is C major. */
  const DefaultKey := Key(Major, C)

  /** `Key::new`. */
  function NewKey(signature: KeySignature, mode: KeyMode): (k: Key)
    ensures k.signature == signature && k.mode == mode
  {
    Key(mode, signature)
  }

  function Flip(m: KeyMode): (r: KeyMode)
    ensures r != m
  {
    if m == Major then Minor else Major
  }

  /** The keys that have a place on the circle of fifths: the sharp keys
      A#, D# and G# exist only in minor, C-flat, D-flat and G-flat only in major. */
  predicate ValidKey(k: Key) {
    if k.mode == Major then k.signature !in {ASharp, DSharp, GSharp}
    else k.signature !in {CFlat, DFlat, GFlat}
  }

  /** `Key::from_fifths`: the key with `fifths` sharps (or flats, when
      negative) in `mode` (major when absent); any other value gives C. */
  function FromFifths(fifths: I8, mode: Option<KeyMode>): (k: Key)
    ensures k.mode == mode.UnwrapOr(Major)
    ensures ValidKey(k)
    ensures !(-7 <= fifths <= 7) ==> k.signature == C
  {
    var m := mode.UnwrapOr(Major);
    var s :=
      if m == Major then
        match fifths
        case 3 => A
        case -4 => AFlat
        case 5 => B
        case -2 => BFlat
        case 7 => CSharp
        case -7 => CFlat
        case 2 => D
        case -5 => DFlat
        case 4 => E
        case -3 => EFlat
        case -1 => F
        case 6 => FSharp
        case 1 => G
        case -6 => GFlat
        case _ => C
      else
        match fifths
        case 0 => A
        case 7 => ASharp
        case -7 => AFlat
        case 2 => B
        case -5 => BFlat
        case 4 => CSharp
        case -1 => D
        case 6 => DSharp
        case 1 => E
        case -6 => EFlat
        case -4 => F
        case 3 => FSharp
        case -2 => G
        case 5 => GSharp
        case _ => C;
    Key(m, s)
  }

  /** `Key::fifths`: the signed number of sharps of the key; keys with no
      place on the circle count as C major. */
  function Fifths(k: Key): (r: I8)
    ensures -7 <= r <= 7
    ensures !ValidKey(k) ==> r == 0
  {
    match (k.signature, k.mode)
    case (A, Major) => 3
    case (A, Minor) => 0
    case (ASharp, Minor) => 7
    case (AFlat, Major) => -4
    case (AFlat, Minor) => -7
    case (B, Major) => 5
    case (B, Minor) => 2
    case (BFlat, Major) => -2
    case (BFlat, Minor) => -5
    case (C, Minor) => -3
    case (CSharp, Major) => 7
    case (CSharp, Minor) => 4
    case (CFlat, Major) => -7
    case (D, Major) => 2
    case (D, Minor) => -1
    case (DSharp, Minor) => 6
    case (DFlat, Major) => -5
    case (E, Major) => 4
    case (E, Minor) => 1
    case (EFlat, Major) => -3
    case (EFlat, Minor) => -6
    case (F, Major) => -1
    case (F, Minor) => -4
    case (FSharp, Major) => 6
    case (FSharp, Minor) => 3
    case (G, Major) => 1
    case (G, Minor) => -2
    case (GSharp, Minor) => 5
    case (GFlat, Major) => -6
    case _ => 0
  }

  /** Reading a key's fifths back gives the key, for every key on the circle. */
  lemma {:induction false} FifthsRoundTrip(k: Key)
    requires ValidKey(k)
    ensures FromFifths(Fifths(k), Some(k.mode)) == k
  {
  }

  /** Off the circle a key counts as C major, so reading its fifths back gives
      the key with no sharps or flats in its mode: C major or A minor. */
  lemma {:induction false} InvalidKeyReadsAsNatural(k: Key)
    requires !ValidKey(k)
    ensures FromFifths(Fifths(k), Some(k.mode)) == (if k.mode == Major then Key(Major, C) else Key(Minor, A))
  {
  }

  /** Every fifths value from -7 to 7 names a key in each mode. */
  lemma {:induction false} FromFifthsRoundTrip(fifths: I8, mode: KeyMode)
    requires -7 <= fifths <= 7
    ensures Fifths(FromFifths(fifths, Some(mode))) == fifths
  {
  }

  /** In one mode, different keys on the circle have different fifths. */
  lemma {:induction false} FifthsInjective(k: Key, l: Key)
    requires ValidKey(k) && ValidKey(l) && k.mode == l.mode
    requires Fifths(k) == Fifths(l)
    ensures k == l
  {
    FifthsRoundTrip(k);
    FifthsRoundTrip(l);
  }

  /** `Key::to_parallel`: same signature, opposite mode. */
  function ToParallel(k: Key): (r: Key)
    ensures r.signature == k.signature && r.mode != k.mode
  {
    Key(Flip(k.mode), k.signature)
  }

  lemma {:induction false} ParallelInvolution(k: Key)
    ensures ToParallel(ToParallel(k)) == k
  {
  }

  /** `Key::to_relative`: same number of sharps or flats, opposite mode. */
  function ToRelative(k: Key): (r: Key)
    ensures r.mode != k.mode
    ensures ValidKey(r)
    ensures Fifths(r) == Fifths(k)
  {
    var r := FromFifths(Fifths(k), Some(Flip(k.mode)));
    FromFifthsRoundTrip(Fifths(k), Flip(k.mode));
    r
  }

  /** Taking the relative key twice gives back every key on the circle;
      a key off the circle comes back as C major or A minor. */
  lemma {:induction false} RelativeInvolution(k: Key)
    ensures ValidKey(k) ==> ToRelative(ToRelative(k)) == k
    ensures !ValidKey(k) ==> ToRelative(ToRelative(k)) == (if k.mode == Major then Key(Major, C) else Key(Minor, A))
  {
    var r := ToRelative(k);
    assert Flip(r.mode) == k.mode;
    if ValidKey(k) {
      FifthsRoundTrip(k);
    } else {
      InvalidKeyReadsAsNatural(k);
    }
  }

  lemma {:induction false} RelativeExamples()
    ensures ToRelative(Key(Major, C)) == Key(Minor, A)
    ensures ToRelative(Key(Minor, A)) == Key(Major, C)
    ensures ToRelative(Key(Major, EFlat)) == Key(Minor, C)
    ensures ToParallel(Key(Major, C)) == Key(Minor, C)
  {
  }

  /** The accidental a signature applies to one letter: flat at or below
      `flatAt` fifths, sharp at or above `sharpAt`, otherwise none. */
  function Slot(fifths: int, flatAt: int, sharpAt: int): Accidental {
    if fifths <= flatAt then Flat
    else if fifths >= sharpAt then Sharp
    else Accidental.None
  }

  /** `Key::accidentals`: the accidental of each pitch letter under the key,
      indexed like the pitch names (rest, A to G). */
  function KeyAccidentals(k: Key): (r: seq<Accidental>)
    ensures |r| == 8 && r[0] == Accidental.None
  {
    SignatureAccidentals(Fifths(k))
  }

  /** The accidentals of the signature with `f` sharps (or flats, when negative). */
  function SignatureAccidentals(f: int): (r: seq<Accidental>)
    ensures |r| == 8 && r[0] == Accidental.None
  {
    [Accidental.None] + [Slot(f, -3, 5)] + [Slot(f, -1, 7)] + [Slot(f, -6, 2)] + [Slot(f, -4, 4)]
      + [Slot(f, -2, 6)] + [Slot(f, -7, 1)] + [Slot(f, -5, 3)]
  }

  /** How many entries of `s` are `a`. */
  function Occurrences(s: seq<Accidental>, a: Accidental): (n: nat)
    ensures n <= |s|
  {
    if s == [] then 0 else Occurrences(s[..|s| - 1], a) + (if s[|s| - 1] == a then 1 else 0)
  }

  lemma {:induction false} OccurrencesPush(s: seq<Accidental>, x: Accidental, a: Accidental)
    ensures Occurrences(s + [x], a) == Occurrences(s, a) + (if x == a then 1 else 0)
  {
    assert (s + [x])[..|s|] == s;
  }

  function Indicator(x: Accidental, a: Accidental): nat {
    if x == a then 1 else 0
  }

  /** Occurrences in an eight-entry sequence, entry by entry. */
  lemma {:induction false} OccurrencesOfEight(x0: Accidental, x1: Accidental, x2: Accidental, x3: Accidental,
                                              x4: Accidental, x5: Accidental, x6: Accidental, x7: Accidental, a: Accidental)
    ensures Occurrences([x0] + [x1] + [x2] + [x3] + [x4] + [x5] + [x6] + [x7], a) ==
      Indicator(x0, a) + Indicator(x1, a) + Indicator(x2, a) + Indicator(x3, a)
      + Indicator(x4, a) + Indicator(x5, a) + Indicator(x6, a) + Indicator(x7, a)
  {
    var s1 := [x0] + [x1];
    var s2 := s1 + [x2];
    var s3 := s2 + [x3];
    var s4 := s3 + [x4];
    var s5 := s4 + [x5];
    var s6 := s5 + [x6];
    OccurrencesPush([], x0, a);
    assert [] + [x0] == [x0];
    OccurrencesPush([x0], x1, a);
    OccurrencesPush(s1, x2, a);
    OccurrencesPush(s2, x3, a);
    OccurrencesPush(s3, x4, a);
    OccurrencesPush(s4, x5, a);
    OccurrencesPush(s5, x6, a);
    OccurrencesPush(s6, x7, a);
  }

  /** A key with n sharps marks exactly n letters sharp and none flat, one
      with n flats exactly n letters flat and none sharp. */
  lemma {:induction false} AccidentalCounts(k: Key)
    ensures Fifths(k) >= 0 ==> Occurrences(KeyAccidentals(k), Sharp) == Fifths(k)
    ensures Fifths(k) >= 0 ==> Occurrences(KeyAccidentals(k), Flat) == 0
    ensures Fifths(k) <= 0 ==> Occurrences(KeyAccidentals(k), Flat) == -Fifths(k)
    ensures Fifths(k) <= 0 ==> Occurrences(KeyAccidentals(k), Sharp) == 0
  {
    var f := Fifths(k);
    OccurrencesOfEight(Accidental.None, Slot(f, -3, 5), Slot(f, -1, 7), Slot(f, -6, 2), Slot(f, -4, 4),
      Slot(f, -2, 6), Slot(f, -7, 1), Slot(f, -5, 3), Sharp);
    OccurrencesOfEight(Accidental.None, Slot(f, -3, 5), Slot(f, -1, 7), Slot(f, -6, 2), Slot(f, -4, 4),
      Slot(f, -2, 6), Slot(f, -7, 1), Slot(f, -5, 3), Flat);
  }

  /** Sharps accumulate in the order F C G D A E B, flats in the reverse order. */
  lemma {:induction false} SharpOrder(k: Key)
    ensures Fifths(k) >= 1 <==> KeyAccidentals(k)[6] == Sharp
    ensures Fifths(k) >= 7 <==> KeyAccidentals(k)[2] == Sharp
    ensures Fifths(k) <= -1 <==> KeyAccidentals(k)[2] == Flat
    ensures Fifths(k) <= -7 <==> KeyAccidentals(k)[6] == Flat
  {
  }

  /** A key whose mode and signature change in place (`&mut Key`). */
  class KeyPlace {
    var key: Key

    constructor (k: Key)
      ensures key == k
    {
      key := k;
    }

    /** `Key::make_parallel`. */
    method MakeParallel()
      modifies this
      ensures key == ToParallel(old(key))
    {
      key := Key(if key.mode == Major then Minor else Major, key.signature);
    }

    /** `Key::make_relative`. */
    method MakeRelative()
      modifies this
      ensures key == ToRelative(old(key))
    {
      var newMode := if key.mode == Major then Minor else Major;
      key := FromFifths(Fifths(key), Some(newMode));
    }
  }
}

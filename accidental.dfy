/** Accidentals: pitch alterations and their size in semitones. */
module Accidentals {
  import opened Ints

  datatype Accidental = None | Natural | Sharp | Flat | DoubleSharp | DoubleFlat

  /** The default accidental is `None`: no explicit alteration. */
  const DefaultAccidental: Accidental := Accidental.None

  /** `Accidental::value`: semitones raised (positive) or lowered (negative). */
  function AccidentalValue(a: Accidental): (r: I8)
    ensures -2 <= r <= 2
    ensures r == 0 <==> a == Accidental.None || a == Natural
    ensures r > 0 <==> a == Sharp || a == DoubleSharp
    ensures (r == 2 || r == -2) <==> a == DoubleSharp || a == DoubleFlat
  {
    match a
    case Sharp => 1
    case Flat => -1
    case DoubleSharp => 2
    case DoubleFlat => -2
    case None => 0
    case Natural => 0
  }

  lemma {:induction false} AccidentalValues()
    ensures AccidentalValue(Sharp) == 1 && AccidentalValue(Flat) == -1
    ensures AccidentalValue(DoubleSharp) == 2 && AccidentalValue(DoubleFlat) == -2
    ensures AccidentalValue(Accidental.None) == 0 && AccidentalValue(Natural) == 0
  {
  }
}

/** Time signatures: an implicit symbol (common or cut time), an explicit
    fraction, or none at all. */
module TimeSignatures {
  import opened Ints

  datatype TimeSignatureType = CommonTime | CutTime | Explicit | None

  datatype TimeSignature = TimeSignature(signature: TimeSignatureType, numerator: U8, denominator: U8)

  /** The derived default: common time, with both fields at their zero default. */
  const DefaultTimeSignature := TimeSignature(CommonTime, 0, 0)

  /** `TimeSignature::new`: the fraction an implicit symbol stands for. */
  function NewTimeSignature(signature: TimeSignatureType): (r: TimeSignature)
    ensures r.signature == signature
    ensures r.numerator == r.denominator
    ensures signature == CommonTime || signature == Explicit ==> r.numerator == 4
    ensures signature == CutTime ==> r.numerator == 2
    ensures signature == TimeSignatureType.None ==> r.numerator == 0
  {
    var n: U8 := match signature
      case CommonTime => 4
      case Explicit => 4
      case CutTime => 2
      case None => 0;
    TimeSignature(signature, n, n)
  }

  /** `TimeSignature::new_explicit`. */
  function NewExplicit(numerator: U8, denominator: U8): (r: TimeSignature)
    ensures r.signature == Explicit
    ensures r.numerator == numerator && r.denominator == denominator
  {
    TimeSignature(Explicit, numerator, denominator)
  }

  /** Common time is 4/4 and cut time 2/2, as the explicit signatures they
      abbreviate, while the derived default has a 0/0 fraction. */
  lemma {:induction false} ImplicitFractions()
    ensures NewTimeSignature(CommonTime) == NewExplicit(4, 4).(signature := CommonTime)
    ensures NewTimeSignature(CutTime) == NewExplicit(2, 2).(signature := CutTime)
    ensures NewTimeSignature(Explicit) == NewExplicit(4, 4)
    ensures DefaultTimeSignature.signature == CommonTime
    ensures DefaultTimeSignature != NewTimeSignature(CommonTime)
  {
  }
}

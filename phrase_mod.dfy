/** Modifications spanning a phrase: hairpins, slurs, pedalling, tuplets. */
module PhraseModifications {
  import opened Ints
  import opened Wrappers
  import opened Orderings
  import Dynamics

  datatype PedalType = Sustain | Sostenuto | Soft

  const DefaultPedalType := Sustain

  datatype PhraseModificationType =
    Crescendo(finalDynamic: Option<Dynamics.Dynamic>)
    | Decrescendo(finalDynamic: Option<Dynamics.Dynamic>)
    | Glissando
    | Hairpin(maximumDynamic: Option<Dynamics.Dynamic>)
    | Legato
    | OctaveShift(numOctaves: I8)
    | Pedal(pedalType: PedalType)
    | Portamento
    | Tremolo(relativeSpeed: U8)
    | Tuplet(numBeats: U8, intoBeats: U8)

  const DefaultPhraseModificationType: PhraseModificationType := Legato

  /** The position of a type's variant in the declaration, which the
      `ModOrder` derive uses as its unique value. */
  function Rank(t: PhraseModificationType): (r: nat)
    ensures r < 10
  {
    match t
    case Crescendo(_) => 0
    case Decrescendo(_) => 1
    case Glissando => 2
    case Hairpin(_) => 3
    case Legato => 4
    case OctaveShift(_) => 5
    case Pedal(_) => 6
    case Portamento => 7
    case Tremolo(_) => 8
    case Tuplet(_, _) => 9
  }

  /** Whether two types are the same variant, whatever their parameters. */
  predicate SameVariant(a: PhraseModificationType, b: PhraseModificationType) {
    match (a, b)
    case (Crescendo(_), Crescendo(_)) => true
    case (Decrescendo(_), Decrescendo(_)) => true
    case (Glissando, Glissando) => true
    case (Hairpin(_), Hairpin(_)) => true
    case (Legato, Legato) => true
    case (OctaveShift(_), OctaveShift(_)) => true
    case (Pedal(_), Pedal(_)) => true
    case (Portamento, Portamento) => true
    case (Tremolo(_), Tremolo(_)) => true
    case (Tuplet(_, _), Tuplet(_, _)) => true
    case _ => false
  }

  /** The unique values are unique: two types share one iff they are the
      same variant. */
  lemma {:induction false} RankIdentifiesVariant(a: PhraseModificationType, b: PhraseModificationType)
    ensures Rank(a) == Rank(b) <==> SameVariant(a, b)
  {
  }

  /** A phraseModification modification: a type and an identifier drawn when it was created. */
  datatype PhraseModification = PhraseModification(id: nat, kind: PhraseModificationType)

  /** `PhraseModification::new`, with the fresh identifier as a parameter. */
  function NewPhraseModification(kind: PhraseModificationType, freshId: nat): (m: PhraseModification)
    ensures m.kind == kind && m.id == freshId
  {
    PhraseModification(freshId, kind)
  }

  /** `PartialEq`: two phraseModifications are equal when their types are, parameters
      included; the identifier is not compared. */
  predicate SameModification(a: PhraseModification, b: PhraseModification) {
    a.kind == b.kind
  }

  /** `Clone`: the same type under a freshly drawn identifier. */
  function CloneModification(m: PhraseModification, freshId: nat): (c: PhraseModification)
    ensures SameModification(c, m) && c.id == freshId
    ensures freshId != m.id ==> c != m
  {
    PhraseModification(freshId, m.kind)
  }

  /** The rank an ordered set of these compares by. */
  function ModRank(m: PhraseModification): nat {
    Rank(m.kind)
  }

  /** `Ord`: compares the variants of the types only. */
  function Compare(a: PhraseModification, b: PhraseModification): (r: Ordering)
    ensures r == Equal <==> SameVariant(a.kind, b.kind)
    ensures r == Less <==> Rank(a.kind) < Rank(b.kind)
  {
    RankIdentifiesVariant(a.kind, b.kind);
    CompareInt(Rank(a.kind), Rank(b.kind))
  }

  /** Ordering and equality disagree: two different tuplets are unequal, yet
      compare Equal, so an ordered set keeps only one of them. */
  lemma {:induction false} TupletsCompareEqual(a: PhraseModification, b: PhraseModification)
    requires a.kind == Tuplet(3, 2) && b.kind == Tuplet(5, 4)
    ensures Compare(a, b) == Equal && !SameModification(a, b)
  {
  }
}

/** Modifications of a whole section: tempo changes and repeats. */
module SectionModifications {
  import opened Ints
  import opened Orderings
  import Tempos
  import TempoSuggestions

  datatype SectionModificationType =
    Accelerando
    | OnlyPlay(iterations: seq<U8>)
    | Rallentando
    | Repeat(numTimes: U8)
    | Ritardando
    | Ritenuto
    | Stringendo
    | TempoExplicit(tempo: Tempos.Tempo)
    | TempoImplicit(suggestion: TempoSuggestions.TempoSuggestion)

  const DefaultSectionModificationType: SectionModificationType := Accelerando

  /** The position of a type's variant in the declaration, which the
      `ModOrder` derive uses as its unique value. */
  function Rank(t: SectionModificationType): (r: nat)
    ensures r < 9
  {
    match t
    case Accelerando => 0
    case OnlyPlay(_) => 1
    case Rallentando => 2
    case Repeat(_) => 3
    case Ritardando => 4
    case Ritenuto => 5
    case Stringendo => 6
    case TempoExplicit(_) => 7
    case TempoImplicit(_) => 8
  }

  /** Whether two types are the same variant, whatever their parameters. */
  predicate SameVariant(a: SectionModificationType, b: SectionModificationType) {
    match (a, b)
    case (Accelerando, Accelerando) => true
    case (OnlyPlay(_), OnlyPlay(_)) => true
    case (Rallentando, Rallentando) => true
    case (Repeat(_), Repeat(_)) => true
    case (Ritardando, Ritardando) => true
    case (Ritenuto, Ritenuto) => true
    case (Stringendo, Stringendo) => true
    case (TempoExplicit(_), TempoExplicit(_)) => true
    case (TempoImplicit(_), TempoImplicit(_)) => true
    case _ => false
  }

  /** The unique values are unique: two types share one iff they are the
      same variant. */
  lemma {:induction false} RankIdentifiesVariant(a: SectionModificationType, b: SectionModificationType)
    ensures Rank(a) == Rank(b) <==> SameVariant(a, b)
  {
  }

  /** A sectionModification modification: a type and an identifier drawn when it was created. */
  datatype SectionModification = SectionModification(id: nat, kind: SectionModificationType)

  /** `SectionModification::new`, with the fresh identifier as a parameter. */
  function NewSectionModification(kind: SectionModificationType, freshId: nat): (m: SectionModification)
    ensures m.kind == kind && m.id == freshId
  {
    SectionModification(freshId, kind)
  }

  /** `PartialEq`: two sectionModifications are equal when their types are, parameters
      included; the identifier is not compared. */
  predicate SameModification(a: SectionModification, b: SectionModification) {
    a.kind == b.kind
  }

  /** `Clone`: the same type under a freshly drawn identifier. */
  function CloneModification(m: SectionModification, freshId: nat): (c: SectionModification)
    ensures SameModification(c, m) && c.id == freshId
    ensures freshId != m.id ==> c != m
  {
    SectionModification(freshId, m.kind)
  }

  /** The rank an ordered set of these compares by. */
  function ModRank(m: SectionModification): nat {
    Rank(m.kind)
  }

  /** `Ord`: compares the variants of the types only. */
  function Compare(a: SectionModification, b: SectionModification): (r: Ordering)
    ensures r == Equal <==> SameVariant(a.kind, b.kind)
    ensures r == Less <==> Rank(a.kind) < Rank(b.kind)
  {
    RankIdentifiesVariant(a.kind, b.kind);
    CompareInt(Rank(a.kind), Rank(b.kind))
  }

  /** Whether a section modification changes the tempo rather than the
      playing order (everything but `OnlyPlay` and `Repeat`). */
  predicate IsTempoDetail(t: SectionModificationType) {
    !t.OnlyPlay? && !t.Repeat?
  }

  /** Two different `OnlyPlay` lists compare Equal though they are unequal. */
  lemma {:induction false} OnlyPlayCompareEqual(a: SectionModification, b: SectionModification)
    requires a.kind == OnlyPlay([1]) && b.kind == OnlyPlay([2])
    ensures Compare(a, b) == Equal && !SameModification(a, b)
  {
  }
}

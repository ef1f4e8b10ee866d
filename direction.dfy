/** Directions: instructions placed between notes, such as a breath mark or
    a change of clef, key or time signature. */
module Directions {
  import opened Ints
  import opened Orderings
  import Clefs
  import Dynamics
  import Keys
  import TimeSignatures

  datatype DirectionType =
    AccordionRegistration(high: bool, middle: U8, low: bool)
    | BreathMark
    | Caesura
    | ClefChange(clef: Clefs.Clef)
    | Dynamic(dynamic: Dynamics.Dynamic)
    | KeyChange(key: Keys.Key)
    | StringMute(on: bool)
    | TimeSignatureChange(timeSignature: TimeSignatures.TimeSignature)

  const DefaultDirectionType: DirectionType := BreathMark

  /** The position of a type's variant in the declaration, which the
      `ModOrder` derive uses as its unique value. */
  function Rank(t: DirectionType): (r: nat)
    ensures r < 8
  {
    match t
    case AccordionRegistration(_, _, _) => 0
    case BreathMark => 1
    case Caesura => 2
    case ClefChange(_) => 3
    case Dynamic(_) => 4
    case KeyChange(_) => 5
    case StringMute(_) => 6
    case TimeSignatureChange(_) => 7
  }

  /** Whether two types are the same variant, whatever their parameters. */
  predicate SameVariant(a: DirectionType, b: DirectionType) {
    match (a, b)
    case (AccordionRegistration(_, _, _), AccordionRegistration(_, _, _)) => true
    case (BreathMark, BreathMark) => true
    case (Caesura, Caesura) => true
    case (ClefChange(_), ClefChange(_)) => true
    case (Dynamic(_), Dynamic(_)) => true
    case (KeyChange(_), KeyChange(_)) => true
    case (StringMute(_), StringMute(_)) => true
    case (TimeSignatureChange(_), TimeSignatureChange(_)) => true
    case _ => false
  }

  /** The unique values are unique: two types share one iff they are the
      same variant. */
  lemma {:induction false} RankIdentifiesVariant(a: DirectionType, b: DirectionType)
    ensures Rank(a) == Rank(b) <==> SameVariant(a, b)
  {
  }

  /** A direction modification: a type and an identifier drawn when it was created. */
  datatype Direction = Direction(id: nat, kind: DirectionType)

  /** `Direction::new`, with the fresh identifier as a parameter. */
  function NewDirection(kind: DirectionType, freshId: nat): (m: Direction)
    ensures m.kind == kind && m.id == freshId
  {
    Direction(freshId, kind)
  }

  /** `PartialEq`: two directions are equal when their types are, parameters
      included; the identifier is not compared. */
  predicate SameModification(a: Direction, b: Direction) {
    a.kind == b.kind
  }

  /** `Clone`: the same type under a freshly drawn identifier. */
  function CloneModification(m: Direction, freshId: nat): (c: Direction)
    ensures SameModification(c, m) && c.id == freshId
    ensures freshId != m.id ==> c != m
  {
    Direction(freshId, m.kind)
  }

  /** The rank an ordered set of these compares by. */
  function ModRank(m: Direction): nat {
    Rank(m.kind)
  }

  /** `Ord`: compares the variants of the types only. */
  function Compare(a: Direction, b: Direction): (r: Ordering)
    ensures r == Equal <==> SameVariant(a.kind, b.kind)
    ensures r == Less <==> Rank(a.kind) < Rank(b.kind)
  {
    RankIdentifiesVariant(a.kind, b.kind);
    CompareInt(Rank(a.kind), Rank(b.kind))
  }

  /** Two different key changes compare Equal though they are unequal. */
  lemma {:induction false} KeyChangesCompareEqual(a: Direction, b: Direction)
    requires a.kind == KeyChange(Keys.Key(Keys.Major, Keys.C)) && b.kind == KeyChange(Keys.Key(Keys.Major, Keys.G))
    ensures Compare(a, b) == Equal && !SameModification(a, b)
  {
  }
}

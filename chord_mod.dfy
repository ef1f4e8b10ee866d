/** Modifications of a chord, and their identity, equality and ordering. */
module ChordModifications {
  import opened Ints
  import opened Orderings
  import Dynamics

  datatype ChordModificationType =
    | Accent | Arpeggiate | DetachedLegato | DownBow | Dynamic(dynamic: Dynamics.Dynamic)
    | Fermata | Fingernails | HalfMuted | HarmonMute(open: bool, half: bool) | Heel | Marcato
    | NonArpeggiate | Open | Pizzicato | Sforzando | Smear | SoftAccent | Spiccato | Staccato
    | Staccatissimo | Stress | Tenuto | Tie | Toe | Tremolo(relativeSpeed: U8) | Unstress | UpBow

  /** The position of a type's variant in the declaration, which the
      `ModOrder` derive uses as its unique value. */
  function Rank(t: ChordModificationType): (r: nat)
    ensures r < 27
  {
    match t
    case Accent => 0
    case Arpeggiate => 1
    case DetachedLegato => 2
    case DownBow => 3
    case Dynamic(_) => 4
    case Fermata => 5
    case Fingernails => 6
    case HalfMuted => 7
    case HarmonMute(_, _) => 8
    case Heel => 9
    case Marcato => 10
    case NonArpeggiate => 11
    case Open => 12
    case Pizzicato => 13
    case Sforzando => 14
    case Smear => 15
    case SoftAccent => 16
    case Spiccato => 17
    case Staccato => 18
    case Staccatissimo => 19
    case Stress => 20
    case Tenuto => 21
    case Tie => 22
    case Toe => 23
    case Tremolo(_) => 24
    case Unstress => 25
    case UpBow => 26
  }


  const DefaultChordModificationType := Accent

  /** A chord modification: a type and an identifier drawn when it was created. */
  datatype ChordModification = ChordModification(id: nat, kind: ChordModificationType)

  /** `ChordModification::new`, with the fresh identifier as a parameter. */
  function NewChordModification(kind: ChordModificationType, freshId: nat): (m: ChordModification)
    ensures m.kind == kind && m.id == freshId
  {
    ChordModification(freshId, kind)
  }

  /** `PartialEq`: two modifications are equal when their types are; the
      identifier is not compared. */
  predicate SameModification(a: ChordModification, b: ChordModification) {
    a.kind == b.kind
  }

  /** `Clone`: the same type under a freshly drawn identifier. */
  function CloneModification(m: ChordModification, freshId: nat): (c: ChordModification)
    ensures SameModification(c, m) && c.id == freshId
    ensures freshId != m.id ==> c != m
  {
    ChordModification(freshId, m.kind)
  }

  /** The rank the `ModOrder` derive gives a modification: its type's variant. */
  function ModRank(m: ChordModification): nat {
    Rank(m.kind)
  }

  /** `Ord`: compares the variants of the types only. */
  function Compare(a: ChordModification, b: ChordModification): (r: Ordering)
    ensures r == Equal <==> Rank(a.kind) == Rank(b.kind)
    ensures r == Less <==> Rank(a.kind) < Rank(b.kind)
  {
    CompareInt(Rank(a.kind), Rank(b.kind))
  }

  /** Two dynamics of different strength compare Equal. */
  lemma {:induction false} DynamicsCompareEqual(a: ChordModification, b: ChordModification)
    requires a.kind == Dynamic(Dynamics.Piano(2)) && b.kind == Dynamic(Dynamics.MezzoPiano)
    ensures Compare(a, b) == Equal
    ensures !SameModification(a, b)
  {
  }
}

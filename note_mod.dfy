/** Modifications of a single note: articulations, ornaments, techniques,
    and their identity, equality and ordering. */
module NoteModifications {
  import opened Ints
  import opened Orderings
  import Dynamics

  datatype HandbellTechnique =
    | Belltree | Damp | Echo | Gyro | HandMartellato | MalletLift | MalletTable | Martellato
    | MartellatoLift | MutedMartellato | PluckLift | Swing

  datatype NoteModificationType =
    | Accent | BrassBend | DetachedLegato | Doit | DoubleTongue | DownBow
    | Dynamic(dynamic: Dynamics.Dynamic) | Falloff | Fermata | Fingernails | Flip
    | Glissando(fromCurrent: bool, goingUp: bool) | Golpe | Grace(acciaccatura: bool) | HalfMuted
    | Handbell(technique: HandbellTechnique) | HarmonMute(open: bool, half: bool) | Haydn | Heel
    | Hole(open: bool, half: bool) | Marcato | Mordent(upper: bool) | Open | Pizzicato | Plop
    | Portamento(fromCurrent: bool, goingUp: bool) | Schleifer | Scoop | Sforzando | Shake | Smear
    | SoftAccent | Spiccato | Staccato | Staccatissimo | Stopped | Stress | Tap | Tenuto
    | ThumbPosition | Tie | Toe | Tremolo(relativeSpeed: U8) | Trill(upper: bool) | TripleTongue
    | Turn(upper: bool, delayed: bool, vertical: bool) | Unstress | UpBow

  /** The position of a type's variant in the declaration, which the
      `ModOrder` derive uses as its unique value. */
  function Rank(t: NoteModificationType): (r: nat)
    ensures r < 48
  {
    match t
    case Accent => 0
    case BrassBend => 1
    case DetachedLegato => 2
    case Doit => 3
    case DoubleTongue => 4
    case DownBow => 5
    case Dynamic(_) => 6
    case Falloff => 7
    case Fermata => 8
    case Fingernails => 9
    case Flip => 10
    case Glissando(_, _) => 11
    case Golpe => 12
    case Grace(_) => 13
    case HalfMuted => 14
    case Handbell(_) => 15
    case HarmonMute(_, _) => 16
    case Haydn => 17
    case Heel => 18
    case Hole(_, _) => 19
    case Marcato => 20
    case Mordent(_) => 21
    case Open => 22
    case Pizzicato => 23
    case Plop => 24
    case Portamento(_, _) => 25
    case Schleifer => 26
    case Scoop => 27
    case Sforzando => 28
    case Shake => 29
    case Smear => 30
    case SoftAccent => 31
    case Spiccato => 32
    case Staccato => 33
    case Staccatissimo => 34
    case Stopped => 35
    case Stress => 36
    case Tap => 37
    case Tenuto => 38
    case ThumbPosition => 39
    case Tie => 40
    case Toe => 41
    case Tremolo(_) => 42
    case Trill(_) => 43
    case TripleTongue => 44
    case Turn(_, _, _) => 45
    case Unstress => 46
    case UpBow => 47
  }


  const DefaultNoteModificationType := Accent

  /** A note modification: a type and an identifier drawn when it was created. */
  datatype NoteModification = NoteModification(id: nat, kind: NoteModificationType)

  /** `NoteModification::new`, with the fresh identifier as a parameter. */
  function NewNoteModification(kind: NoteModificationType, freshId: nat): (m: NoteModification)
    ensures m.kind == kind && m.id == freshId
  {
    NoteModification(freshId, kind)
  }

  /** `PartialEq`: two modifications are equal when their types are; the
      identifier is not compared. */
  predicate SameModification(a: NoteModification, b: NoteModification) {
    a.kind == b.kind
  }

  /** `Clone`: the same type under a freshly drawn identifier. */
  function CloneModification(m: NoteModification, freshId: nat): (c: NoteModification)
    ensures SameModification(c, m) && c.id == freshId
    ensures freshId != m.id ==> c != m
  {
    NoteModification(freshId, m.kind)
  }

  /** The rank the `ModOrder` derive gives a modification: its type's variant. */
  function ModRank(m: NoteModification): nat {
    Rank(m.kind)
  }

  /** `Ord`: compares the variants of the types only. */
  function Compare(a: NoteModification, b: NoteModification): (r: Ordering)
    ensures r == Equal <==> Rank(a.kind) == Rank(b.kind)
    ensures r == Less <==> Rank(a.kind) < Rank(b.kind)
  {
    CompareInt(Rank(a.kind), Rank(b.kind))
  }

  /** Two dynamics of different strength compare Equal, so a set of note
      modifications holds at most one of them, though they are not equal. */
  lemma {:induction false} DynamicsCompareEqual(a: NoteModification, b: NoteModification)
    requires a.kind == Dynamic(Dynamics.Piano(1)) && b.kind == Dynamic(Dynamics.Forte(1))
    ensures Compare(a, b) == Equal
    ensures !SameModification(a, b)
  {
  }
}

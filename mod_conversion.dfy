/** Conversions between note and chord modifications: a chord
    modification applies to each of its notes, and a note modification can
    be lifted to the chord holding the note, where both kinds exist. */
module ModConversion {
  import opened Wrappers
  import N = NoteModifications
  import C = ChordModifications

  /** `NoteModificationType` counterpart of a chord modification type, with
      its parameters; `None` for arpeggiation, which only chords have. */
  function NoteTypeOf(c: C.ChordModificationType): (r: Option<N.NoteModificationType>)
    ensures r.None? <==> c.Arpeggiate? || c.NonArpeggiate?
    ensures c.Dynamic? ==> r == Some(N.Dynamic(c.dynamic))
    ensures c.Tremolo? ==> r == Some(N.Tremolo(c.relativeSpeed))
  {
    match c
      case Accent => Some(N.Accent)
      case DetachedLegato => Some(N.DetachedLegato)
      case DownBow => Some(N.DownBow)
      case Dynamic(d) => Some(N.Dynamic(d))
      case Fermata => Some(N.Fermata)
      case Fingernails => Some(N.Fingernails)
      case HalfMuted => Some(N.HalfMuted)
      case HarmonMute(o, h) => Some(N.HarmonMute(o, h))
      case Heel => Some(N.Heel)
      case Marcato => Some(N.Marcato)
      case Open => Some(N.Open)
      case Pizzicato => Some(N.Pizzicato)
      case Sforzando => Some(N.Sforzando)
      case Smear => Some(N.Smear)
      case SoftAccent => Some(N.SoftAccent)
      case Spiccato => Some(N.Spiccato)
      case Staccato => Some(N.Staccato)
      case Staccatissimo => Some(N.Staccatissimo)
      case Stress => Some(N.Stress)
      case Tenuto => Some(N.Tenuto)
      case Toe => Some(N.Toe)
      case Unstress => Some(N.Unstress)
      case UpBow => Some(N.UpBow)
      case Tremolo(s) => Some(N.Tremolo(s))
      case Tie => Some(N.Tie)
      case _ => None
  }

  /** `ChordModificationType` counterpart of a note modification type; `None`
      for every type only notes have, and for `Tie`. */
  function ChordTypeOf(n: N.NoteModificationType): (r: Option<C.ChordModificationType>)
    ensures n.Tie? ==> r.None?
    ensures n.Dynamic? ==> r == Some(C.Dynamic(n.dynamic))
    ensures n.Tremolo? ==> r == Some(C.Tremolo(n.relativeSpeed))
  {
    match n
      case Accent => Some(C.Accent)
      case DetachedLegato => Some(C.DetachedLegato)
      case DownBow => Some(C.DownBow)
      case Dynamic(d) => Some(C.Dynamic(d))
      case Fermata => Some(C.Fermata)
      case Fingernails => Some(C.Fingernails)
      case HalfMuted => Some(C.HalfMuted)
      case HarmonMute(o, h) => Some(C.HarmonMute(o, h))
      case Heel => Some(C.Heel)
      case Marcato => Some(C.Marcato)
      case Open => Some(C.Open)
      case Pizzicato => Some(C.Pizzicato)
      case Sforzando => Some(C.Sforzando)
      case Smear => Some(C.Smear)
      case SoftAccent => Some(C.SoftAccent)
      case Spiccato => Some(C.Spiccato)
      case Staccato => Some(C.Staccato)
      case Staccatissimo => Some(C.Staccatissimo)
      case Stress => Some(C.Stress)
      case Tenuto => Some(C.Tenuto)
      case Toe => Some(C.Toe)
      case Unstress => Some(C.Unstress)
      case UpBow => Some(C.UpBow)
      case Tremolo(s) => Some(C.Tremolo(s))
      case _ => None
  }

  /** `NoteModification::from_chord_modification`, with the fresh identifier
      as a parameter. */
  function FromChordModification(c: C.ChordModificationType, freshId: nat): (r: Option<N.NoteModification>)
    ensures r.None? <==> c.Arpeggiate? || c.NonArpeggiate?
    ensures r.Some? ==> r.value.id == freshId && Some(r.value.kind) == NoteTypeOf(c)
  {
    match NoteTypeOf(c)
    case None => None
    case Some(kind) => Some(N.NoteModification(freshId, kind))
  }

  /** `ChordModification::from_note_modification`, with the fresh identifier
      as a parameter. */
  function FromNoteModification(n: N.NoteModificationType, freshId: nat): (r: Option<C.ChordModification>)
    ensures r.Some? ==> r.value.id == freshId && Some(r.value.kind) == ChordTypeOf(n)
    ensures r.None? <==> ChordTypeOf(n).None?
  {
    match ChordTypeOf(n)
    case None => None
    case Some(kind) => Some(C.ChordModification(freshId, kind))
  }

  /** A note modification lifted to its chord comes back unchanged when the
      chord modification is applied to the note again. */
  lemma {:induction false} NoteChordNoteRoundTrip(n: N.NoteModificationType)
    requires ChordTypeOf(n).Some?
    ensures NoteTypeOf(ChordTypeOf(n).value) == Some(n)
  {
    if n.Accent? || n.DetachedLegato? || n.DownBow? {
      NoteChordNoteRoundTripPart1(n);
    } else if n.Dynamic? || n.Fermata? || n.Fingernails? {
      NoteChordNoteRoundTripPart2(n);
    } else if n.HalfMuted? || n.HarmonMute? || n.Heel? {
      NoteChordNoteRoundTripPart3(n);
    } else if n.Marcato? || n.Open? || n.Pizzicato? {
      NoteChordNoteRoundTripPart4(n);
    } else if n.Sforzando? || n.Smear? || n.SoftAccent? {
      NoteChordNoteRoundTripPart5(n);
    } else if n.Spiccato? || n.Staccato? || n.Staccatissimo? {
      NoteChordNoteRoundTripPart6(n);
    } else if n.Stress? || n.Tenuto? || n.Toe? {
      NoteChordNoteRoundTripPart7(n);
    } else {
      NoteChordNoteRoundTripPart8(n);
    }
  }

  lemma {:induction false} NoteChordNoteRoundTripPart1(n: N.NoteModificationType)
    requires n.Accent? || n.DetachedLegato? || n.DownBow?
    ensures NoteTypeOf(ChordTypeOf(n).value) == Some(n)
  {
  }

  lemma {:induction false} NoteChordNoteRoundTripPart2(n: N.NoteModificationType)
    requires n.Dynamic? || n.Fermata? || n.Fingernails?
    ensures NoteTypeOf(ChordTypeOf(n).value) == Some(n)
  {
  }

  lemma {:induction false} NoteChordNoteRoundTripPart3(n: N.NoteModificationType)
    requires n.HalfMuted? || n.HarmonMute? || n.Heel?
    ensures NoteTypeOf(ChordTypeOf(n).value) == Some(n)
  {
  }

  lemma {:induction false} NoteChordNoteRoundTripPart4(n: N.NoteModificationType)
    requires n.Marcato? || n.Open? || n.Pizzicato?
    ensures NoteTypeOf(ChordTypeOf(n).value) == Some(n)
  {
  }

  lemma {:induction false} NoteChordNoteRoundTripPart5(n: N.NoteModificationType)
    requires n.Sforzando? || n.Smear? || n.SoftAccent?
    ensures NoteTypeOf(ChordTypeOf(n).value) == Some(n)
  {
  }

  lemma {:induction false} NoteChordNoteRoundTripPart6(n: N.NoteModificationType)
    requires n.Spiccato? || n.Staccato? || n.Staccatissimo?
    ensures NoteTypeOf(ChordTypeOf(n).value) == Some(n)
  {
  }

  lemma {:induction false} NoteChordNoteRoundTripPart7(n: N.NoteModificationType)
    requires n.Stress? || n.Tenuto? || n.Toe?
    ensures NoteTypeOf(ChordTypeOf(n).value) == Some(n)
  {
  }

  lemma {:induction false} NoteChordNoteRoundTripPart8(n: N.NoteModificationType)
    requires n.Tremolo? || n.Unstress? || n.UpBow?
    ensures NoteTypeOf(ChordTypeOf(n).value) == Some(n)
  {
  }

  /** A chord modification applied to a note lifts back to itself, except
      for `Tie`, which `ChordTypeOf` does not lift. */
  lemma {:induction false} ChordNoteChordRoundTrip(c: C.ChordModificationType)
    requires NoteTypeOf(c).Some? && !c.Tie?
    ensures ChordTypeOf(NoteTypeOf(c).value) == Some(c)
  {
    if c.Accent? || c.DetachedLegato? || c.DownBow? {
      ChordNoteChordRoundTripPart1(c);
    } else if c.Dynamic? || c.Fermata? || c.Fingernails? {
      ChordNoteChordRoundTripPart2(c);
    } else if c.HalfMuted? || c.HarmonMute? || c.Heel? {
      ChordNoteChordRoundTripPart3(c);
    } else if c.Marcato? || c.Open? || c.Pizzicato? {
      ChordNoteChordRoundTripPart4(c);
    } else if c.Sforzando? || c.Smear? || c.SoftAccent? {
      ChordNoteChordRoundTripPart5(c);
    } else if c.Spiccato? || c.Staccato? || c.Staccatissimo? {
      ChordNoteChordRoundTripPart6(c);
    } else if c.Stress? || c.Tenuto? || c.Toe? {
      ChordNoteChordRoundTripPart7(c);
    } else {
      ChordNoteChordRoundTripPart8(c);
    }
  }

  lemma {:induction false} ChordNoteChordRoundTripPart1(c: C.ChordModificationType)
    requires c.Accent? || c.DetachedLegato? || c.DownBow?
    ensures ChordTypeOf(NoteTypeOf(c).value) == Some(c)
  {
  }

  lemma {:induction false} ChordNoteChordRoundTripPart2(c: C.ChordModificationType)
    requires c.Dynamic? || c.Fermata? || c.Fingernails?
    ensures ChordTypeOf(NoteTypeOf(c).value) == Some(c)
  {
  }

  lemma {:induction false} ChordNoteChordRoundTripPart3(c: C.ChordModificationType)
    requires c.HalfMuted? || c.HarmonMute? || c.Heel?
    ensures ChordTypeOf(NoteTypeOf(c).value) == Some(c)
  {
  }

  lemma {:induction false} ChordNoteChordRoundTripPart4(c: C.ChordModificationType)
    requires c.Marcato? || c.Open? || c.Pizzicato?
    ensures ChordTypeOf(NoteTypeOf(c).value) == Some(c)
  {
  }

  lemma {:induction false} ChordNoteChordRoundTripPart5(c: C.ChordModificationType)
    requires c.Sforzando? || c.Smear? || c.SoftAccent?
    ensures ChordTypeOf(NoteTypeOf(c).value) == Some(c)
  {
  }

  lemma {:induction false} ChordNoteChordRoundTripPart6(c: C.ChordModificationType)
    requires c.Spiccato? || c.Staccato? || c.Staccatissimo?
    ensures ChordTypeOf(NoteTypeOf(c).value) == Some(c)
  {
  }

  lemma {:induction false} ChordNoteChordRoundTripPart7(c: C.ChordModificationType)
    requires c.Stress? || c.Tenuto? || c.Toe?
    ensures ChordTypeOf(NoteTypeOf(c).value) == Some(c)
  {
  }

  lemma {:induction false} ChordNoteChordRoundTripPart8(c: C.ChordModificationType)
    requires c.Tremolo? || c.Unstress? || c.UpBow?
    ensures ChordTypeOf(NoteTypeOf(c).value) == Some(c)
  {
  }

  /** The one asymmetry of the two tables: a chord tie becomes a note tie,
      but a note tie has no chord counterpart. */
  lemma {:induction false} TieIsOneWay()
    ensures NoteTypeOf(C.Tie) == Some(N.Tie)
    ensures ChordTypeOf(N.Tie) == None
  {
  }

  /** Exactly the types both enums share are converted: a note type is lifted
      iff some chord type maps onto it, `Tie` aside. */
  lemma {:induction false} LiftedIffShared(n: N.NoteModificationType)
    ensures ChordTypeOf(n).Some? <==> !n.Tie? && exists c :: NoteTypeOf(c) == Some(n)
  {
    if ChordTypeOf(n).Some? {
      NoteChordNoteRoundTrip(n);
    } else if !n.Tie? && exists c :: NoteTypeOf(c) == Some(n) {
      var c :| NoteTypeOf(c) == Some(n);
      assert !c.Tie?;
      ChordNoteChordRoundTrip(c);
      assert false;
    }
  }
}

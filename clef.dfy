/** Clefs: the meaning of a clef and the symbol that draws it. */
module Clefs {
  import opened Wrappers

  datatype ClefSymbol = GClef | CClef | FClef

  datatype ClefType =
    | Treble | Bass | FrenchViolin | Subbass | Tenor | Alto | Soprano | MezzoSoprano | Baritone

  datatype Clef = Clef(symbol: ClefSymbol, clefType: ClefType)

  const DefaultClef := Clef(GClef, Treble)

  /** `Clef::new`: the symbol is fixed by the clef type, except for the
      baritone clef, which takes the requested symbol (C clef by default). */
  function NewClef(clefType: ClefType, symbol: Option<ClefSymbol>): (r: Clef)
    ensures r.clefType == clefType
    ensures clefType in {Treble, FrenchViolin} ==> r.symbol == GClef
    ensures clefType in {Bass, Subbass} ==> r.symbol == FClef
    ensures clefType in {Tenor, Alto, Soprano, MezzoSoprano} ==> r.symbol == CClef
    ensures clefType == Baritone ==> r.symbol == symbol.UnwrapOr(CClef)
  {
    var s := match clefType
      case Treble => GClef
      case FrenchViolin => GClef
      case Bass => FClef
      case Subbass => FClef
      case Tenor => CClef
      case Alto => CClef
      case Soprano => CClef
      case MezzoSoprano => CClef
      case Baritone => symbol.UnwrapOr(CClef);
    Clef(s, clefType)
  }

  /** Only the baritone clef depends on the requested symbol. */
  lemma {:induction false} SymbolIgnoredUnlessBaritone(clefType: ClefType, s: Option<ClefSymbol>, t: Option<ClefSymbol>)
    requires clefType != Baritone
    ensures NewClef(clefType, s) == NewClef(clefType, t)
  {
  }
}

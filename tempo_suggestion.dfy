/** Tempo suggestions: textual tempo markings and the range of beats per
    minute each one suggests. */
module TempoSuggestions {
  import opened Ints

  datatype TempoMarking =
    | Larghissimo | Grave | Largo | Lento | Larghetto | Adagio | Adagietto | Andante
    | Andantino | MarciaModerato | AndanteModerato | Moderato | Allegretto | AllegroModerato
    | Allegro | Vivace | Vivacissimo | Allegrissimo | AllegroVivace | Presto | Prestissimo

  datatype TempoSuggestion = TempoSuggestion(marking: TempoMarking)

  const DefaultTempoSuggestion := TempoSuggestion(Moderato)

  /** `TempoSuggestion::new`. */
  function NewTempoSuggestion(marking: TempoMarking): (r: TempoSuggestion)
    ensures r.marking == marking
  {
    TempoSuggestion(marking)
  }

  /** `TempoSuggestion::bpm_min`. */
  function BpmMin(s: TempoSuggestion): (r: U16)
    ensures 10 <= r <= 200
  {
    match s.marking
    case Larghissimo => 10
    case Grave => 25
    case Largo => 40
    case Lento => 45
    case Larghetto => 60
    case Adagio => 66
    case Adagietto => 72
    case Andante => 76
    case Andantino => 80
    case MarciaModerato => 83
    case AndanteModerato => 92
    case Moderato => 108
    case Allegretto => 112
    case AllegroModerato => 116
    case Allegro => 120
    case Vivace => 168
    case Presto => 168
    case Vivacissimo => 172
    case Allegrissimo => 172
    case AllegroVivace => 174
    case Prestissimo => 200
  }

  /** `TempoSuggestion::bpm_max`. */
  function BpmMax(s: TempoSuggestion): (r: U16)
    ensures 24 <= r <= 240
  {
    match s.marking
    case Larghissimo => 24
    case Grave => 45
    case Largo => 60
    case Lento => 60
    case Larghetto => 66
    case Adagio => 76
    case Adagietto => 76
    case Andante => 108
    case Andantino => 108
    case MarciaModerato => 85
    case AndanteModerato => 112
    case Moderato => 120
    case Allegretto => 120
    case AllegroModerato => 120
    case Allegro => 168
    case Vivace => 176
    case Vivacissimo => 176
    case Allegrissimo => 178
    case AllegroVivace => 178
    case Presto => 200
    case Prestissimo => 240
  }

  /** `TempoSuggestion::value`: the typical tempo of the marking. */
  function SuggestedBpm(s: TempoSuggestion): (r: U16)
    ensures BpmMin(s) <= r <= BpmMax(s)
  {
    match s.marking
    case Larghissimo => 22
    case Grave => 35
    case Largo => 50
    case Lento => 55
    case Larghetto => 63
    case Adagio => 70
    case Adagietto => 74
    case Andante => 86
    case Andantino => 94
    case MarciaModerato => 84
    case AndanteModerato => 102
    case Moderato => 114
    case Allegretto => 116
    case AllegroModerato => 118
    case Allegro => 140
    case Vivace => 172
    case Vivacissimo => 174
    case Allegrissimo => 175
    case AllegroVivace => 176
    case Presto => 190
    case Prestissimo => 220
  }

  /** Larghissimo has the slowest lower bound and Prestissimo the fastest
      upper bound of all markings; the default suggests 114 bpm. */
  lemma {:induction false} Extremes(s: TempoSuggestion)
    ensures BpmMin(TempoSuggestion(Larghissimo)) <= BpmMin(s)
    ensures BpmMax(s) <= BpmMax(TempoSuggestion(Prestissimo))
    ensures SuggestedBpm(DefaultTempoSuggestion) == 114
  {
  }
}

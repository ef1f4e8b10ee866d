/** Tempos: a base note and how many of it sound per minute. */
module Tempos {
  import opened Wrappers
  import opened Ints
  import opened Durations

  datatype Tempo = Tempo(baseNote: Duration, beatsPerMinute: U16)

  /** The default tempo: 120 quarter notes per minute. */
  const DefaultTempo := Tempo(Duration(Quarter, 0), 120)

  /** `Tempo::new`. */
  function NewTempo(baseNote: Duration, beatsPerMinute: U16): (r: Tempo)
    ensures r.baseNote == baseNote && r.beatsPerMinute == beatsPerMinute
  {
    Tempo(baseNote, beatsPerMinute)
  }

  /** `seconds` is how long `beats` beats last at `bpm` beats per minute:
      there is no such time at 0 bpm, and otherwise the seconds times the
      speed are sixty times the beats. */
  predicate Lasts(seconds: Option<real>, beats: real, bpm: U16) {
    && (seconds.None? <==> bpm == 0)
    && (seconds.Some? ==> seconds.value * (bpm as real) == beats * 60.0)
  }

  /** Beats played at `bpm` beats per minute, in seconds: the source's
      `beats * 60.0 / f64::from(bpm)`.  At 0 bpm that division gives an
      infinity or a NaN, which is `None` here. */
  function Seconds(beats: real, bpm: U16): (r: Option<real>)
    ensures Lasts(r, beats, bpm)
  {
    if bpm == 0 then None
    else
      DivThenMul(beats * 60.0, bpm as real);
      Some(beats * 60.0 / (bpm as real))
  }

  /** At the default tempo a beat is a quarter note, half a second long. */
  lemma {:induction false} DefaultTempoBeat()
    ensures Value(DefaultTempo.baseNote) == 0.25
    ensures DefaultTempo.beatsPerMinute == 120
  {
  }
}

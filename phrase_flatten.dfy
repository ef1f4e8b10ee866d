/** `Phrase::flatten`: a copy of the phrase, under a fresh id and with its
    own modifications, in which every multivoice has been flattened into a
    phrase. With `fully`, sub-phrases are flattened too: a tuplet stays as
    a (flattened) phrase, any other sub-phrase and every multivoice give up
    their items to the phrase. Without it, each sub-phrase and multivoice
    is replaced by its flattened phrase.

    `Phrase::flatten` and `MultiVoice::flatten` call each other, so both are
    defined here, on top of the placement and combine of
    `MultiVoiceFlatten`. Ids are drawn from a counter `next`, in the order
    the source draws them; every result carries the next free id. */
module PhraseFlatten {
  import opened Wrappers
  import opened Durations
  import opened Phrases
  import MV = MultiVoiceFlatten

  /** What a flattened phrase looks like: valid, measurable, free of
      multivoices and, when flattened fully, made of notes, chords and
      flat tuplets only. */
  ghost predicate FlatShape(q: Phrase, fully: bool) {
    WellFormed(q) && Measured(q) && MV.NoMultiVoice(q.content) && (fully ==> MV.FullyFlat(q.content))
  }

  /** A fully flattened phrase's items are each flattened. */
  lemma {:induction false} FullyFlatItems(q: Phrase)
    requires FlatShape(q, true)
    ensures MV.AllFlattened(q.content)
  {
    assert ItemsWellFormed(q.content) && ItemsMeasured(q.content) && MV.FullyFlat(q.content);
    forall i | 0 <= i < |q.content| ensures MV.Flattened(q.content[i]) {
      assert ItemWellFormed(q.content[i]) && ItemMeasured(q.content[i]) && MV.FlatItem(q.content[i]);
    }
  }

  /** A phrase of flattened items with no modifications has the full flat
      shape. */
  lemma {:induction false} FlattenedShape(id: nat, items: seq<PhraseContent>)
    requires MV.AllFlattened(items)
    ensures FlatShape(Phrase(id, items, []), true)
  {
    assert MV.FullyFlat(items);
    MV.FullyFlatHasNoMultiVoice(items);
  }

  /** `Phrase::flatten(fully)`: the new phrase takes the next id and the
      phrase's modifications; its items come after. None when some
      multivoice needs `flatten_tuplets`. */
  function FlattenPhrase(p: Phrase, fully: bool, next: nat): (r: Option<(Phrase, nat)>)
    requires WellFormed(p) && Measured(p)
    ensures r.Some? ==> r.value.0.id == next && r.value.0.modifications == p.modifications && r.value.1 > next
    ensures r.Some? ==> FlatShape(r.value.0, fully)
    decreases p, 0
  {
    var content := if fully then FlattenFully(p.content, next + 1) else FlattenShallow(p.content, next + 1);
    match content
    case None => Option.None
    case Some((items, n)) =>
      if fully then
        MV.FullyFlatHasNoMultiVoice(items);
        Some((Phrase(next, items, p.modifications), n))
      else Some((Phrase(next, items, p.modifications), n))
  }

  /** The `fully` loop over the items: each item's flattening appended in
      order. */
  function FlattenFully(items: seq<PhraseContent>, next: nat): (r: Option<(seq<PhraseContent>, nat)>)
    requires ItemsWellFormed(items) && ItemsMeasured(items)
    ensures r.Some? ==> r.value.1 >= next && MV.AllFlattened(r.value.0)
    decreases items, 0
  {
    if items == [] then Some(([], next))
    else
      var k := |items| - 1;
      MV.ShapesSlice(items, 0, k);
      assert items[0..k] == items[..k];
      match FlattenFully(items[..k], next)
      case None => Option.None
      case Some((a, n)) =>
        match FlattenFullyItem(items[k], n)
        case None => Option.None
        case Some((b, n2)) =>
          MV.ShapesConcat(a, b);
          Some((a + b, n2))
  }

  /** What `fully` makes of one item: a note or chord is copied; a
      sub-phrase is flattened fully and kept when it is a tuplet, otherwise
      its items take its place; a multivoice gives up the items of its
      flattened phrase. */
  function FlattenFullyItem(item: PhraseContent, next: nat): (r: Option<(seq<PhraseContent>, nat)>)
    requires ItemWellFormed(item) && ItemMeasured(item)
    ensures r.Some? ==> r.value.1 >= next && MV.AllFlattened(r.value.0)
    ensures item.NoteItem? || item.ChordItem? ==> r == Some(([item], next))
    decreases item, 0
  {
    match item
    case NoteItem(_) => Some(([item], next))
    case ChordItem(_) => Some(([item], next))
    case PhraseItem(q) =>
      (match FlattenPhrase(q, true, next)
       case None => Option.None
       case Some((fq, n)) =>
         FullyFlatItems(fq);
         if IsTuplet(fq) then
           assert MV.Flattened(PhraseItem(fq));
           Some(([PhraseItem(fq)], n))
         else Some((fq.content, n)))
    case MultiVoiceItem(m) =>
      (match FlattenMultiVoice(m, next)
       case None => Option.None
       case Some((fm, n)) =>
         FullyFlatItems(fm);
         Some((fm.content, n)))
  }

  /** `MultiVoice::flatten`: every voice flattened fully, in order, then
      laid out and combined into a new phrase under the next id. */
  function FlattenMultiVoice(m: MultiVoice, next: nat): (r: Option<(Phrase, nat)>)
    requires forall k :: 0 <= k < |m.voices| ==> WellFormed(m.voices[k]) && Measured(m.voices[k])
    ensures r.Some? ==> r.value.0.modifications == [] && r.value.1 > next && FlatShape(r.value.0, true)
    decreases m, 0
  {
    match FlattenEach(m.voices, next)
    case None => Option.None
    case Some((voices, n)) =>
      match MV.FlattenVoices(voices, n, n + 1)
      case None => Option.None
      case Some((fp, n2)) =>
        FlattenedShape(fp.id, fp.content);
        Some((fp, n2))
  }

  /** The voices, each flattened fully, in order. */
  function FlattenEach(voices: seq<Phrase>, next: nat): (r: Option<(seq<Phrase>, nat)>)
    requires forall k :: 0 <= k < |voices| ==> WellFormed(voices[k]) && Measured(voices[k])
    ensures r.Some? ==> |r.value.0| == |voices| && MV.VoicesFlattened(r.value.0) && r.value.1 >= next
    decreases voices, 0
  {
    if voices == [] then Some(([], next))
    else
      var k := |voices| - 1;
      match FlattenEach(voices[..k], next)
      case None => Option.None
      case Some((a, n)) =>
        match FlattenPhrase(voices[k], true, n)
        case None => Option.None
        case Some((fq, n2)) =>
          FullyFlatItems(fq);
          Some((a + [fq], n2))
  }

  /** The loop without `fully`: each item mapped in order. */
  function FlattenShallow(items: seq<PhraseContent>, next: nat): (r: Option<(seq<PhraseContent>, nat)>)
    requires ItemsWellFormed(items) && ItemsMeasured(items)
    ensures r.Some? ==> r.value.1 >= next && |r.value.0| == |items|
    ensures r.Some? ==> ItemsWellFormed(r.value.0) && ItemsMeasured(r.value.0) && MV.NoMultiVoice(r.value.0)
    decreases items, 0
  {
    if items == [] then Some(([], next))
    else
      var k := |items| - 1;
      MV.ShapesSlice(items, 0, k);
      assert items[0..k] == items[..k];
      match FlattenShallow(items[..k], next)
      case None => Option.None
      case Some((a, n)) =>
        match FlattenShallowItem(items[k], n)
        case None => Option.None
        case Some((b, n2)) =>
          MV.ShapesConcat(a, [b]);
          Some((a + [b], n2))
  }

  /** What the loop without `fully` makes of one item: a sub-phrase becomes
      its flattened copy, a multivoice its flattened phrase, and a note or
      chord is copied. */
  function FlattenShallowItem(item: PhraseContent, next: nat): (r: Option<(PhraseContent, nat)>)
    requires ItemWellFormed(item) && ItemMeasured(item)
    ensures r.Some? ==> r.value.1 >= next
    ensures r.Some? ==> ItemWellFormed(r.value.0) && ItemMeasured(r.value.0) && MV.NoMultiVoiceItem(r.value.0)
    ensures item.NoteItem? || item.ChordItem? ==> r == Some((item, next))
    decreases item, 0
  {
    match item
    case NoteItem(_) => Some((item, next))
    case ChordItem(_) => Some((item, next))
    case PhraseItem(q) =>
      (match FlattenPhrase(q, false, next)
       case None => Option.None
       case Some((fq, n)) => Some((PhraseItem(fq), n)))
    case MultiVoiceItem(m) =>
      (match FlattenMultiVoice(m, next)
       case None => Option.None
       case Some((fm, n)) => Some((PhraseItem(fm), n)))
  }

  // ---------------------------------------------------------------------
  // Beats are kept when there is no multivoice to lay out

  /** Flattening a phrase without multivoices always succeeds, and the copy
      lasts exactly as long as the phrase, under any beat base and ratio:
      a sub-phrase spliced by `fully` is not a tuplet, so its items keep
      the ratio they were measured under. */
  lemma {:induction false} FlattenKeepsBeats(p: Phrase, fully: bool, next: nat, beatBase: Duration, ratio: Option<real>)
    requires WellFormed(p) && Measured(p) && MV.NoMultiVoice(p.content)
    ensures FlattenPhrase(p, fully, next).Some?
    ensures PhraseBeats(FlattenPhrase(p, fully, next).value.0, beatBase, ratio) == PhraseBeats(p, beatBase, ratio)
    decreases p, 1
  {
    var inner := InnerRatio(ratio, p.modifications);
    if fully {
      FullyKeepsBeats(p.content, next + 1, beatBase, inner);
    } else {
      ShallowKeepsBeats(p.content, next + 1, beatBase, inner);
    }
  }

  /** The `fully` loop keeps the items' total beats. */
  lemma {:induction false} FullyKeepsBeats(items: seq<PhraseContent>, next: nat, beatBase: Duration, ratio: Option<real>)
    requires ItemsWellFormed(items) && ItemsMeasured(items) && MV.NoMultiVoice(items)
    ensures FlattenFully(items, next).Some?
    ensures ItemsBeats(FlattenFully(items, next).value.0, beatBase, ratio) == ItemsBeats(items, beatBase, ratio)
    decreases items, 0
  {
    if items != [] {
      var k := |items| - 1;
      MV.ShapesSlice(items, 0, k);
      assert items[0..k] == items[..k];
      FullyKeepsBeats(items[..k], next, beatBase, ratio);
      var (a, n) := FlattenFully(items[..k], next).value;
      FullyItemKeepsBeats(items[k], n, beatBase, ratio);
      var (b, n2) := FlattenFullyItem(items[k], n).value;
      assert FlattenFully(items, next) == Some((a + b, n2));
      MV.ShapesConcat(a, b);
      ItemsBeatsAppend(a, b, beatBase, ratio);
    }
  }

  /** What `fully` makes of one item lasts as long as the item. */
  lemma {:induction false} FullyItemKeepsBeats(item: PhraseContent, next: nat, beatBase: Duration, ratio: Option<real>)
    requires ItemWellFormed(item) && ItemMeasured(item) && MV.NoMultiVoiceItem(item)
    ensures FlattenFullyItem(item, next).Some?
    ensures ItemsBeats(FlattenFullyItem(item, next).value.0, beatBase, ratio) == ItemBeats(item, beatBase, ratio)
    decreases item, 0
  {
    match item
    case NoteItem(_) => SingleBeats(item, beatBase, ratio);
    case ChordItem(_) => SingleBeats(item, beatBase, ratio);
    case PhraseItem(q) =>
      FlattenKeepsBeats(q, true, next, beatBase, ratio);
      var fq := FlattenPhrase(q, true, next).value.0;
      FullyFlatItems(fq);
      if IsTuplet(fq) {
        SingleBeats(PhraseItem(fq), beatBase, ratio);
      } else {
        IsTupletIffRatio(fq);
        assert InnerRatio(ratio, fq.modifications) == ratio;
      }
  }

  /** A run of one item lasts as long as the item. */
  lemma {:induction false} SingleBeats(item: PhraseContent, beatBase: Duration, ratio: Option<real>)
    requires ItemMeasured(item)
    ensures ItemsMeasured([item])
    ensures ItemsBeats([item], beatBase, ratio) == ItemBeats(item, beatBase, ratio)
  {
    assert [item][..0] == [];
  }

  /** The loop without `fully` keeps the items' total beats. */
  lemma {:induction false} ShallowKeepsBeats(items: seq<PhraseContent>, next: nat, beatBase: Duration, ratio: Option<real>)
    requires ItemsWellFormed(items) && ItemsMeasured(items) && MV.NoMultiVoice(items)
    ensures FlattenShallow(items, next).Some?
    ensures ItemsBeats(FlattenShallow(items, next).value.0, beatBase, ratio) == ItemsBeats(items, beatBase, ratio)
    decreases items, 0
  {
    if items != [] {
      var k := |items| - 1;
      MV.ShapesSlice(items, 0, k);
      assert items[0..k] == items[..k];
      ShallowKeepsBeats(items[..k], next, beatBase, ratio);
      var (a, n) := FlattenShallow(items[..k], next).value;
      ShallowItemKeepsBeats(items[k], n, beatBase, ratio);
      var (b, n2) := FlattenShallowItem(items[k], n).value;
      assert FlattenShallow(items, next) == Some((a + [b], n2));
      SingleBeats(b, beatBase, ratio);
      ItemsBeatsAppend(a, [b], beatBase, ratio);
    }
  }

  /** What the loop without `fully` makes of one item lasts as long as the
      item. */
  lemma {:induction false} ShallowItemKeepsBeats(item: PhraseContent, next: nat, beatBase: Duration, ratio: Option<real>)
    requires ItemWellFormed(item) && ItemMeasured(item) && MV.NoMultiVoiceItem(item)
    ensures FlattenShallowItem(item, next).Some?
    ensures ItemBeats(FlattenShallowItem(item, next).value.0, beatBase, ratio) == ItemBeats(item, beatBase, ratio)
    decreases item, 0
  {
    if item.PhraseItem? {
      FlattenKeepsBeats(item.phrase, false, next, beatBase, ratio);
    }
  }
}

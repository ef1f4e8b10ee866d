/** `Phrase::simplify` and `MultiVoice::simplify`: empty sub-phrases and
    voices disappear, sub-phrases without modifications are spliced into
    their parent, and a multivoice left with one voice becomes that phrase.
    The phrase repeats whole rounds over its items until a round changes
    nothing. */
module PhraseSimplify {
  import opened Wrappers
  import opened Durations
  import opened Phrases

  // ---------------------------------------------------------------------
  // Sizes, which every round that edits makes smaller

  /** The number of phrases, multivoices, notes and chords in the tree. */
  function PhraseSize(p: Phrase): (r: nat)
    ensures r >= 1
    decreases p, 1
  {
    1 + ItemsSize(p.content)
  }

  function ItemsSize(items: seq<PhraseContent>): nat
    decreases items, 0
  {
    if items == [] then 0
    else ItemsSize(items[..|items| - 1]) + ItemSize(items[|items| - 1])
  }

  function ItemSize(item: PhraseContent): (r: nat)
    ensures r >= 1
    decreases item, 0
  {
    match item
    case NoteItem(_) => 1
    case ChordItem(_) => 1
    case PhraseItem(q) => PhraseSize(q)
    case MultiVoiceItem(m) => 1 + VoicesSize(m.voices)
  }

  function VoicesSize(voices: seq<Phrase>): nat
    decreases voices, 0
  {
    if voices == [] then 0
    else VoicesSize(voices[..|voices| - 1]) + PhraseSize(voices[|voices| - 1])
  }

  lemma {:induction false} ItemsSizeAppend(a: seq<PhraseContent>, b: seq<PhraseContent>)
    ensures ItemsSize(a + b) == ItemsSize(a) + ItemsSize(b)
    decreases |b|
  {
    if b == [] {
      assert a + b == a;
    } else {
      var n := |b| - 1;
      ItemsSizeAppend(a, b[..n]);
      assert (a + b)[..|a + b| - 1] == a + b[..n];
      assert (a + b)[|a + b| - 1] == b[n];
    }
  }

  lemma {:induction false} VoicesSizeAppend(a: seq<Phrase>, b: seq<Phrase>)
    ensures VoicesSize(a + b) == VoicesSize(a) + VoicesSize(b)
    decreases |b|
  {
    if b == [] {
      assert a + b == a;
    } else {
      var n := |b| - 1;
      VoicesSizeAppend(a, b[..n]);
      assert (a + b)[..|a + b| - 1] == a + b[..n];
      assert (a + b)[|a + b| - 1] == b[n];
    }
  }

  /** The size of a prefix one item longer. */
  lemma {:induction false} ItemsSizeStep(items: seq<PhraseContent>, i: nat)
    requires i < |items|
    ensures ItemsSize(items[..i + 1]) == ItemsSize(items[..i]) + ItemSize(items[i])
    ensures ItemsSize(items[..i + 1]) <= ItemsSize(items)
  {
    assert items[..i + 1][..i] == items[..i];
    ItemsSizeAppend(items[..i + 1], items[i + 1..]);
    assert items[..i + 1] + items[i + 1..] == items;
  }

  lemma {:induction false} VoicesSizeStep(voices: seq<Phrase>, k: nat)
    requires k < |voices|
    ensures VoicesSize(voices[..k + 1]) == VoicesSize(voices[..k]) + PhraseSize(voices[k])
    ensures VoicesSize(voices[..k + 1]) <= VoicesSize(voices)
  {
    assert voices[..k + 1][..k] == voices[..k];
    VoicesSizeAppend(voices[..k + 1], voices[k + 1..]);
    assert voices[..k + 1] + voices[k + 1..] == voices;
  }

  // ---------------------------------------------------------------------
  // What a simplified tree looks like

  /** Every sub-phrase, all the way down, has items and modifications, and
      every multivoice has at least two voices, none of them empty. */
  ghost predicate ItemsSimplified(items: seq<PhraseContent>)
    decreases items, 1
  {
    forall i :: 0 <= i < |items| ==> ItemSimplified(items[i])
  }

  ghost predicate ItemSimplified(item: PhraseContent)
    decreases item, 0
  {
    match item
    case NoteItem(_) => true
    case ChordItem(_) => true
    case PhraseItem(q) => q.content != [] && q.modifications != [] && ItemsSimplified(q.content)
    case MultiVoiceItem(m) => |m.voices| >= 2 && VoicesSimplified(m.voices)
  }

  ghost predicate VoicesSimplified(voices: seq<Phrase>)
    decreases voices, 1
  {
    forall k :: 0 <= k < |voices| ==> voices[k].content != [] && ItemsSimplified(voices[k].content)
  }

  /** The beats of a list of voices, as `MultiVoice::get_beats` counts them. */
  function VoicesBeats(voices: seq<Phrase>, beatBase: Duration, ratio: Option<real>): real
    requires forall k :: 0 <= k < |voices| ==> Measured(voices[k])
  {
    MultiVoiceBeats(MultiVoice(0, voices), beatBase, ratio)
  }

  /** The beats the items take where the multivoice stood after it was
      simplified: its own, the single phrase's, or none. */
  function LeftBeats(m: MultiVoice, single: Option<Phrase>, beatBase: Duration, ratio: Option<real>): real
    requires forall k :: 0 <= k < |m.voices| ==> Measured(m.voices[k])
    requires single.Some? ==> Measured(single.value)
  {
    if m.voices != [] then MultiVoiceBeats(m, beatBase, ratio)
    else if single.Some? then PhraseBeats(single.value, beatBase, ratio)
    else 0.0
  }

  // ---------------------------------------------------------------------
  // Beat bookkeeping for the loops

  /** One more voice kept: the longest of the kept voices grows as the
      longest of the voices seen does. */
  lemma {:induction false} KeepVoice(kept: seq<Phrase>, seen: seq<Phrase>, v: Phrase, w: Phrase,
                                     beatBase: Duration, ratio: Option<real>)
    requires NonNegative(ratio)
    requires forall k :: 0 <= k < |kept| ==> Measured(kept[k])
    requires forall k :: 0 <= k < |seen| ==> Measured(seen[k])
    requires Measured(v) && Measured(w)
    requires VoicesBeats(kept, beatBase, ratio) == VoicesBeats(seen, beatBase, ratio)
    requires PhraseBeats(w, beatBase, ratio) == PhraseBeats(v, beatBase, ratio)
    ensures forall k :: 0 <= k < |kept + [w]| ==> Measured((kept + [w])[k])
    ensures forall k :: 0 <= k < |seen + [v]| ==> Measured((seen + [v])[k])
    ensures VoicesBeats(kept + [w], beatBase, ratio) == VoicesBeats(seen + [v], beatBase, ratio)
  {
    MultiVoiceBeatsSnoc(0, kept, w, beatBase, ratio);
    MultiVoiceBeatsSnoc(0, seen, v, beatBase, ratio);
  }

  /** A voice of no beats dropped: the longest of the voices seen stays. */
  lemma {:induction false} DropVoice(kept: seq<Phrase>, seen: seq<Phrase>, v: Phrase,
                                     beatBase: Duration, ratio: Option<real>)
    requires NonNegative(ratio)
    requires forall k :: 0 <= k < |kept| ==> Measured(kept[k])
    requires forall k :: 0 <= k < |seen| ==> Measured(seen[k])
    requires Measured(v) && PhraseBeats(v, beatBase, ratio) == 0.0
    requires VoicesBeats(kept, beatBase, ratio) == VoicesBeats(seen, beatBase, ratio)
    ensures forall k :: 0 <= k < |seen + [v]| ==> Measured((seen + [v])[k])
    ensures VoicesBeats(kept, beatBase, ratio) == VoicesBeats(seen + [v], beatBase, ratio)
  {
    MultiVoiceBeatsSnoc(0, seen, v, beatBase, ratio);
  }

  /** One round step of `retain_mut`: the voices kept so far against the
      voices seen so far, a voice `v` and its simplified form `w`, which is
      kept when it has items. */
  lemma {:induction false} VoicesStepBeats(kept: seq<Phrase>, seen: seq<Phrase>, v: Phrase, w: Phrase, seenNext: seq<Phrase>)
    requires seenNext == seen + [v]
    requires forall k :: 0 <= k < |kept| ==> Measured(kept[k])
    requires forall k :: 0 <= k < |seen| ==> Measured(seen[k])
    requires Measured(v) && Measured(w)
    requires forall b, s :: NonNegative(s) ==> VoicesBeats(kept, b, s) == VoicesBeats(seen, b, s)
    requires forall b, t :: NonNegative(t) ==> PhraseBeats(w, b, t) == PhraseBeats(v, b, t)
    ensures var next := if w.content != [] then kept + [w] else kept;
      (forall k :: 0 <= k < |next| ==> Measured(next[k])) &&
      (forall k :: 0 <= k < |seenNext| ==> Measured(seenNext[k])) &&
      forall b, s :: NonNegative(s) ==> VoicesBeats(next, b, s) == VoicesBeats(seenNext, b, s)
  {
    forall b, s | NonNegative(s)
      ensures (if w.content != [] then
                 VoicesBeats(kept + [w], b, s) == VoicesBeats(seen + [v], b, s)
               else VoicesBeats(kept, b, s) == VoicesBeats(seen + [v], b, s))
    {
      assert PhraseBeats(w, b, s) == PhraseBeats(v, b, s);
      if w.content != [] {
        KeepVoice(kept, seen, v, w, b, s);
      } else {
        assert ItemsBeats(w.content, b, InnerRatio(s, w.modifications)) == 0.0;
        DropVoice(kept, seen, v, b, s);
      }
    }
    MultiVoiceBeatsSnoc(0, seen, v, Duration(Quarter, 0), Option.None);
    if w.content != [] {
      MultiVoiceBeatsSnoc(0, kept, w, Duration(Quarter, 0), Option.None);
    }
  }

  /** A kept voice has items and is simplified all the way down. */
  lemma {:induction false} KeepSimplified(kept: seq<Phrase>, w: Phrase)
    requires VoicesSimplified(kept) && ItemsSimplified(w.content)
    ensures VoicesSimplified(if w.content != [] then kept + [w] else kept)
  {
    if w.content != [] {
      forall j | 0 <= j < |kept + [w]| ensures (kept + [w])[j].content != [] && ItemsSimplified((kept + [w])[j].content) {
        if j < |kept| {
          assert (kept + [w])[j] == kept[j];
        }
      }
    }
  }

  /** The items of a phrase without modifications take its beats. */
  lemma {:induction false} SpliceBeats(q: Phrase, beatBase: Duration, ratio: Option<real>)
    requires Measured(q) && q.modifications == []
    ensures PhraseBeats(q, beatBase, ratio) == ItemsBeats(q.content, beatBase, ratio)
  {
  }

  /** The beats of a prefix one item longer. */
  lemma {:induction false} ItemsBeatsStep(items: seq<PhraseContent>, i: nat, beatBase: Duration, ratio: Option<real>)
    requires i < |items| && ItemsMeasured(items)
    ensures ItemsMeasured(items[..i]) && ItemsMeasured(items[..i + 1]) && ItemMeasured(items[i])
    ensures ItemsBeats(items[..i + 1], beatBase, ratio) == ItemsBeats(items[..i], beatBase, ratio) + ItemBeats(items[i], beatBase, ratio)
  {
    SliceKeeps(items, 0, i);
    SliceKeeps(items, 0, i + 1);
    assert items[..i + 1][..i] == items[..i];
  }

  // ---------------------------------------------------------------------
  // The methods

  /** `Phrase::simplify`: rounds over the items until one changes nothing.
      The phrase keeps its id, modifications and beats, and comes out
      simplified all the way down. */
  method Simplify(p: Phrase) returns (r: Phrase)
    ensures r.id == p.id && r.modifications == p.modifications
    ensures ItemsSimplified(r.content)
    ensures PhraseSize(r) <= PhraseSize(p)
    ensures WellFormed(p) ==> WellFormed(r)
    ensures Measured(p) ==> Measured(r)
    ensures Measured(p) ==> forall b, t :: NonNegative(t) ==> PhraseBeats(r, b, t) == PhraseBeats(p, b, t)
    decreases PhraseSize(p), 0
  {
    var content := p.content;
    var changed := true;
    while changed
      invariant ItemsSize(content) <= ItemsSize(p.content)
      invariant !changed ==> ItemsSimplified(content)
      invariant WellFormed(p) ==> ItemsWellFormed(content)
      invariant Measured(p) ==> ItemsMeasured(content)
      invariant Measured(p) ==> forall b, s :: NonNegative(s) ==> ItemsBeats(content, b, s) == ItemsBeats(p.content, b, s)
      decreases 2 * ItemsSize(content) + (if changed then 1 else 0)
    {
      content, changed := SimplifyRound(content);
    }
    r := p.(content := content);
    if Measured(p) {
      forall b, t | NonNegative(t) ensures PhraseBeats(r, b, t) == PhraseBeats(p, b, t) {
        var s := InnerRatio(t, p.modifications);
        assert ItemsBeats(content, b, s) == ItemsBeats(p.content, b, s);
      }
    }
  }

  /** One round of the `while content_changed` loop: every sub-phrase and
      multivoice is simplified, then the edits collected are applied (the
      source splices them in from the back, which comes to the same). The
      round reports whether it edited anything. */
  method SimplifyRound(items: seq<PhraseContent>) returns (out: seq<PhraseContent>, changed: bool)
    ensures ItemsSize(out) <= ItemsSize(items)
    ensures changed ==> ItemsSize(out) < ItemsSize(items)
    ensures !changed ==> ItemsSimplified(out)
    ensures ItemsWellFormed(items) ==> ItemsWellFormed(out)
    ensures ItemsMeasured(items) ==> ItemsMeasured(out)
    ensures ItemsMeasured(items) ==> forall b, s :: NonNegative(s) ==> ItemsBeats(out, b, s) == ItemsBeats(items, b, s)
    decreases ItemsSize(items), 3
  {
    out := [];
    changed := false;
    var i := 0;
    while i < |items|
      invariant 0 <= i <= |items|
      invariant ItemsSize(out) <= ItemsSize(items[..i])
      invariant changed ==> ItemsSize(out) < ItemsSize(items[..i])
      invariant !changed ==> ItemsSimplified(out)
      invariant ItemsWellFormed(items) ==> ItemsWellFormed(out)
      invariant ItemsMeasured(items) ==> ItemsMeasured(out)
      invariant ItemsMeasured(items) ==> forall b, s :: NonNegative(s) ==> ItemsBeats(out, b, s) == ItemsBeats(items[..i], b, s)
    {
      var item := items[i];
      ItemsSizeStep(items, i);
      var add: seq<PhraseContent>;
      var edited: bool;
      add, edited := SimplifyItem(item);
      ItemsSizeAppend(out, add);
      ConcatKeeps(out, add);
      if ItemsMeasured(items) {
        forall b, s | NonNegative(s) ensures ItemsBeats(out + add, b, s) == ItemsBeats(items[..i + 1], b, s) {
          ItemsBeatsStep(items, i, b, s);
          ItemsBeatsAppend(out, add, b, s);
        }
      }
      if !changed && !edited {
        forall j | 0 <= j < |out + add| ensures ItemSimplified((out + add)[j]) {
          if j >= |out| {
            assert (out + add)[j] == add[j - |out|];
          }
        }
      }
      out := out + add;
      changed := changed || edited;
      i := i + 1;
    }
    assert items[..i] == items;
  }

  /** What one item becomes in a round: an emptied sub-phrase goes, one
      without modifications gives up its items, and an emptied multivoice
      goes or leaves its single phrase; anything else stays, simplified.
      `edited` says whether an edit was made. */
  method SimplifyItem(item: PhraseContent) returns (add: seq<PhraseContent>, edited: bool)
    ensures ItemsSize(add) <= ItemSize(item)
    ensures edited ==> ItemsSize(add) < ItemSize(item)
    ensures !edited ==> ItemsSimplified(add)
    ensures ItemWellFormed(item) ==> ItemsWellFormed(add)
    ensures ItemMeasured(item) ==> ItemsMeasured(add)
    ensures ItemMeasured(item) ==> forall b, s :: NonNegative(s) ==> ItemsBeats(add, b, s) == ItemBeats(item, b, s)
    decreases ItemSize(item), 2
  {
    match item {
      case PhraseItem(q) =>
        add, edited := SimplifySubPhrase(q);
      case MultiVoiceItem(m) =>
        add, edited := SimplifyMultiVoiceItem(m);
      case NoteItem(_) =>
        add, edited := [item], false;
        assert [item][..0] == [];
      case ChordItem(_) =>
        add, edited := [item], false;
        assert [item][..0] == [];
    }
  }

  /** A sub-phrase in a round: simplified, then dropped when empty and
      spliced into its parent when it has no modifications. */
  method SimplifySubPhrase(q: Phrase) returns (add: seq<PhraseContent>, edited: bool)
    ensures ItemsSize(add) <= PhraseSize(q)
    ensures edited ==> ItemsSize(add) < PhraseSize(q)
    ensures !edited ==> ItemsSimplified(add)
    ensures WellFormed(q) ==> ItemsWellFormed(add)
    ensures Measured(q) ==> ItemsMeasured(add)
    ensures Measured(q) ==> forall b, s :: NonNegative(s) ==> ItemsBeats(add, b, s) == ItemBeats(PhraseItem(q), b, s)
    decreases PhraseSize(q), 1
  {
    var q' := Simplify(q);
    if q'.content == [] {
      add, edited := [], true;
    } else if q'.modifications == [] {
      add, edited := q'.content, true;
      if Measured(q) {
        forall b, s | NonNegative(s) ensures ItemsBeats(add, b, s) == ItemBeats(PhraseItem(q), b, s) {
          SpliceBeats(q', b, s);
        }
      }
    } else {
      add, edited := [PhraseItem(q')], false;
      assert add[..0] == [];
    }
  }

  /** A multivoice in a round: simplified, then dropped when it has no
      voice left and replaced by its phrase when it has one. */
  method SimplifyMultiVoiceItem(m: MultiVoice) returns (add: seq<PhraseContent>, edited: bool)
    ensures ItemsSize(add) <= ItemSize(MultiVoiceItem(m))
    ensures edited ==> ItemsSize(add) < ItemSize(MultiVoiceItem(m))
    ensures !edited ==> ItemsSimplified(add)
    ensures ItemWellFormed(MultiVoiceItem(m)) ==> ItemsWellFormed(add)
    ensures ItemMeasured(MultiVoiceItem(m)) ==> ItemsMeasured(add)
    ensures ItemMeasured(MultiVoiceItem(m)) ==> forall b, s :: NonNegative(s) ==>
      ItemsBeats(add, b, s) == ItemBeats(MultiVoiceItem(m), b, s)
    decreases ItemSize(MultiVoiceItem(m)), 1
  {
    var m', single := SimplifyMultiVoice(m);
    if m'.voices == [] {
      add := if single.Some? then [PhraseItem(single.value)] else [];
      edited := true;
    } else {
      add, edited := [MultiVoiceItem(m')], false;
    }
    assert add == [] || add[..0] == [];
    if ItemMeasured(MultiVoiceItem(m)) {
      forall b, s | NonNegative(s) ensures ItemsBeats(add, b, s) == ItemBeats(MultiVoiceItem(m), b, s) {
        assert LeftBeats(m', single, b, s) == MultiVoiceBeats(m, b, s);
      }
    }
  }

  /** `MultiVoice::simplify`: every voice is simplified and the emptied
      ones are dropped, in order; when exactly one voice remains it is
      taken out and returned, leaving the multivoice without voices. The
      beats stay where they were. */
  method SimplifyMultiVoice(m: MultiVoice) returns (r: MultiVoice, single: Option<Phrase>)
    ensures r.id == m.id
    ensures single.Some? ==> r.voices == [] && single.value.content != [] && ItemsSimplified(single.value.content)
    ensures r.voices != [] ==> |r.voices| >= 2
    ensures VoicesSimplified(r.voices)
    ensures VoicesSize(r.voices) <= VoicesSize(m.voices)
    ensures single.Some? ==> PhraseSize(single.value) <= VoicesSize(m.voices)
    ensures ItemWellFormed(MultiVoiceItem(m)) ==>
      (ItemWellFormed(MultiVoiceItem(r)) && (single.Some? ==> WellFormed(single.value)))
    ensures ItemMeasured(MultiVoiceItem(m)) ==>
      (ItemMeasured(MultiVoiceItem(r)) && (single.Some? ==> Measured(single.value)))
    ensures ItemMeasured(MultiVoiceItem(m)) ==> forall b, s :: NonNegative(s) ==>
      LeftBeats(r, single, b, s) == MultiVoiceBeats(m, b, s)
    decreases 1 + VoicesSize(m.voices), 0
  {
    var kept := SimplifyVoices(m.voices);
    if |kept| == 1 {
      r, single := m.(voices := []), Some(kept[0]);
      assert kept == [] + [kept[0]];
      VoicesSizeAppend([], [kept[0]]);
    } else {
      r, single := m.(voices := kept), Option.None;
    }
    if ItemMeasured(MultiVoiceItem(m)) {
      forall b, s | NonNegative(s) ensures LeftBeats(r, single, b, s) == MultiVoiceBeats(m, b, s) {
        assert VoicesBeats(kept, b, s) == VoicesBeats(m.voices, b, s);
      }
    }
  }

  /** What the voice loop keeps from the voices `seen` so far: simplified
      voices no larger than those seen, well formed and measured when all
      voices are, and lasting as many beats. */
  ghost predicate KeptFrom(kept: seq<Phrase>, seen: seq<Phrase>, wellFormed: bool, measured: bool) {
    && VoicesSimplified(kept)
    && VoicesSize(kept) <= VoicesSize(seen)
    && (wellFormed ==> forall j :: 0 <= j < |kept| ==> WellFormed(kept[j]))
    && (measured ==>
          && (forall j :: 0 <= j < |kept| ==> Measured(kept[j]))
          && (forall j :: 0 <= j < |seen| ==> Measured(seen[j]))
          && forall b, s :: NonNegative(s) ==> VoicesBeats(kept, b, s) == VoicesBeats(seen, b, s))
  }

  /** One voice of the loop: `w`, the simplified `v`, is kept when it has
      items. */
  lemma {:induction false} KeepStep(kept: seq<Phrase>, seen: seq<Phrase>, v: Phrase, w: Phrase, wellFormed: bool, measured: bool)
    requires KeptFrom(kept, seen, wellFormed, measured)
    requires (wellFormed ==> WellFormed(v)) && (measured ==> Measured(v))
    requires ItemsSimplified(w.content) && PhraseSize(w) <= PhraseSize(v)
    requires (WellFormed(v) ==> WellFormed(w)) && (Measured(v) ==> Measured(w))
    requires Measured(v) ==> forall b, t :: NonNegative(t) ==> PhraseBeats(w, b, t) == PhraseBeats(v, b, t)
    ensures KeptFrom(if w.content != [] then kept + [w] else kept, seen + [v], wellFormed, measured)
  {
    var next := if w.content != [] then kept + [w] else kept;
    KeepSimplified(kept, w);
    VoicesSizeAppend(seen, [v]);
    assert [v][..0] == [];
    if w.content != [] {
      VoicesSizeAppend(kept, [w]);
      assert [w][..0] == [];
    }
    if wellFormed {
      forall j | 0 <= j < |next| ensures WellFormed(next[j]) {
        if j < |kept| {
          assert next[j] == kept[j];
        }
      }
    }
    if measured {
      VoicesStepBeats(kept, seen, v, w, seen + [v]);
    }
  }

  /** The `retain_mut` of `MultiVoice::simplify`: each voice simplified,
      the emptied ones dropped, the others kept in order. */
  method SimplifyVoices(voices: seq<Phrase>) returns (kept: seq<Phrase>)
    ensures VoicesSimplified(kept)
    ensures VoicesSize(kept) <= VoicesSize(voices)
    ensures (forall j :: 0 <= j < |voices| ==> WellFormed(voices[j])) ==> forall j :: 0 <= j < |kept| ==> WellFormed(kept[j])
    ensures (forall j :: 0 <= j < |voices| ==> Measured(voices[j])) ==> forall j :: 0 <= j < |kept| ==> Measured(kept[j])
    ensures (forall j :: 0 <= j < |voices| ==> Measured(voices[j])) ==>
      forall b, s :: NonNegative(s) ==> VoicesBeats(kept, b, s) == VoicesBeats(voices, b, s)
    decreases VoicesSize(voices), 2
  {
    kept := [];
    var k := 0;
    ghost var wellFormed := forall j :: 0 <= j < |voices| ==> WellFormed(voices[j]);
    ghost var measured := forall j :: 0 <= j < |voices| ==> Measured(voices[j]);
    while k < |voices|
      invariant 0 <= k <= |voices|
      invariant KeptFrom(kept, voices[..k], wellFormed, measured)
    {
      kept := KeepNext(voices, k, kept, wellFormed, measured);
      k := k + 1;
    }
    assert voices[..k] == voices;
  }

  /** One pass of the voice loop: the `k`-th voice simplified, and kept
      when it still has items. */
  method KeepNext(voices: seq<Phrase>, k: nat, kept: seq<Phrase>, ghost wellFormed: bool, ghost measured: bool)
    returns (kept': seq<Phrase>)
    requires k < |voices|
    requires wellFormed == forall j :: 0 <= j < |voices| ==> WellFormed(voices[j])
    requires measured == forall j :: 0 <= j < |voices| ==> Measured(voices[j])
    requires KeptFrom(kept, voices[..k], wellFormed, measured)
    ensures KeptFrom(kept', voices[..k + 1], wellFormed, measured)
    decreases VoicesSize(voices), 1
  {
    var v := voices[k];
    VoicesSizeStep(voices, k);
    var w := Simplify(v);
    assert voices[..k + 1] == voices[..k] + [v];
    KeepStep(kept, voices[..k], v, w, wellFormed, measured);
    kept' := if w.content != [] then kept + [w] else kept;
  }
}

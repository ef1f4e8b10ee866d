/** Parts: one instrument's named run of sections, played one after the
    other. The part is the object a score edits in place, so it is a class
    whose `content` is reassigned by its methods; the sections inside it
    are values. */
module Parts {
  import opened Wrappers
  import Durations
  import Tempos
  import Sec = Sections
  import St = Staves
  import T = Timeslices
  import Ph = Phrases
  import ModSets
  import StringSets

  // ---------------------------------------------------------------------
  // Folds over a part's sections

  /** Every section can be measured in beats. */
  predicate SectionsMeasured(sections: seq<Sec.Section>) {
    forall i :: 0 <= i < |sections| ==> Sec.Measured(sections[i])
  }

  /** Every section can be played. */
  ghost predicate SectionsWellFormed(sections: seq<Sec.Section>) {
    forall i :: 0 <= i < |sections| ==> Sec.WellFormed(sections[i])
  }

  /** The ids of the sections, in order. */
  function SectionIds(sections: seq<Sec.Section>): (r: seq<nat>)
    ensures |r| == |sections| && forall i :: 0 <= i < |sections| ==> r[i] == sections[i].id
  {
    seq(|sections|, i requires 0 <= i < |sections| => sections[i].id)
  }

  /** The `sum` of the sections' beats. */
  function BeatsOf(sections: seq<Sec.Section>, beatBase: Durations.Duration): real
    requires SectionsMeasured(sections)
  {
    if sections == [] then 0.0
    else
      var n := |sections| - 1;
      BeatsOf(sections[..n], beatBase) + Sec.SectionBeats(sections[n], beatBase)
  }

  /** The beats of two runs of sections add up. */
  lemma {:induction false} BeatsOfAppend(a: seq<Sec.Section>, b: seq<Sec.Section>, beatBase: Durations.Duration)
    requires SectionsMeasured(a) && SectionsMeasured(b)
    ensures SectionsMeasured(a + b)
    ensures BeatsOf(a + b, beatBase) == BeatsOf(a, beatBase) + BeatsOf(b, beatBase)
    decreases |b|
  {
    if b != [] {
      var n := |b| - 1;
      assert (a + b)[..|a| + n] == a + b[..n] && (a + b)[|a| + n] == b[n];
      BeatsOfAppend(a, b[..n], beatBase);
    } else {
      assert a + b == a;
    }
  }

  /** The `flat_map` of the sections' staff names, recursing into every
      sub-section. */
  function NamesOf(sections: seq<Sec.Section>): (r: seq<string>)
    ensures forall x :: x in r <==> exists i :: 0 <= i < |sections| && Sec.HasStaffNamed(sections[i].content, x, true)
  {
    if sections == [] then []
    else
      var n := |sections| - 1;
      assert forall i :: 0 <= i < n ==> sections[..n][i] == sections[i];
      NamesOf(sections[..n]) + Sec.StaffNames(sections[n], true)
  }

  /** Every section of the part and every section below them, each before
      its own sub-sections, in order. */
  function SectionsIn(sections: seq<Sec.Section>): seq<Sec.Section> {
    if sections == [] then [] else Sec.AllSections(sections[0]) + SectionsIn(sections[1..])
  }

  /** The `find_map` of `Section::get_section` over the sections: the first
      section with the id, searched depth first. */
  function FindSection(sections: seq<Sec.Section>, id: nat): (r: Option<Sec.Section>)
    ensures r == Sec.FirstWithId(SectionsIn(sections), id)
  {
    if sections == [] then Option.None
    else
      Sec.FirstWithIdAppend(Sec.AllSections(sections[0]), SectionsIn(sections[1..]), id);
      var here := Sec.GetSection(sections[0], id);
      if here.Some? then here else FindSection(sections[1..], id)
  }

  /** The `flat_map` of the sections' timeslices: each section's in turn. */
  function SlicesOf(sections: seq<Sec.Section>, place: Sec.Place): seq<T.Timeslice>
    requires SectionsWellFormed(sections)
  {
    if sections == [] then []
    else
      var n := |sections| - 1;
      SlicesOf(sections[..n], place) + Sec.SectionSlices(sections[n], place)
  }

  /** The `sum` of the sections' slice counts. */
  function CountOf(sections: seq<Sec.Section>, place: Sec.Place): nat
    requires SectionsWellFormed(sections)
  {
    if sections == [] then 0
    else
      var n := |sections| - 1;
      CountOf(sections[..n], place) + Sec.NumTimeslices(sections[n], place)
  }

  /** Counting the slices section by section counts what playing the part
      hands out. */
  lemma {:induction false} CountIsLength(sections: seq<Sec.Section>, place: Sec.Place)
    requires SectionsWellFormed(sections)
    ensures CountOf(sections, place) == |SlicesOf(sections, place)|
  {
    if sections != [] {
      CountIsLength(sections[..|sections| - 1], place);
    }
  }

  /** The test that keeps every section with another id. */
  function OtherSectionId(id: nat): Sec.Section -> bool {
    (s: Sec.Section) => s.id != id
  }

  /** The `retain` of the sections without the id, then `remove_item` in
      each one kept: the sections kept are those with another id, in
      order, each its own `Section::remove_item`. */
  function RemoveItemFrom(sections: seq<Sec.Section>, id: nat): (r: seq<Sec.Section>)
    ensures SectionIds(r) == Ph.Without(SectionIds(sections), id)
    ensures forall i :: 0 <= i < |r| ==> r[i].id != id && Sec.ContentFree(r[i].content, id)
    ensures var kept := ModSets.Filter(sections, OtherSectionId(id));
      |r| == |kept| && forall i :: 0 <= i < |kept| ==> r[i] == Sec.RemoveItem(kept[i], id)
  {
    if sections == [] then []
    else
      var n := |sections| - 1;
      var before := RemoveItemFrom(sections[..n], id);
      RemovedSectionsSnoc(sections, id, before);
      RemovedSectionsKept(sections, id, before);
      if sections[n].id == id then before else before + [Sec.RemoveItem(sections[n], id)]
  }

  /** One more section: kept and edited when its id differs, dropped
      otherwise; the ids left and their absence below follow. */
  lemma {:induction false} RemovedSectionsSnoc(sections: seq<Sec.Section>, id: nat, before: seq<Sec.Section>)
    requires sections != []
    requires SectionIds(before) == Ph.Without(SectionIds(sections[..|sections| - 1]), id)
    requires forall i :: 0 <= i < |before| ==> before[i].id != id && Sec.ContentFree(before[i].content, id)
    ensures var s := sections[|sections| - 1];
      var r := if s.id == id then before else before + [Sec.RemoveItem(s, id)];
      SectionIds(r) == Ph.Without(SectionIds(sections), id) &&
      forall i :: 0 <= i < |r| ==> r[i].id != id && Sec.ContentFree(r[i].content, id)
  {
    var n := |sections| - 1;
    assert SectionIds(sections)[..n] == SectionIds(sections[..n]);
    if sections[n].id != id {
      var last := Sec.RemoveItem(sections[n], id);
      assert SectionIds(before + [last]) == SectionIds(before) + [last.id];
      forall i | 0 <= i < |before| + 1
        ensures (before + [last])[i].id != id && Sec.ContentFree((before + [last])[i].content, id)
      {
        if i < |before| {
          assert (before + [last])[i] == before[i];
        }
      }
    }
  }

  /** The per-section half of `RemovedSectionsSnoc`: the kept sections line
      up with their edited copies. */
  lemma {:induction false} RemovedSectionsKept(sections: seq<Sec.Section>, id: nat, before: seq<Sec.Section>)
    requires sections != []
    requires var kept := ModSets.Filter(sections[..|sections| - 1], OtherSectionId(id));
      |before| == |kept| && forall i :: 0 <= i < |kept| ==> before[i] == Sec.RemoveItem(kept[i], id)
    ensures var kept := ModSets.Filter(sections, OtherSectionId(id));
      var s := sections[|sections| - 1];
      var r := if s.id == id then before else before + [Sec.RemoveItem(s, id)];
      |r| == |kept| && forall i :: 0 <= i < |kept| ==> r[i] == Sec.RemoveItem(kept[i], id)
  {
    var n := |sections| - 1;
    var keep := OtherSectionId(id);
    var keptBefore := ModSets.Filter(sections[..n], keep);
    ModSets.FilterSnoc(sections[..n], sections[n], keep);
    assert sections[..n] + [sections[n]] == sections;
    if sections[n].id != id {
      var last := Sec.RemoveItem(sections[n], id);
      assert ModSets.Filter(sections, keep) == keptBefore + [sections[n]];
      forall i | 0 <= i < |keptBefore| + 1
        ensures (before + [last])[i] == Sec.RemoveItem((keptBefore + [sections[n]])[i], id)
      {
        if i < |keptBefore| {
          assert (before + [last])[i] == before[i];
          assert (keptBefore + [sections[n]])[i] == keptBefore[i];
        }
      }
    }
  }

  /** Removing an id from sections where it occurs nowhere changes
      nothing. */
  lemma {:induction false} RemoveAbsentFrom(sections: seq<Sec.Section>, id: nat)
    requires forall i :: 0 <= i < |sections| ==> sections[i].id != id && Sec.ContentFree(sections[i].content, id)
    ensures RemoveItemFrom(sections, id) == sections
  {
    var r := RemoveItemFrom(sections, id);
    var keep := OtherSectionId(id);
    assert ModSets.Filter(sections, keep) == sections by {
      forall x | x in sections ensures keep(x) {
        var i :| 0 <= i < |sections| && sections[i] == x;
      }
      ModSets.FilterAllKept(sections, keep);
    }
    forall i | 0 <= i < |sections| ensures r[i] == sections[i] {
      assert r[i] == Sec.RemoveItem(sections[i], id);
      Sec.RemoveAbsentItem(sections[i], id);
    }
  }

  /** Removing an id twice is removing it once. */
  lemma {:induction false} RemoveItemFromIdempotent(sections: seq<Sec.Section>, id: nat)
    ensures RemoveItemFrom(RemoveItemFrom(sections, id), id) == RemoveItemFrom(sections, id)
  {
    RemoveAbsentFrom(RemoveItemFrom(sections, id), id);
  }

  /** Equal sections position by position (`Vec` equality over
      `PartialEq for Section`). */
  predicate SameSections(a: seq<Sec.Section>, b: seq<Sec.Section>) {
    |a| == |b| && forall i :: 0 <= i < |a| ==> Sec.SameSection(a[i], b[i])
  }

  lemma {:induction false} SameSectionsReflexive(sections: seq<Sec.Section>)
    ensures SameSections(sections, sections)
  {
    forall i | 0 <= i < |sections| ensures Sec.SameSection(sections[i], sections[i]) {
      Sec.SameSectionReflexive(sections[i]);
    }
  }

  /** The sections of the part extracted for one staff: each section
      cloned with that staff alone. */
  predicate ExtractedFor(extracted: seq<Sec.Section>, sections: seq<Sec.Section>, staffName: string, filler: Sec.Filler) {
    |extracted| == |sections|
    && forall l :: 0 <= l < |sections| ==> extracted[l] == Sec.SingleStaff(sections[l], staffName, filler)
  }

  // ---------------------------------------------------------------------
  // The part

  class Part {
    const id: nat
    var name: string
    var content: seq<Sec.Section>

    /** `Part::new`: the name and no sections. */
    constructor (name: string, freshId: nat)
      ensures this.id == freshId && this.name == name && this.content == []
    {
      this.id := freshId;
      this.name := name;
      this.content := [];
    }

    /** `Part::rename`. */
    method Rename(name: string)
      modifies this
      ensures this.name == name && content == old(content)
    {
      this.name := name;
    }

    /** `Part::add_section`: a new empty section goes last, even when one
      of that name is there already; the new section is handed back. */
    method AddSection(name: string, freshId: nat) returns (section: Sec.Section)
      modifies this
      ensures section == Sec.NewSection(name, freshId)
      ensures content == old(content) + [section] && this.name == old(this.name)
    {
      section := Sec.NewSection(name, freshId);
      content := content + [section];
    }

    /** `Part::claim_section` (and `Part::claim`, whose only content kind
      is a section): the section goes last. */
    method ClaimSection(section: Sec.Section)
      modifies this
      ensures content == old(content) + [section] && name == old(name)
    {
      content := content + [section];
    }

    /** `Part::get_staff_names`: the names of every staff in every
      section, at any depth, sorted and without repeats. */
    function StaffNames(): (r: seq<string>)
      reads this
      ensures StringSets.Increasing(r)
      ensures forall x :: x in r <==> exists i :: 0 <= i < |content| && Sec.HasStaffNamed(content[i].content, x, true)
    {
      StringSets.SortedSet(NamesOf(content))
    }

    /** `Part::get_section`: the first section with the id, at any depth,
      in the order the sections are searched. */
    function GetSection(id: nat): (r: Option<Sec.Section>)
      reads this
      ensures r.Some? ==> r.value.id == id
      ensures r.None? <==> forall k :: 0 <= k < |SectionsIn(content)| ==> SectionsIn(content)[k].id != id
      ensures r == Sec.FirstWithId(SectionsIn(content), id)
    {
      FindSection(content, id)
    }

    /** `Part::get_beats`: the beats of the sections added up. */
    function Beats(beatBase: Durations.Duration): real
      reads this
      requires SectionsMeasured(content)
    {
      BeatsOf(content, beatBase)
    }

    /** `Part::get_duration`: the beats at the tempo's base note, in
      seconds at the tempo's speed; none at 0 bpm, where the source
      divides by zero. */
    function Duration(tempo: Tempos.Tempo): (r: Option<real>)
      reads this
      requires SectionsMeasured(content)
      ensures Tempos.Lasts(r, Beats(tempo.baseNote), tempo.beatsPerMinute)
    {
      Tempos.Seconds(Beats(tempo.baseNote), tempo.beatsPerMinute)
    }

    /** `Part::remove_section`: the top-level sections with the id go, the
      others keep their order; nothing inside them changes. */
    method RemoveSection(id: nat)
      modifies this
      ensures content == ModSets.Filter(old(content), (s: Sec.Section) => s.id != id)
      ensures forall s :: s in content <==> s in old(content) && s.id != id
      ensures name == old(name)
    {
      content := ModSets.Filter(content, (s: Sec.Section) => s.id != id);
    }

    /** `Part::remove_item`: the sections with the id go, then the id is
      removed inside every section kept. */
    method RemoveItem(id: nat)
      modifies this
      ensures content == RemoveItemFrom(old(content), id)
      ensures name == old(name)
    {
      content := RemoveItemFrom(content, id);
    }

    /** `Part::remove_modification`: every section drops its own
      modifications with the id. */
    method RemoveModification(id: nat)
      modifies this
      ensures |content| == |old(content)|
      ensures forall i :: 0 <= i < |content| ==> content[i] == Sec.RemoveModification(old(content)[i], id)
      ensures name == old(name)
    {
      var sections := content;
      content := seq(|sections|, i requires 0 <= i < |sections| => Sec.RemoveModification(sections[i], id));
    }

    /** `Part::num_timeslices`: the sections' slice counts added up, which
      is how many slices the part hands out (`CountIsLength`). */
    function NumTimeslices(place: Sec.Place): (r: nat)
      reads this
      requires SectionsWellFormed(content)
      ensures r == |SlicesOf(content, place)|
    {
      CountIsLength(content, place);
      CountOf(content, place)
    }

    /** `Part::iter_timeslices`: each section's timeslices in turn. */
    method IterTimeslices(place: Sec.Place) returns (out: seq<T.Timeslice>)
      requires SectionsWellFormed(content)
      ensures out == SlicesOf(content, place)
    {
      out := [];
      var j := 0;
      while j < |content|
        invariant 0 <= j <= |content|
        invariant out == SlicesOf(content[..j], place)
      {
        assert content[..j + 1][..j] == content[..j];
        var slices := Sec.IterTimeslices(content[j], place);
        out := out + slices;
        j := j + 1;
      }
      assert content[..|content|] == content;
    }

    /** `PartialEq for Part`: the same sections and the same name; the id
      is not compared. */
    predicate Same(other: Part)
      reads this, other
    {
      SameSections(content, other.content) && name == other.name
    }

    /** `Clone for Part`: an equal part under a fresh id. */
    method Clone(freshId: nat) returns (p: Part)
      ensures fresh(p) && p.id == freshId
      ensures p.name == name && p.content == content && p.Same(this)
    {
      p := new Part(name, freshId);
      p.content := content;
      SameSectionsReflexive(content);
    }

    /** `Part::extract_staves_as_parts`: one new part per staff name, in
      name order, called "<part>_<staff>", holding each section of this
      part cloned with that staff alone. */
    method ExtractStavesAsParts(partIds: string -> nat, filler: Sec.Filler) returns (parts: seq<Part>)
      ensures |parts| == |StaffNames()|
      ensures forall k :: 0 <= k < |parts| ==> fresh(parts[k])
      ensures forall k :: 0 <= k < |parts| ==>
                parts[k].id == partIds(StaffNames()[k]) && parts[k].name == name + "_" + StaffNames()[k]
      ensures forall k :: 0 <= k < |parts| ==> ExtractedFor(parts[k].content, content, StaffNames()[k], filler)
    {
      var names := StaffNames();
      parts := NewParts(name, names, partIds);
      var j := 0;
      while j < |content|
        invariant 0 <= j <= |content|
        invariant forall i :: 0 <= i < |parts| ==> fresh(parts[i])
        invariant forall i, j :: 0 <= i < j < |parts| ==> parts[i] != parts[j]
        invariant forall i :: 0 <= i < |parts| ==> parts[i].id == partIds(names[i]) && parts[i].name == name + "_" + names[i]
        invariant forall i :: 0 <= i < |parts| ==> ExtractedFor(parts[i].content, content[..j], names[i], filler)
      {
        PushSection(parts, content[..j], content[j], names, filler);
        assert content[..j] + [content[j]] == content[..j + 1];
        j := j + 1;
      }
      assert content[..|content|] == content;
    }
  }

  /** The first loop of `extract_staves_as_parts`: one new, empty part
      per staff name, called "<part>_<staff>". */
  method NewParts(partName: string, names: seq<string>, partIds: string -> nat) returns (parts: seq<Part>)
    ensures |parts| == |names|
    ensures forall i :: 0 <= i < |parts| ==> fresh(parts[i])
    ensures forall i, j :: 0 <= i < j < |parts| ==> parts[i] != parts[j]
    ensures forall i :: 0 <= i < |parts| ==> parts[i].id == partIds(names[i]) && parts[i].name == partName + "_" + names[i]
    ensures forall i :: 0 <= i < |parts| ==> parts[i].content == []
  {
    parts := [];
    var k := 0;
    while k < |names|
      invariant 0 <= k <= |names| && |parts| == k
      invariant forall i :: 0 <= i < k ==> fresh(parts[i])
      invariant forall i, j :: 0 <= i < j < k ==> parts[i] != parts[j]
      invariant forall i :: 0 <= i < k ==> parts[i].id == partIds(names[i]) && parts[i].name == partName + "_" + names[i]
      invariant forall i :: 0 <= i < k ==> parts[i].content == []
    {
      var part := new Part(partName + "_" + names[k], partIds(names[k]));
      parts := parts + [part];
      k := k + 1;
    }
  }

  /** The inner loop of `extract_staves_as_parts`: every extracted part
      gets the next section, cloned with its own staff alone. */
  method PushSection(parts: seq<Part>, done: seq<Sec.Section>, section: Sec.Section, names: seq<string>, filler: Sec.Filler)
    requires |parts| == |names|
    requires forall i, j :: 0 <= i < j < |parts| ==> parts[i] != parts[j]
    requires forall i :: 0 <= i < |parts| ==> ExtractedFor(parts[i].content, done, names[i], filler)
    modifies set i | 0 <= i < |parts| :: parts[i]
    ensures forall i :: 0 <= i < |parts| ==> parts[i].name == old(parts[i].name)
    ensures forall i :: 0 <= i < |parts| ==> ExtractedFor(parts[i].content, done + [section], names[i], filler)
  {
    var m := 0;
    while m < |parts|
      invariant 0 <= m <= |parts|
      invariant forall i :: 0 <= i < |parts| ==> parts[i].name == old(parts[i].name)
      invariant forall i :: 0 <= i < m ==> ExtractedFor(parts[i].content, done + [section], names[i], filler)
      invariant forall i :: m <= i < |parts| ==> parts[i].content == old(parts[i].content)
    {
      parts[m].content := parts[m].content + [Sec.SingleStaff(section, names[m], filler)];
      m := m + 1;
    }
  }
}

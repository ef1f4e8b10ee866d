/** Sections: a named run of staves and nested sections played one after
    the other, with section-wide modifications (repeats, the iterations a
    sub-section plays on, tempo changes). Staves that follow each other
    directly sound together; a sub-section breaks the run. */
module Sections {
  import opened Wrappers
  import opened Ints
  import opened Durations
  import Tempos
  import TempoSuggestions
  import SM = SectionModifications
  import St = Staves
  import T = Timeslices
  import Ph = Phrases
  import ModSets
  import StringSets

  datatype SectionContent =
    | StaffItem(staff: St.Staff)
    | SubSection(section: Section)

  datatype Section = Section(id: nat, name: string, content: seq<SectionContent>,
                             modifications: seq<SM.SectionModification>)

  /** The id of a staff or sub-section. */
  function ContentId(c: SectionContent): nat {
    match c
    case StaffItem(st) => st.id
    case SubSection(sub) => sub.id
  }

  /** The ids of the direct content, in order. */
  function ContentIds(content: seq<SectionContent>): (r: seq<nat>)
    ensures |r| == |content|
    ensures forall i :: 0 <= i < |content| ==> r[i] == ContentId(content[i])
  {
    seq(|content|, i requires 0 <= i < |content| => ContentId(content[i]))
  }

  /** Every staff below the section is well formed. */
  ghost predicate WellFormed(s: Section)
    decreases s, 2
  {
    ContentWellFormed(s.content)
  }

  ghost predicate ContentWellFormed(content: seq<SectionContent>)
    decreases content, 1
  {
    forall i :: 0 <= i < |content| ==> ItemWellFormed(content[i])
  }

  ghost predicate ItemWellFormed(c: SectionContent)
    decreases c, 0
  {
    match c
    case StaffItem(st) => St.WellFormed(st)
    case SubSection(sub) => WellFormed(sub)
  }

  /** Every staff below the section has a number of beats. */
  predicate Measured(s: Section)
    decreases s, 2
  {
    ContentMeasured(s.content)
  }

  predicate ContentMeasured(content: seq<SectionContent>)
    decreases content, 1
  {
    forall i :: 0 <= i < |content| ==> ItemMeasured(content[i])
  }

  predicate ItemMeasured(c: SectionContent)
    decreases c, 0
  {
    match c
    case StaffItem(st) => St.Measured(st)
    case SubSection(sub) => Measured(sub)
  }

  // ---------------------------------------------------------------------
  // Construction

  /** `Section::new`: the name, no content and no modifications. */
  function NewSection(name: string, freshId: nat): (s: Section)
    ensures s.id == freshId && s.name == name && s.content == [] && s.modifications == []
    ensures TotalIterations(s) == 1 && PlayableIterations(s) == [] && SectionTempo(s).None?
  {
    Section(freshId, name, [], [])
  }

  /** Whether an item is a direct staff called `name`. */
  predicate IsStaffNamed(c: SectionContent, name: string) {
    c.StaffItem? && c.staff.name == name
  }

  /** The test that keeps every item but a direct staff called `name`. */
  function NotStaffNamed(name: string): SectionContent -> bool {
    (c: SectionContent) => !IsStaffNamed(c, name)
  }

  /** The test that keeps every modification of another type. */
  function OtherKind(kind: SM.SectionModificationType): SM.SectionModification -> bool {
    (m: SM.SectionModification) => m.kind != kind
  }

  /** `Section::claim_staff`: any direct staff with the same name goes,
      the rest keep their place, and the staff comes last. */
  function ClaimStaff(s: Section, staff: St.Staff): (r: Section)
    ensures r.id == s.id && r.name == s.name && r.modifications == s.modifications
    ensures |r.content| > 0 && r.content[|r.content| - 1] == StaffItem(staff)
    ensures forall i :: 0 <= i < |r.content| - 1 ==> !IsStaffNamed(r.content[i], staff.name)
    ensures forall c :: c in r.content[..|r.content| - 1] <==> c in s.content && !IsStaffNamed(c, staff.name)
    ensures r.content == ModSets.Filter(s.content, NotStaffNamed(staff.name)) + [StaffItem(staff)]
  {
    var kept := ModSets.Filter(s.content, NotStaffNamed(staff.name));
    var content := kept + [StaffItem(staff)];
    assert content[..|content| - 1] == kept;
    assert forall i :: 0 <= i < |kept| ==> kept[i] in kept;
    s.(content := content)
  }

  /** `Section::add_staff`: claims a new empty staff of that name. */
  function AddStaff(s: Section, name: string, freshId: nat): (r: Section)
    ensures r.id == s.id && r.name == s.name && r.modifications == s.modifications
    ensures |r.content| > 0 && r.content[|r.content| - 1] == StaffItem(St.NewStaff(name, freshId))
    ensures forall i :: 0 <= i < |r.content| - 1 ==> !IsStaffNamed(r.content[i], name)
    ensures forall c :: c in r.content[..|r.content| - 1] <==> c in s.content && !IsStaffNamed(c, name)
    ensures r.content == ModSets.Filter(s.content, NotStaffNamed(name)) + [StaffItem(St.NewStaff(name, freshId))]
  {
    ClaimStaff(s, St.NewStaff(name, freshId))
  }

  /** `Section::claim_section`: the section comes last; nothing is removed. */
  function ClaimSection(s: Section, sub: Section): (r: Section)
    ensures r.id == s.id && r.name == s.name && r.modifications == s.modifications
    ensures |r.content| == |s.content| + 1 && r.content[..|s.content|] == s.content
    ensures r.content[|s.content|] == SubSection(sub)
  {
    s.(content := s.content + [SubSection(sub)])
  }

  /** `Section::add_section`: claims a new empty section of that name,
      even when one of that name is there already. */
  function AddSection(s: Section, name: string, freshId: nat): (r: Section)
    ensures r.id == s.id && r.name == s.name && r.modifications == s.modifications
    ensures |r.content| == |s.content| + 1 && r.content[..|s.content|] == s.content
    ensures r.content[|s.content|] == SubSection(NewSection(name, freshId))
  {
    ClaimSection(s, NewSection(name, freshId))
  }

  /** `Section::add_modification`: modifications equal to the new type
      (parameters included) go, and the new one comes last. */
  function AddModification(s: Section, kind: SM.SectionModificationType, freshId: nat): (r: Section)
    ensures r.id == s.id && r.name == s.name && r.content == s.content
    ensures |r.modifications| > 0
    ensures r.modifications[|r.modifications| - 1] == SM.NewSectionModification(kind, freshId)
    ensures forall i :: 0 <= i < |r.modifications| - 1 ==> r.modifications[i].kind != kind
    ensures forall m :: m in r.modifications[..|r.modifications| - 1] <==> m in s.modifications && m.kind != kind
    ensures r.modifications == ModSets.Filter(s.modifications, OtherKind(kind)) + [SM.NewSectionModification(kind, freshId)]
  {
    var kept := ModSets.Filter(s.modifications, OtherKind(kind));
    var mods := kept + [SM.NewSectionModification(kind, freshId)];
    assert mods[..|mods| - 1] == kept;
    assert forall i :: 0 <= i < |kept| ==> kept[i] in kept;
    s.(modifications := mods)
  }

  /** `Section::rename`. */
  function Rename(s: Section, name: string): (r: Section)
    ensures r.name == name && r.id == s.id && r.content == s.content && r.modifications == s.modifications
  {
    s.(name := name)
  }

  // ---------------------------------------------------------------------
  // Finding modifications

  /** `find_map` over the modifications: what `f` makes of the first type
      it accepts, or nothing when it accepts none (see `FindMapFirst` and
      `FindMapNone`). */
  function FindMap<R>(mods: seq<SM.SectionModification>, f: SM.SectionModificationType -> Option<R>): Option<R>
    decreases |mods|
  {
    if mods == [] then Option.None
    else if f(mods[0].kind).Some? then f(mods[0].kind)
    else FindMap(mods[1..], f)
  }

  /** Index `i` is the first whose type `f` accepts. */
  ghost predicate FirstHit<R>(mods: seq<SM.SectionModification>, f: SM.SectionModificationType -> Option<R>, i: nat) {
    i < |mods| && f(mods[i].kind).Some? && forall j :: 0 <= j < i ==> f(mods[j].kind).None?
  }

  lemma {:induction false} FindMapFirst<R>(mods: seq<SM.SectionModification>, f: SM.SectionModificationType -> Option<R>, i: nat)
    requires FirstHit(mods, f, i)
    ensures FindMap(mods, f) == f(mods[i].kind)
    decreases i
  {
    if i > 0 {
      assert f(mods[0].kind).None?;
      assert FirstHit(mods[1..], f, i - 1) by {
        forall j | 0 <= j < i - 1 ensures f(mods[1..][j].kind).None? {
          assert mods[1..][j] == mods[j + 1];
        }
      }
      FindMapFirst(mods[1..], f, i - 1);
    }
  }

  lemma {:induction false} FindMapNone<R>(mods: seq<SM.SectionModification>, f: SM.SectionModificationType -> Option<R>)
    ensures FindMap(mods, f).None? <==> forall i :: 0 <= i < |mods| ==> f(mods[i].kind).None?
    decreases |mods|
  {
    if mods != [] {
      FindMapNone(mods[1..], f);
      assert forall i :: 1 <= i < |mods| ==> mods[1..][i - 1] == mods[i];
    }
  }

  function RepeatCount(t: SM.SectionModificationType): Option<U8> {
    if t.Repeat? then Some(t.numTimes) else Option.None
  }

  function PlayList(t: SM.SectionModificationType): Option<seq<U8>> {
    if t.OnlyPlay? then Some(t.iterations) else Option.None
  }

  /** The tempo a tempo modification sets: an explicit tempo as given, an
      implicit one as a quarter note at the suggestion's typical speed. */
  function TempoOf(t: SM.SectionModificationType): (r: Option<Tempos.Tempo>)
    ensures t.TempoExplicit? ==> r == Some(t.tempo)
    ensures t.TempoImplicit? ==> (r.Some? && r.value.baseNote == Duration(Quarter, 0)
                                  && r.value.beatsPerMinute == TempoSuggestions.SuggestedBpm(t.suggestion))
    ensures r.None? <==> !t.TempoExplicit? && !t.TempoImplicit?
  {
    match t
    case TempoExplicit(tempo) => Some(tempo)
    case TempoImplicit(suggestion) =>
      Some(Tempos.NewTempo(Duration(Quarter, 0), TempoSuggestions.SuggestedBpm(suggestion)))
    case _ => Option.None
  }

  /** `Section::get_total_iterations`: the count of the first `Repeat`, or
      1 when there is none. */
  function TotalIterations(s: Section): U8 {
    FindMap(s.modifications, RepeatCount).UnwrapOr(1)
  }

  /** `Section::get_playable_iterations`: the list of the first
      `OnlyPlay`, or an empty list when there is none. */
  function PlayableIterations(s: Section): seq<U8> {
    FindMap(s.modifications, PlayList).UnwrapOr([])
  }

  /** `Section::get_section_tempo`: the tempo of the first explicit or
      implicit tempo modification, if any. */
  function SectionTempo(s: Section): Option<Tempos.Tempo> {
    FindMap(s.modifications, TempoOf)
  }

  lemma {:induction false} TotalIterationsFirstRepeat(s: Section, i: nat)
    requires i < |s.modifications| && s.modifications[i].kind.Repeat?
    requires forall j :: 0 <= j < i ==> !s.modifications[j].kind.Repeat?
    ensures TotalIterations(s) == s.modifications[i].kind.numTimes
  {
    FindMapFirst(s.modifications, RepeatCount, i);
  }

  lemma {:induction false} TotalIterationsWithoutRepeat(s: Section)
    requires forall i :: 0 <= i < |s.modifications| ==> !s.modifications[i].kind.Repeat?
    ensures TotalIterations(s) == 1
  {
    FindMapNone(s.modifications, RepeatCount);
  }

  lemma {:induction false} PlayableIterationsFirstOnlyPlay(s: Section, i: nat)
    requires i < |s.modifications| && s.modifications[i].kind.OnlyPlay?
    requires forall j :: 0 <= j < i ==> !s.modifications[j].kind.OnlyPlay?
    ensures PlayableIterations(s) == s.modifications[i].kind.iterations
  {
    FindMapFirst(s.modifications, PlayList, i);
  }

  lemma {:induction false} PlayableIterationsWithoutOnlyPlay(s: Section)
    requires forall i :: 0 <= i < |s.modifications| ==> !s.modifications[i].kind.OnlyPlay?
    ensures PlayableIterations(s) == []
  {
    FindMapNone(s.modifications, PlayList);
  }

  /** The first tempo modification decides the section's tempo. */
  lemma {:induction false} SectionTempoFirst(s: Section, i: nat)
    requires i < |s.modifications|
    requires s.modifications[i].kind.TempoExplicit? || s.modifications[i].kind.TempoImplicit?
    requires forall j :: 0 <= j < i ==>
               !s.modifications[j].kind.TempoExplicit? && !s.modifications[j].kind.TempoImplicit?
    ensures SectionTempo(s) == TempoOf(s.modifications[i].kind)
  {
    FindMapFirst(s.modifications, TempoOf, i);
  }

  lemma {:induction false} SectionTempoNone(s: Section)
    ensures SectionTempo(s).None? <==> forall i :: 0 <= i < |s.modifications| ==>
      !s.modifications[i].kind.TempoExplicit? && !s.modifications[i].kind.TempoImplicit?
  {
    FindMapNone(s.modifications, TempoOf);
  }

  /** A repeat added to a section without one sets the number of
      iterations. */
  lemma {:induction false} AddRepeatSetsIterations(s: Section, n: U8, freshId: nat)
    requires forall i :: 0 <= i < |s.modifications| ==> !s.modifications[i].kind.Repeat?
    ensures TotalIterations(AddModification(s, SM.Repeat(n), freshId)) == n
  {
    var r := AddModification(s, SM.Repeat(n), freshId);
    var k := |r.modifications| - 1;
    forall j | 0 <= j < k ensures !r.modifications[j].kind.Repeat? {
      assert r.modifications[j] in r.modifications[..k];
    }
    TotalIterationsFirstRepeat(r, k);
  }

  /** `add_modification` removes only equal types: adding `Repeat(n)` to a
      section that repeats `m != n` times keeps the old repeat in front, so
      the number of iterations stays `m`. */
  lemma {:induction false} AddRepeatKeepsEarlierRepeat(s: Section, m: U8, n: U8, oldId: nat, freshId: nat)
    requires s.modifications == [SM.SectionModification(oldId, SM.Repeat(m))] && m != n
    ensures TotalIterations(AddModification(s, SM.Repeat(n), freshId)) == m
  {
    var r := AddModification(s, SM.Repeat(n), freshId);
    assert s.modifications[0] in r.modifications[..|r.modifications| - 1];
    TotalIterationsFirstRepeat(r, 0);
  }

  // ---------------------------------------------------------------------
  // Beats and duration

  /** The note a section counts beats in: its own tempo's base note, or
      the one it is given. */
  function SectionBase(s: Section, beatBase: Duration): Duration {
    match SectionTempo(s)
    case Some(tempo) => tempo.baseNote
    case None => beatBase
  }

  /** `x` added up `k` times: beats times a whole number of iterations. */
  function Scale(x: real, k: nat): real {
    if k == 0 then 0.0 else Scale(x, k - 1) + x
  }

  /** `Scale` is the product of the beats and the count. */
  lemma {:induction false} ScaleIsProduct(x: real, k: nat)
    ensures Scale(x, k) == x * (k as real)
  {
    if k > 0 {
      ScaleIsProduct(x, k - 1);
    }
  }

  /** `Section::get_beats`: each run of directly following staves counts
      the beats of its first staff (the staves of a run sound together)
      times the section's iterations, and each sub-section counts its own
      beats times the number of iterations it plays on, or the section's
      iterations when it names none. */
  function SectionBeats(s: Section, beatBase: Duration): real
    requires Measured(s)
    decreases s, 3
  {
    SumTo(s.content, |s.content|, SectionBase(s, beatBase), TotalIterations(s) as nat)
  }

  /** The beats of the first `n` items. */
  function SumTo(content: seq<SectionContent>, n: nat, base: Duration, repeats: nat): real
    requires n <= |content| && ContentMeasured(content)
    decreases content, 2, n
  {
    if n == 0 then 0.0
    else SumTo(content, n - 1, base, repeats) + Contribution(content, n - 1, base, repeats)
  }

  /** What item `i` adds: a staff only when it opens a run. */
  function Contribution(content: seq<SectionContent>, i: nat, base: Duration, repeats: nat): real
    requires i < |content| && ContentMeasured(content)
    decreases content, 1
  {
    assert ItemMeasured(content[i]);
    match content[i]
    case StaffItem(st) =>
      if i == 0 || content[i - 1].SubSection? then Scale(St.StaffBeats(st, base), repeats) else 0.0
    case SubSection(_) => SubSectionBeats(content[i], base, repeats)
  }

  /** A sub-section's beats times the iterations it plays on. */
  function SubSectionBeats(c: SectionContent, base: Duration, repeats: nat): real
    requires c.SubSection? && ItemMeasured(c)
    decreases c, 0
  {
    Scale(SectionBeats(c.section, base), Iterations(c.section, repeats))
  }

  /** How many times a sub-section plays: as many iterations as it names,
      or all of them when it names none. */
  function Iterations(sub: Section, repeats: nat): (r: nat)
    ensures |PlayableIterations(sub)| == 0 ==> r == repeats
    ensures |PlayableIterations(sub)| > 0 ==> r == |PlayableIterations(sub)|
  {
    var count := |PlayableIterations(sub)|;
    if count == 0 then repeats else count
  }

  /** The `for` loop of `get_beats`, with its running sum and its
      `staff_found` flag. */
  method GetBeats(s: Section, beatBase: Duration) returns (beats: real)
    requires Measured(s)
    ensures beats == SectionBeats(s, beatBase)
    decreases s
  {
    var base := SectionBase(s, beatBase);
    var numRepeats := TotalIterations(s) as nat;
    var staffFound := false;
    beats := 0.0;
    var i := 0;
    while i < |s.content|
      invariant 0 <= i <= |s.content|
      invariant beats == SumTo(s.content, i, base, numRepeats)
      invariant staffFound == (i > 0 && s.content[i - 1].StaffItem?)
      decreases |s.content| - i
    {
      assert ItemMeasured(s.content[i]);
      assert SumTo(s.content, i + 1, base, numRepeats)
        == SumTo(s.content, i, base, numRepeats) + Contribution(s.content, i, base, numRepeats);
      match s.content[i] {
      case StaffItem(st) =>
        if !staffFound {
          beats := beats + Scale(St.StaffBeats(st, base), numRepeats);
          staffFound := true;
        }
      case SubSection(sub) =>
        var numIterations := Iterations(sub, numRepeats);
        var subBeats := GetBeats(sub, base);
        beats := beats + Scale(subBeats, numIterations);
        staffFound := false;
      }
      i := i + 1;
    }
  }

  /** Sums over items that contribute the same are the same. */
  lemma {:induction false} SumToPointwise(a: seq<SectionContent>, b: seq<SectionContent>, n: nat, base: Duration, repeats: nat)
    requires n <= |a| && n <= |b| && ContentMeasured(a) && ContentMeasured(b)
    requires forall j :: 0 <= j < n ==> Contribution(a, j, base, repeats) == Contribution(b, j, base, repeats)
    ensures SumTo(a, n, base, repeats) == SumTo(b, n, base, repeats)
  {
    if n > 0 {
      SumToPointwise(a, b, n - 1, base, repeats);
    }
  }

  /** Only the first staff of a run counts: any staff after another staff
      can be replaced without changing the beats. */
  lemma {:induction false} FollowingStaffIgnored(s: Section, i: nat, other: St.Staff, beatBase: Duration)
    requires Measured(s) && St.Measured(other)
    requires 0 < i < |s.content| && s.content[i - 1].StaffItem? && s.content[i].StaffItem?
    ensures Measured(s.(content := s.content[i := StaffItem(other)]))
    ensures SectionBeats(s.(content := s.content[i := StaffItem(other)]), beatBase) == SectionBeats(s, beatBase)
  {
    var t := s.(content := s.content[i := StaffItem(other)]);
    assert ItemMeasured(StaffItem(other));
    assert Measured(t);
    var base := SectionBase(s, beatBase);
    var repeats := TotalIterations(s) as nat;
    forall j | 0 <= j < |s.content|
      ensures Contribution(s.content, j, base, repeats) == Contribution(t.content, j, base, repeats)
    {
    }
    SumToPointwise(s.content, t.content, |s.content|, base, repeats);
  }

  /** A section of staves only plays its first staff's beats once per
      iteration (`Scale` is that product, by `ScaleIsProduct`). */
  lemma {:induction false} StavesOnlyBeats(s: Section, beatBase: Duration)
    requires Measured(s) && |s.content| > 0
    requires forall i :: 0 <= i < |s.content| ==> s.content[i].StaffItem?
    ensures St.Measured(s.content[0].staff)
    ensures SectionBeats(s, beatBase)
      == Scale(St.StaffBeats(s.content[0].staff, SectionBase(s, beatBase)), TotalIterations(s) as nat)
  {
    assert ItemMeasured(s.content[0]);
    var base := SectionBase(s, beatBase);
    var k := TotalIterations(s) as nat;
    StavesOnlySum(s.content, |s.content|, base, k);
  }

  lemma {:induction false} StavesOnlySum(content: seq<SectionContent>, n: nat, base: Duration, repeats: nat)
    requires 0 < n <= |content| && ContentMeasured(content)
    requires forall i :: 0 <= i < |content| ==> content[i].StaffItem?
    ensures ItemMeasured(content[0])
    ensures SumTo(content, n, base, repeats) == Scale(St.StaffBeats(content[0].staff, base), repeats)
  {
    assert ItemMeasured(content[0]);
    if n > 1 {
      StavesOnlySum(content, n - 1, base, repeats);
      assert Contribution(content, n - 1, base, repeats) == 0.0;
    }
  }

  /** Claiming a sub-section adds its beats times the iterations it plays
      on. */
  lemma {:induction false} ClaimSectionAddsBeats(s: Section, sub: Section, beatBase: Duration)
    requires Measured(s) && Measured(sub)
    ensures Measured(ClaimSection(s, sub))
    ensures SectionBeats(ClaimSection(s, sub), beatBase)
      == SectionBeats(s, beatBase)
         + SectionBeats(sub, SectionBase(s, beatBase)) * (Iterations(sub, TotalIterations(s) as nat) as real)
  {
    var t := ClaimSection(s, sub);
    assert ItemMeasured(SubSection(sub));
    assert Measured(t);
    var base := SectionBase(s, beatBase);
    var repeats := TotalIterations(s) as nat;
    assert t.modifications == s.modifications;
    forall j | 0 <= j < |s.content|
      ensures Contribution(s.content, j, base, repeats) == Contribution(t.content, j, base, repeats)
    {
    }
    SumToPointwise(s.content, t.content, |s.content|, base, repeats);
    assert SumTo(t.content, |t.content|, base, repeats)
      == SumTo(t.content, |s.content|, base, repeats) + SubSectionBeats(SubSection(sub), base, repeats);
    ScaleIsProduct(SectionBeats(sub, base), Iterations(sub, repeats));
  }

  /** The tempo a section plays at: its own, or the one it is given. */
  function SectionBpm(s: Section, tempo: Tempos.Tempo): U16 {
    match SectionTempo(s)
    case Some(t) => t.beatsPerMinute
    case None => tempo.beatsPerMinute
  }

  /** `Section::get_duration`: the beats at the tempo's base note, in
      seconds at the section's own speed when it has one; the seconds times
      that speed are sixty times the section's beats.  There are none when
      that speed is 0, where the source divides by zero. */
  function SectionDuration(s: Section, tempo: Tempos.Tempo): (r: Option<real>)
    requires Measured(s)
    ensures Tempos.Lasts(r, SectionBeats(s, tempo.baseNote), SectionBpm(s, tempo))
  {
    Tempos.Seconds(SectionBeats(s, tempo.baseNote), SectionBpm(s, tempo))
  }

  // ---------------------------------------------------------------------
  // Removing items and modifications

  /** Nothing among the content has the id: no staff or section, and
      nothing inside a staff. */
  ghost predicate ContentFree(content: seq<SectionContent>, id: nat)
    decreases content, 1
  {
    forall i :: 0 <= i < |content| ==> ItemFree(content[i], id)
  }

  ghost predicate ItemFree(c: SectionContent, id: nat)
    decreases c, 0
  {
    match c
    case StaffItem(st) => st.id != id && St.EntriesFree(st.content, id)
    case SubSection(sub) => sub.id != id && ContentFree(sub.content, id)
  }

  /** The test that keeps every staff or sub-section with another id. */
  function OtherContentId(id: nat): SectionContent -> bool {
    (c: SectionContent) => ContentId(c) != id
  }

  /** `Section::remove_item`: the direct staves and sections with the id
      go, then every remaining one has the id removed in turn; the
      section's own id, name and modifications stay. */
  function RemoveItem(s: Section, id: nat): (r: Section)
    ensures r.id == s.id && r.name == s.name && r.modifications == s.modifications
    ensures ContentIds(r.content) == Ph.Without(ContentIds(s.content), id)
    ensures ContentFree(r.content, id)
    ensures var kept := ModSets.Filter(s.content, OtherContentId(id));
      |r.content| == |kept| &&
      forall i :: 0 <= i < |kept| ==> kept[i] in s.content && r.content[i] == RemoveInside(kept[i], id)
    decreases s, 3
  {
    s.(content := RemoveFromContent(s.content, id))
  }

  /** The `retain` and then the `for_each`, item by item: the staves and
      sections kept are those with another id, in order, each with the id
      removed inside it. */
  function RemoveFromContent(content: seq<SectionContent>, id: nat): (r: seq<SectionContent>)
    ensures ContentIds(r) == Ph.Without(ContentIds(content), id)
    ensures ContentFree(r, id)
    ensures var kept := ModSets.Filter(content, OtherContentId(id));
      |r| == |kept| && forall i :: 0 <= i < |kept| ==> kept[i] in content && r[i] == RemoveInside(kept[i], id)
    decreases content, 2
  {
    if content == [] then []
    else
      var n := |content| - 1;
      var before := RemoveFromContent(content[..n], id);
      RemovedContentSnoc(content, id, before);
      if ContentId(content[n]) == id then before else before + [RemoveInside(content[n], id)]
  }

  /** One more staff or section: kept and edited when its id differs,
      dropped otherwise; the ids left and their absence below follow. */
  lemma {:induction false} RemovedContentSnoc(content: seq<SectionContent>, id: nat, before: seq<SectionContent>)
    requires content != []
    requires ContentIds(before) == Ph.Without(ContentIds(content[..|content| - 1]), id)
    requires ContentFree(before, id)
    requires var kept := ModSets.Filter(content[..|content| - 1], OtherContentId(id));
      |before| == |kept| &&
      forall i :: 0 <= i < |kept| ==> kept[i] in content[..|content| - 1] && before[i] == RemoveInside(kept[i], id)
    ensures var c := content[|content| - 1];
      var r := if ContentId(c) == id then before else before + [RemoveInside(c, id)];
      ContentIds(r) == Ph.Without(ContentIds(content), id) && ContentFree(r, id)
    ensures var kept := ModSets.Filter(content, OtherContentId(id));
      var c := content[|content| - 1];
      var r := if ContentId(c) == id then before else before + [RemoveInside(c, id)];
      |r| == |kept| && forall i :: 0 <= i < |kept| ==> kept[i] in content && r[i] == RemoveInside(kept[i], id)
    decreases content, 1
  {
    var n := |content| - 1;
    assert ContentIds(content)[..n] == ContentIds(content[..n]);
    if ContentId(content[n]) != id {
      var last := RemoveInside(content[n], id);
      assert ContentIds(before + [last]) == ContentIds(before) + [ContentId(last)];
    }
    RemovedContentKept(content, id, before);
  }

  /** The per-item half of `RemovedContentSnoc`: the kept staves and
      sections line up with their edited copies. */
  lemma {:induction false} RemovedContentKept(content: seq<SectionContent>, id: nat, before: seq<SectionContent>)
    requires content != []
    requires var kept := ModSets.Filter(content[..|content| - 1], OtherContentId(id));
      |before| == |kept| &&
      forall i :: 0 <= i < |kept| ==> kept[i] in content[..|content| - 1] && before[i] == RemoveInside(kept[i], id)
    ensures var kept := ModSets.Filter(content, OtherContentId(id));
      var c := content[|content| - 1];
      var r := if ContentId(c) == id then before else before + [RemoveInside(c, id)];
      |r| == |kept| && forall i :: 0 <= i < |kept| ==> kept[i] in content && r[i] == RemoveInside(kept[i], id)
    decreases content, 0
  {
    var n := |content| - 1;
    var keep := OtherContentId(id);
    var keptBefore := ModSets.Filter(content[..n], keep);
    ModSets.FilterSnoc(content[..n], content[n], keep);
    assert content[..n] + [content[n]] == content;
    if ContentId(content[n]) != id {
      var last := RemoveInside(content[n], id);
      assert ModSets.Filter(content, keep) == keptBefore + [content[n]];
      forall i | 0 <= i < |keptBefore| + 1
        ensures (keptBefore + [content[n]])[i] in content
        ensures (before + [last])[i] == RemoveInside((keptBefore + [content[n]])[i], id)
      {
        if i < |keptBefore| {
          assert (before + [last])[i] == before[i];
          assert (keptBefore + [content[n]])[i] == keptBefore[i];
        }
      }
    }
  }

  /** A kept staff or section with the id removed inside it: a staff is its
      own `Staff::remove_item`, a sub-section its own `remove_item`. */
  function RemoveInside(c: SectionContent, id: nat): (r: SectionContent)
    ensures ContentId(r) == ContentId(c) && r.StaffItem? == c.StaffItem?
    ensures ContentId(c) != id ==> ItemFree(r, id)
    ensures c.StaffItem? ==> r == StaffItem(St.RemoveItem(c.staff, id))
    ensures c.SubSection? ==> r == SubSection(RemoveItem(c.section, id))
    decreases c, 1
  {
    match c
    case StaffItem(st) => StaffItem(St.RemoveItem(st, id))
    case SubSection(sub) => SubSection(RemoveItem(sub, id))
  }

  /** Removing an id that occurs nowhere in the section changes nothing. */
  lemma {:induction false} RemoveAbsentItem(s: Section, id: nat)
    requires ContentFree(s.content, id)
    ensures RemoveItem(s, id) == s
    decreases s, 3
  {
    RemoveAbsentFromContent(s.content, id);
  }

  lemma {:induction false} RemoveAbsentFromContent(content: seq<SectionContent>, id: nat)
    requires ContentFree(content, id)
    ensures RemoveFromContent(content, id) == content
    decreases content, 2
  {
    var r := RemoveFromContent(content, id);
    forall c | c in content ensures OtherContentId(id)(c) {
      var i :| 0 <= i < |content| && content[i] == c;
      assert ItemFree(content[i], id);
    }
    ModSets.FilterAllKept(content, OtherContentId(id));
    forall i | 0 <= i < |content| ensures r[i] == content[i] {
      assert ItemFree(content[i], id);
      RemoveAbsentInside(content[i], id);
    }
  }

  lemma {:induction false} RemoveAbsentInside(c: SectionContent, id: nat)
    requires ItemFree(c, id)
    ensures RemoveInside(c, id) == c
    decreases c, 1
  {
    match c
    case StaffItem(st) => St.RemoveAbsentItem(st, id);
    case SubSection(sub) => RemoveAbsentItem(sub, id);
  }

  /** Removing an id twice is removing it once. */
  lemma {:induction false} RemoveItemIdempotent(s: Section, id: nat)
    ensures RemoveItem(RemoveItem(s, id), id) == RemoveItem(s, id)
  {
    RemoveAbsentItem(RemoveItem(s, id), id);
  }

  /** The test that keeps every section modification with another id. */
  function OtherModId(id: nat): SM.SectionModification -> bool {
    (m: SM.SectionModification) => m.id != id
  }

  /** `Section::remove_modification`: the section's own modifications with
      the id go; the content is untouched. */
  function RemoveModification(s: Section, id: nat): (r: Section)
    ensures r.id == s.id && r.name == s.name && r.content == s.content
    ensures forall m :: m in r.modifications <==> m in s.modifications && m.id != id
    ensures |r.modifications| <= |s.modifications|
  {
    s.(modifications := ModSets.Filter(s.modifications, OtherModId(id)))
  }

  // ---------------------------------------------------------------------
  // Staff names

  /** A staff called `x` is among the content, directly or, when
      `recurse` holds, inside a sub-section at any depth. */
  ghost predicate HasStaffNamed(content: seq<SectionContent>, x: string, recurse: bool)
    decreases content, 1
  {
    exists i :: 0 <= i < |content| && ItemHasStaffNamed(content[i], x, recurse)
  }

  ghost predicate ItemHasStaffNamed(c: SectionContent, x: string, recurse: bool)
    decreases c, 0
  {
    match c
    case StaffItem(st) => st.name == x
    case SubSection(sub) => recurse && HasStaffNamed(sub.content, x, recurse)
  }

  /** `Section::get_staff_names`: the names of the staves, gathered into a
      `BTreeSet`, so sorted and without repeats. */
  function StaffNames(s: Section, recurse: bool): (r: seq<string>)
    ensures StringSets.Increasing(r)
    ensures forall x :: x in r <==> HasStaffNamed(s.content, x, recurse)
    decreases s, 2
  {
    StringSets.SortedSet(ContentNames(s.content, recurse))
  }

  /** The `flat_map` before the set is collected. */
  function ContentNames(content: seq<SectionContent>, recurse: bool): (r: seq<string>)
    ensures forall x :: x in r <==> HasStaffNamed(content, x, recurse)
    decreases content, 1
  {
    if content == [] then []
    else
      var n := |content| - 1;
      var before := ContentNames(content[..n], recurse);
      var last := ItemNames(content[n], recurse);
      forall x ensures HasStaffNamed(content, x, recurse)
                       <==> HasStaffNamed(content[..n], x, recurse) || ItemHasStaffNamed(content[n], x, recurse)
      {
        if HasStaffNamed(content, x, recurse) {
          var i :| 0 <= i < |content| && ItemHasStaffNamed(content[i], x, recurse);
          if i < n {
            assert content[..n][i] == content[i];
          }
        }
        if HasStaffNamed(content[..n], x, recurse) {
          var i :| 0 <= i < n && ItemHasStaffNamed(content[..n][i], x, recurse);
          assert content[..n][i] == content[i];
        }
      }
      before + last
  }

  function ItemNames(c: SectionContent, recurse: bool): (r: seq<string>)
    ensures forall x :: x in r <==> ItemHasStaffNamed(c, x, recurse)
    decreases c, 0
  {
    match c
    case StaffItem(st) => [st.name]
    case SubSection(sub) => if recurse then StaffNames(sub, recurse) else []
  }

  // ---------------------------------------------------------------------
  // Finding a section by id

  /** The section and every section below it, each before its own
      sub-sections, in content order. */
  function AllSections(s: Section): (r: seq<Section>)
    ensures |r| > 0 && r[0] == s
    decreases s, 2
  {
    [s] + ContentSections(s.content)
  }

  function ContentSections(content: seq<SectionContent>): seq<Section>
    decreases content, 1
  {
    if content == [] then [] else ItemSections(content[0]) + ContentSections(content[1..])
  }

  function ItemSections(c: SectionContent): seq<Section>
    decreases c, 0
  {
    match c
    case StaffItem(_) => []
    case SubSection(sub) => AllSections(sub)
  }

  /** The first section of a list with the id. */
  function FirstWithId(sections: seq<Section>, id: nat): (r: Option<Section>)
    ensures r.Some? ==> r.value in sections && r.value.id == id
    ensures r.None? <==> forall k :: 0 <= k < |sections| ==> sections[k].id != id
    ensures forall k :: (0 <= k < |sections| && sections[k].id == id
                         && (forall j :: 0 <= j < k ==> sections[j].id != id))
                       ==> r == Some(sections[k])
  {
    if sections == [] then Option.None
    else if sections[0].id == id then Some(sections[0])
    else
      var rest := FirstWithId(sections[1..], id);
      assert forall k :: 1 <= k < |sections| ==> sections[1..][k - 1] == sections[k];
      rest
  }

  /** Looking through two lists in turn finds what the first holds, or
      else what the second holds. */
  lemma {:induction false} FirstWithIdAppend(a: seq<Section>, b: seq<Section>, id: nat)
    ensures FirstWithId(a + b, id) == if FirstWithId(a, id).Some? then FirstWithId(a, id) else FirstWithId(b, id)
    decreases |a|
  {
    if a != [] {
      assert (a + b)[0] == a[0] && (a + b)[1..] == a[1..] + b;
      FirstWithIdAppend(a[1..], b, id);
    } else {
      assert a + b == b;
    }
  }

  /** `Section::get_section`: the section itself when the id is its own,
      else the first match found depth first through the sub-sections,
      which is the first section with the id in `AllSections`. */
  function GetSection(s: Section, id: nat): (r: Option<Section>)
    ensures r == FirstWithId(AllSections(s), id)
    ensures s.id == id ==> r == Some(s)
    decreases s, 2
  {
    var all := AllSections(s);
    assert all[1..] == ContentSections(s.content);
    if s.id == id then Some(s) else FindInContent(s.content, id)
  }

  /** The `find_map` over the content. */
  function FindInContent(content: seq<SectionContent>, id: nat): (r: Option<Section>)
    ensures r == FirstWithId(ContentSections(content), id)
    decreases content, 1
  {
    if content == [] then Option.None
    else
      FirstWithIdAppend(ItemSections(content[0]), ContentSections(content[1..]), id);
      var here := FindInItem(content[0], id);
      if here.Some? then here else FindInContent(content[1..], id)
  }

  function FindInItem(c: SectionContent, id: nat): (r: Option<Section>)
    ensures r == FirstWithId(ItemSections(c), id)
    decreases c, 0
  {
    match c
    case StaffItem(_) => Option.None
    case SubSection(sub) => GetSection(sub, id)
  }

  // ---------------------------------------------------------------------
  // Equality

  /** `PartialEq for Section`: the same name, equal content position by
      position and equal modifications position by position; the id is
      not compared. */
  predicate SameSection(a: Section, b: Section)
    decreases a, 2
  {
    a.name == b.name && SameContent(a.content, b.content)
    && |a.modifications| == |b.modifications|
    && forall i :: 0 <= i < |a.modifications| ==> SM.SameModification(a.modifications[i], b.modifications[i])
  }

  predicate SameContent(a: seq<SectionContent>, b: seq<SectionContent>)
    decreases a, 1
  {
    |a| == |b| && forall i :: 0 <= i < |a| ==> SameItem(a[i], b[i])
  }

  /** The derived `PartialEq for SectionContent`. */
  predicate SameItem(a: SectionContent, b: SectionContent)
    decreases a, 0
  {
    match a
    case StaffItem(st) => b.StaffItem? && St.SameStaff(st, b.staff)
    case SubSection(sub) => b.SubSection? && SameSection(sub, b.section)
  }

  lemma {:induction false} SameSectionReflexive(s: Section)
    ensures SameSection(s, s)
    decreases s, 2
  {
    SameContentReflexive(s.content);
  }

  lemma {:induction false} SameContentReflexive(content: seq<SectionContent>)
    ensures SameContent(content, content)
    decreases content, 1
  {
    forall i | 0 <= i < |content| ensures SameItem(content[i], content[i]) {
      SameItemReflexive(content[i]);
    }
  }

  lemma {:induction false} SameItemReflexive(c: SectionContent)
    ensures SameItem(c, c)
    decreases c, 0
  {
    match c
    case StaffItem(st) => St.SameStaffReflexive(st);
    case SubSection(sub) => SameSectionReflexive(sub);
  }

  /** `Clone for Section`: an equal section under a fresh id. */
  function CloneSection(s: Section, freshId: nat): (r: Section)
    ensures r.id == freshId && SameSection(r, s)
  {
    SameSectionReflexive(s);
    s.(id := freshId)
  }

  // ---------------------------------------------------------------------
  // Grouping for playback

  /** What the sub-section path of `iter_timeslices` plays in turn: a run
      of direct staves gathered into an implicit section, or a
      sub-section. */
  datatype Group = Implicit(staves: seq<St.Staff>) | Explicit(section: Section)

  /** The grouping loop of `Section::iter_timeslices` (with its
      `implicit_section` open while staves follow each other). A staff
      after a staff joins the open implicit group; any other staff opens
      a new one. With `keepOpener` false this is the code as written,
      where the staff that opens a group is not put into it; with
      `keepOpener` true it is put in, as `clone_with_single_staff` does
      for the same grouping. */
  function Groups(content: seq<SectionContent>, keepOpener: bool): (r: seq<Group>)
    ensures (|content| > 0 && content[|content| - 1].StaffItem?) ==> |r| > 0 && r[|r| - 1].Implicit?
    decreases |content|
  {
    if content == [] then []
    else
      var n := |content| - 1;
      var before := Groups(content[..n], keepOpener);
      match content[n]
      case StaffItem(st) =>
        if n > 0 && content[n - 1].StaffItem? then
          assert content[..n][n - 1] == content[n - 1];
          var last := before[|before| - 1];
          before[..|before| - 1] + [Implicit(last.staves + [st])]
        else before + [Implicit(if keepOpener then [st] else [])]
      case SubSection(sub) => before + [Explicit(sub)]
  }

  /** Every explicit group is a sub-section of the content. */
  lemma {:induction false} GroupSectionsFromContent(content: seq<SectionContent>, keepOpener: bool)
    ensures forall g :: g in Groups(content, keepOpener) && g.Explicit? ==> SubSection(g.section) in content
    decreases |content|
  {
    if content != [] {
      var n := |content| - 1;
      GroupSectionsFromContent(content[..n], keepOpener);
      assert forall c :: c in content[..n] ==> c in content;
      var before := Groups(content[..n], keepOpener);
      if content[n].StaffItem? && n > 0 && content[n - 1].StaffItem? {
        assert content[..n][n - 1] == content[n - 1];
        assert forall g :: g in before[..|before| - 1] ==> g in before;
      }
    }
  }

  /** Every staff of an implicit group is a staff of the content. */
  lemma {:induction false} GroupStavesFromContent(content: seq<SectionContent>, keepOpener: bool)
    ensures forall g, st :: g in Groups(content, keepOpener) && g.Implicit? && st in g.staves ==> StaffItem(st) in content
    decreases |content|
  {
    if content != [] {
      var n := |content| - 1;
      GroupStavesFromContent(content[..n], keepOpener);
      assert forall c :: c in content[..n] ==> c in content;
      var before := Groups(content[..n], keepOpener);
      if content[n].StaffItem? && n > 0 && content[n - 1].StaffItem? {
        assert content[..n][n - 1] == content[n - 1];
        var last := before[|before| - 1];
        assert last in before;
        assert forall g :: g in before[..|before| - 1] ==> g in before;
      }
    }
  }

  /** The direct staves, in order. */
  function DirectStaves(content: seq<SectionContent>): seq<St.Staff>
  {
    if content == [] then []
    else
      var n := |content| - 1;
      DirectStaves(content[..n]) + (if content[n].StaffItem? then [content[n].staff] else [])
  }

  /** Every direct staff is a staff item of the content. */
  lemma {:induction false} DirectStavesFromContent(content: seq<SectionContent>)
    ensures forall st :: st in DirectStaves(content) ==> StaffItem(st) in content
  {
    if content != [] {
      var n := |content| - 1;
      DirectStavesFromContent(content[..n]);
      assert forall c :: c in content[..n] ==> c in content;
    }
  }

  /** The staves of the implicit groups, in order. */
  function ImplicitStaves(groups: seq<Group>): seq<St.Staff> {
    if groups == [] then []
    else
      var n := |groups| - 1;
      ImplicitStaves(groups[..n]) + (if groups[n].Implicit? then groups[n].staves else [])
  }

  /** Keeping the opening staff, every direct staff is played, once and in
      order: the implicit groups hold exactly the direct staves. */
  lemma {:induction false} GroupsKeepStaves(content: seq<SectionContent>)
    ensures ImplicitStaves(Groups(content, true)) == DirectStaves(content)
    decreases |content|
  {
    if content != [] {
      var n := |content| - 1;
      GroupsKeepStaves(content[..n]);
      var before := Groups(content[..n], true);
      if content[n].StaffItem? && n > 0 && content[n - 1].StaffItem? {
        assert content[..n][n - 1] == content[n - 1];
        var k := |before| - 1;
        var last := before[k];
        var r := before[..k] + [Implicit(last.staves + [content[n].staff])];
        assert r[..k] == before[..k];
        assert before[..k] + [last] == before;
        assert ImplicitStaves(before) == ImplicitStaves(before[..k]) + last.staves;
        assert ImplicitStaves(r) == ImplicitStaves(before[..k]) + (last.staves + [content[n].staff]);
      } else {
        var r := Groups(content, true);
        assert r[..|r| - 1] == before;
      }
    }
  }

  /** As written, a staff followed by a sub-section is not played at all:
      its group is opened empty and closed at once. */
  lemma {:induction false} OpeningStaffDroppedAsWritten(a: St.Staff, b: Section)
    ensures Groups([StaffItem(a), SubSection(b)], false) == [Implicit([]), Explicit(b)]
    ensures ImplicitStaves(Groups([StaffItem(a), SubSection(b)], false)) == []
    ensures DirectStaves([StaffItem(a), SubSection(b)]) == [a]
  {
    var c := [StaffItem(a), SubSection(b)];
    var c1 := [StaffItem(a)];
    assert c[..1] == c1 && c1[..0] == [];
    assert Groups(c, false) == [Implicit([]), Explicit(b)] by {
      assert Groups(c1, false) == [Implicit([])];
    }
    assert DirectStaves(c) == [a] by {
      assert DirectStaves(c1) == [a];
    }
    var g: seq<Group> := [Implicit([]), Explicit(b)];
    var g1: seq<Group> := [Implicit([])];
    assert ImplicitStaves(g) == [] by {
      assert g[..1] == g1 && g1[..0] == [];
      assert ImplicitStaves(g1) == [];
    }
  }

  // ---------------------------------------------------------------------
  // Keeping one staff

  /** The rest-filled staff `clone_with_single_staff` writes for a run of
      staves in which the retained name does not occur: named after it and
      as long as the run's opening staff. Its notes come from
      `Duration::get_minimum_divisible_notes`, which is not part of this
      model, so the filler is a parameter, given the retained name and the
      opening staff. */
  type Filler = (string, St.Staff) -> St.Staff

  /** What a run of staves becomes: its last staff with the retained name,
      or else the filler for its opening staff. */
  function Retained(staves: seq<St.Staff>, name: string, filler: Filler): (r: St.Staff)
    requires |staves| > 0
    ensures (exists i :: 0 <= i < |staves| && staves[i].name == name) ==>
              exists i :: 0 <= i < |staves| && r == staves[i] && r.name == name
                          && forall j :: i < j < |staves| ==> staves[j].name != name
    ensures (forall i :: 0 <= i < |staves| ==> staves[i].name != name) ==> r == filler(name, staves[0])
    decreases |staves|
  {
    var n := |staves| - 1;
    if staves[n].name == name then staves[n]
    else if n == 0 then filler(name, staves[0])
    else
      assert forall i :: 0 <= i < n ==> staves[..n][i] == staves[i];
      Retained(staves[..n], name, filler)
  }

  /** `Section::clone_with_single_staff`: every run of direct staves
      becomes the one staff `Retained` picks from it, every sub-section is
      cloned the same way, and the name and the modifications are kept. */
  function SingleStaff(s: Section, name: string, filler: Filler): (r: Section)
    ensures r.id == s.id && r.name == s.name && r.modifications == s.modifications
    ensures |r.content| <= |s.content|
    decreases s, 2
  {
    s.(content := SingleStaffContent(s.content, name, filler))
  }

  /** The grouping loop of `clone_with_single_staff` and the `map` that
      closes each implicit section, item by item. */
  function SingleStaffContent(content: seq<SectionContent>, name: string, filler: Filler): (r: seq<SectionContent>)
    ensures |r| <= |content|
    ensures |content| > 0 ==> |r| > 0 && (r[|r| - 1].StaffItem? <==> content[|content| - 1].StaffItem?)
    decreases content, 1
  {
    if content == [] then []
    else
      var n := |content| - 1;
      var before := SingleStaffContent(content[..n], name, filler);
      match content[n]
      case StaffItem(st) =>
        if n > 0 && content[n - 1].StaffItem? then
          assert content[..n][n - 1] == content[n - 1];
          if st.name == name then before[..|before| - 1] + [StaffItem(st)] else before
        else before + [StaffItem(if st.name == name then st else filler(name, st))]
      case SubSection(_) => before + [SingleStaffItem(content[n], name, filler)]
  }

  function SingleStaffItem(c: SectionContent, name: string, filler: Filler): SectionContent
    requires c.SubSection?
    decreases c, 0
  {
    SubSection(SingleStaff(c.section, name, filler))
  }

  /** What a group of the grouping that keeps its opening staff becomes in
      the clone. */
  function Pick(g: Group, name: string, filler: Filler): SectionContent
    requires g.Implicit? ==> |g.staves| > 0
  {
    match g
    case Implicit(staves) => StaffItem(Retained(staves, name, filler))
    case Explicit(sub) => SubSection(SingleStaff(sub, name, filler))
  }

  /** The clone has one item per group of the playback grouping (opening
      staves kept): the staff retained from each run of staves, and the
      clone of each sub-section. */
  ghost predicate ByGroups(content: seq<SectionContent>, name: string, filler: Filler) {
    var g := Groups(content, true);
    var r := SingleStaffContent(content, name, filler);
    (forall i :: 0 <= i < |g| && g[i].Implicit? ==> |g[i].staves| > 0)
    && |r| == |g|
    && forall i :: 0 <= i < |g| ==> r[i] == Pick(g[i], name, filler)
  }

  lemma {:induction false} SingleStaffByGroups(content: seq<SectionContent>, name: string, filler: Filler)
    ensures ByGroups(content, name, filler)
    decreases |content|
  {
    if content != [] {
      var n := |content| - 1;
      SingleStaffByGroups(content[..n], name, filler);
      if content[n].SubSection? {
        ByGroupsSection(content, name, filler);
      } else if n > 0 && content[n - 1].StaffItem? {
        ByGroupsRun(content, name, filler);
      } else {
        ByGroupsOpener(content, name, filler);
      }
    }
  }

  /** A sub-section adds one group and one cloned item. */
  lemma {:induction false} ByGroupsSection(content: seq<SectionContent>, name: string, filler: Filler)
    requires |content| > 0 && content[|content| - 1].SubSection?
    requires ByGroups(content[..|content| - 1], name, filler)
    ensures ByGroups(content, name, filler)
  {
    var n := |content| - 1;
    var gb := Groups(content[..n], true);
    assert Groups(content, true) == gb + [Explicit(content[n].section)];
  }

  /** A staff that opens a run adds one group and one item. */
  lemma {:induction false} ByGroupsOpener(content: seq<SectionContent>, name: string, filler: Filler)
    requires |content| > 0 && content[|content| - 1].StaffItem?
    requires |content| == 1 || content[|content| - 2].SubSection?
    requires ByGroups(content[..|content| - 1], name, filler)
    ensures ByGroups(content, name, filler)
  {
    var n := |content| - 1;
    var st := content[n].staff;
    var gb := Groups(content[..n], true);
    assert Groups(content, true) == gb + [Implicit([st])];
  }

  /** A staff that continues a run joins its group, and the item the run
      became is replaced when the staff carries the retained name. */
  lemma {:induction false} ByGroupsRun(content: seq<SectionContent>, name: string, filler: Filler)
    requires |content| > 1 && content[|content| - 1].StaffItem? && content[|content| - 2].StaffItem?
    requires ByGroups(content[..|content| - 1], name, filler)
    ensures ByGroups(content, name, filler)
  {
    var n := |content| - 1;
    var st := content[n].staff;
    assert content[..n][n - 1] == content[n - 1];
    var gb := Groups(content[..n], true);
    var rb := SingleStaffContent(content[..n], name, filler);
    var k := |gb| - 1;
    var last := gb[k];
    var staves := last.staves + [st];
    RetainedExtend(last.staves, st, name, filler);
    var g := gb[..k] + [Implicit(staves)];
    assert Groups(content, true) == g;
    var r := if st.name == name then rb[..k] + [StaffItem(st)] else rb;
    assert SingleStaffContent(content, name, filler) == r;
    RunPointwise(gb, rb, g, r, k, name, filler);
  }

  lemma {:induction false} RunPointwise(gb: seq<Group>, rb: seq<SectionContent>, g: seq<Group>, r: seq<SectionContent>,
                                        k: nat, name: string, filler: Filler)
    requires |gb| == |rb| == |g| == |r| == k + 1
    requires forall i :: 0 <= i < |gb| && gb[i].Implicit? ==> |gb[i].staves| > 0
    requires forall i :: 0 <= i < k ==> g[i] == gb[i] && r[i] == rb[i]
    requires forall i :: 0 <= i < |gb| ==> rb[i] == Pick(gb[i], name, filler)
    requires g[k].Implicit? && |g[k].staves| > 0 && r[k] == Pick(g[k], name, filler)
    ensures forall i :: 0 <= i < |g| && g[i].Implicit? ==> |g[i].staves| > 0
    ensures forall i :: 0 <= i < |g| ==> r[i] == Pick(g[i], name, filler)
  {
  }

  /** One more staff at the end of a run is retained when it has the
      name; otherwise the run keeps what it had retained. */
  lemma {:induction false} RetainedExtend(staves: seq<St.Staff>, st: St.Staff, name: string, filler: Filler)
    requires |staves| > 0
    ensures Retained(staves + [st], name, filler) == if st.name == name then st else Retained(staves, name, filler)
  {
    assert (staves + [st])[..|staves|] == staves;
  }

  // ---------------------------------------------------------------------
  // Timeslices

  /** Timeslices with the beat each starts on, as the staff path of
      `iter_timeslices` gathers them. */
  type Placed = seq<(real, T.Timeslice)>

  /** `place_and_merge_timeslice(&mut timeslices, slice, index,
      curr_time)`: merges one slice into the placed ones, searching from a
      position and a time, and returns the new placed slices with the
      position and time to go on from. */
  type Place = (Placed, T.Timeslice, nat, real) -> (Placed, nat, real)

  /** One staff's slices merged in turn, starting at position 0 and time
      0.0. */
  function PlaceRun(acc: Placed, slices: seq<T.Timeslice>, place: Place): (Placed, nat, real) {
    if slices == [] then (acc, 0, 0.0)
    else
      var n := |slices| - 1;
      var prev := PlaceRun(acc, slices[..n], place);
      place(prev.0, slices[n], prev.1, prev.2)
  }

  ghost predicate StavesWellFormed(staves: seq<St.Staff>) {
    forall i :: 0 <= i < |staves| ==> St.WellFormed(staves[i])
  }

  /** Every staff of a list merged in, one after the other. */
  function PlaceStaves(acc: Placed, staves: seq<St.Staff>, place: Place): Placed
    requires StavesWellFormed(staves)
  {
    if staves == [] then acc
    else
      var n := |staves| - 1;
      PlaceRun(PlaceStaves(acc, staves[..n], place), St.StaffSlices(staves[n]), place).0
  }

  /** The staves merged in once per iteration. */
  function PlaceIterations(staves: seq<St.Staff>, k: nat, place: Place): Placed
    requires StavesWellFormed(staves)
  {
    if k == 0 then [] else PlaceStaves(PlaceIterations(staves, k - 1, place), staves, place)
  }

  /** The staff path of `iter_timeslices`, for a section without
      sub-sections: the slices merged from every staff, once per
      iteration, in the order of their times. */
  function StavesSlices(staves: seq<St.Staff>, k: nat, place: Place): (r: seq<T.Timeslice>)
    requires StavesWellFormed(staves)
    ensures |r| == |PlaceIterations(staves, k, place)|
    ensures forall i :: 0 <= i < |r| ==> r[i] == PlaceIterations(staves, k, place)[i].1
  {
    var placed := PlaceIterations(staves, k, place);
    seq(|placed|, i requires 0 <= i < |placed| => placed[i].1)
  }

  /** Without staves nothing is placed, however many iterations. */
  lemma {:induction false} NoStavesNoSlices(k: nat, place: Place)
    ensures StavesSlices([], k, place) == []
  {
    NoStavesPlaced(k, place);
  }

  lemma {:induction false} NoStavesPlaced(k: nat, place: Place)
    ensures PlaceIterations([], k, place) == []
  {
    if k > 0 {
      NoStavesPlaced(k - 1, place);
    }
  }

  /** Whether any item is a sub-section (the `any` at the head of
      `iter_timeslices`). */
  predicate HasSubSection(content: seq<SectionContent>) {
    exists i :: 0 <= i < |content| && content[i].SubSection?
  }

  /** A group plays on an iteration when it names no iterations or names
      that one; an implicit group is a new section and names none. */
  predicate PlaysOn(g: Group, iteration: U8) {
    match g
    case Implicit(_) => true
    case Explicit(sub) => |PlayableIterations(sub)| == 0 || iteration in PlayableIterations(sub)
  }

  /** The direct staves of a well-formed section are well formed. */
  lemma {:induction false} DirectStavesWellFormed(content: seq<SectionContent>)
    requires ContentWellFormed(content)
    ensures StavesWellFormed(DirectStaves(content))
  {
    var staves := DirectStaves(content);
    DirectStavesFromContent(content);
    forall i | 0 <= i < |staves| ensures St.WellFormed(staves[i]) {
      assert staves[i] in staves;
      var j :| 0 <= j < |content| && content[j] == StaffItem(staves[i]);
      assert ItemWellFormed(content[j]);
    }
  }

  /** The groups of a well-formed section are well formed. */
  lemma {:induction false} GroupWellFormed(s: Section, g: Group)
    requires WellFormed(s) && g in Groups(s.content, true)
    ensures g.Implicit? ==> StavesWellFormed(g.staves)
    ensures g.Explicit? ==> SubSection(g.section) in s.content && WellFormed(g.section)
  {
    match g
    case Implicit(staves) =>
      GroupStavesFromContent(s.content, true);
      forall i | 0 <= i < |staves| ensures St.WellFormed(staves[i]) {
        assert staves[i] in staves;
        var j :| 0 <= j < |s.content| && s.content[j] == StaffItem(staves[i]);
        assert ItemWellFormed(s.content[j]);
      }
    case Explicit(sub) =>
      GroupSectionsFromContent(s.content, true);
      var j :| 0 <= j < |s.content| && s.content[j] == SubSection(sub);
      assert ItemWellFormed(s.content[j]);
  }

  /** `Section::iter_timeslices`. With sub-sections, every iteration plays
      the groups in turn, each one that plays on it; an implicit group
      plays as a section of its own staves, once. Without sub-sections the
      staves are merged, once per iteration. The groups are the corrected
      ones, which keep the opening staff of each run. */
  function SectionSlices(s: Section, place: Place): seq<T.Timeslice>
    requires WellFormed(s)
    decreases s, 3
  {
    if HasSubSection(s.content) then RoundsSlices(s, TotalIterations(s) as nat, place)
    else
      DirectStavesWellFormed(s.content);
      StavesSlices(DirectStaves(s.content), TotalIterations(s) as nat, place)
  }

  /** The first `k` iterations of the sub-section path. */
  function RoundsSlices(s: Section, k: nat, place: Place): seq<T.Timeslice>
    requires WellFormed(s) && k <= TotalIterations(s) as nat
    decreases s, 2, k
  {
    if k == 0 then []
    else RoundsSlices(s, k - 1, place) + RoundSlices(s, |Groups(s.content, true)|, (k - 1) as U8, place)
  }

  /** The first `n` groups on one iteration. */
  function RoundSlices(s: Section, n: nat, iteration: U8, place: Place): seq<T.Timeslice>
    requires WellFormed(s) && n <= |Groups(s.content, true)|
    decreases s, 1, n
  {
    if n == 0 then []
    else
      var g := Groups(s.content, true)[n - 1];
      RoundSlices(s, n - 1, iteration, place) + (if PlaysOn(g, iteration) then GroupSlices(s, g, place) else [])
  }

  /** What one group plays. */
  function GroupSlices(s: Section, g: Group, place: Place): seq<T.Timeslice>
    requires WellFormed(s) && g in Groups(s.content, true)
    decreases s, 0
  {
    GroupWellFormed(s, g);
    match g
    case Implicit(staves) => StavesSlices(staves, 1, place)
    case Explicit(sub) => SectionSlices(sub, place)
  }

  /** `Section::num_timeslices`. */
  function NumTimeslices(s: Section, place: Place): nat
    requires WellFormed(s)
  {
    |SectionSlices(s, place)|
  }

  /** `xs` played `k` times over. */
  function Repeated(xs: seq<T.Timeslice>, k: nat): seq<T.Timeslice>
  {
    if k == 0 then [] else Repeated(xs, k - 1) + xs
  }

  /** No sub-section names the iterations it plays on. */
  predicate NoPlayLists(s: Section) {
    NoneNamesIterations(Groups(s.content, true))
  }

  /** No group of the list is a sub-section with a play list. */
  predicate NoneNamesIterations(groups: seq<Group>) {
    groups == [] || ((groups[0].Explicit? ==> |PlayableIterations(groups[0].section)| == 0)
                     && NoneNamesIterations(groups[1..]))
  }

  /** When no sub-section names the iterations it plays on, every
      iteration plays the same: the first iteration's slices, repeated. */
  lemma {:induction false} RoundsWithoutPlayLists(s: Section, k: nat, place: Place)
    requires WellFormed(s) && k <= TotalIterations(s) as nat && NoPlayLists(s)
    ensures RoundsSlices(s, k, place) == Repeated(RoundSlices(s, |Groups(s.content, true)|, 0, place), k)
  {
    if k == 0 {
      RoundsNone(s, place);
    } else {
      RoundsWithoutPlayLists(s, k - 1, place);
      RoundsNext(s, k, place);
    }
  }

  /** No iteration plays nothing. */
  lemma RoundsNone(s: Section, place: Place)
    requires WellFormed(s)
    ensures RoundsSlices(s, 0, place) == Repeated(RoundSlices(s, |Groups(s.content, true)|, 0, place), 0)
  {
  }

  /** The induction step: the `k`-th iteration plays the first one's slices. */
  lemma RoundsNext(s: Section, k: nat, place: Place)
    requires WellFormed(s) && 0 < k <= TotalIterations(s) as nat && NoPlayLists(s)
    requires RoundsSlices(s, k - 1, place) == Repeated(RoundSlices(s, |Groups(s.content, true)|, 0, place), k - 1)
    ensures RoundsSlices(s, k, place) == Repeated(RoundSlices(s, |Groups(s.content, true)|, 0, place), k)
  {
    var n := |Groups(s.content, true)|;
    SameRounds(s, n, (k - 1) as U8, place);
    RoundsStep(s, k, place, RoundSlices(s, n, 0, place));
  }

  /** One more iteration that plays `first` extends `first` repeated. */
  lemma RoundsStep(s: Section, k: nat, place: Place, first: seq<T.Timeslice>)
    requires WellFormed(s) && 0 < k <= TotalIterations(s) as nat
    requires RoundsSlices(s, k - 1, place) == Repeated(first, k - 1)
    requires RoundSlices(s, |Groups(s.content, true)|, (k - 1) as U8, place) == first
    ensures RoundsSlices(s, k, place) == Repeated(first, k)
  {
  }

  /** Groups that play on every iteration play the same on any two. */
  lemma {:induction false} SameRounds(s: Section, n: nat, iteration: U8, place: Place)
    requires WellFormed(s) && n <= |Groups(s.content, true)|
    requires NoPlayLists(s)
    ensures RoundSlices(s, n, iteration, place) == RoundSlices(s, n, 0, place)
  {
    if n > 0 {
      SameRounds(s, n - 1, iteration, place);
      NoPlayListAt(s, n - 1, iteration);
      SameRoundsStep(s, n, iteration, place);
    }
  }

  /** The `n`-th group adds the same on both iterations when it plays on both. */
  lemma SameRoundsStep(s: Section, n: nat, iteration: U8, place: Place)
    requires WellFormed(s) && 0 < n <= |Groups(s.content, true)|
    requires RoundSlices(s, n - 1, iteration, place) == RoundSlices(s, n - 1, 0, place)
    requires PlaysOn(Groups(s.content, true)[n - 1], iteration) && PlaysOn(Groups(s.content, true)[n - 1], 0)
    ensures RoundSlices(s, n, iteration, place) == RoundSlices(s, n, 0, place)
  {
  }

  /** Without play lists the `k`-th group plays on every iteration. */
  lemma NoPlayListAt(s: Section, k: nat, iteration: U8)
    requires k < |Groups(s.content, true)| && NoPlayLists(s)
    ensures PlaysOn(Groups(s.content, true)[k], iteration) && PlaysOn(Groups(s.content, true)[k], 0)
  {
    NamesNoIterationsAt(Groups(s.content, true), k);
  }

  lemma {:induction false} NamesNoIterationsAt(groups: seq<Group>, k: nat)
    requires k < |groups| && NoneNamesIterations(groups)
    ensures groups[k].Explicit? ==> |PlayableIterations(groups[k].section)| == 0
  {
    if k > 0 {
      NamesNoIterationsAt(groups[1..], k - 1);
    }
  }

  /** The grouping loop, keeping the opening staff. */
  method BuildGroups(content: seq<SectionContent>) returns (groups: seq<Group>)
    ensures groups == Groups(content, true)
  {
    groups := [];
    var open := false;
    var i := 0;
    while i < |content|
      invariant 0 <= i <= |content|
      invariant groups == Groups(content[..i], true)
      invariant open == (i > 0 && content[i - 1].StaffItem?)
    {
      assert content[..i + 1][..i] == content[..i];
      match content[i] {
        case StaffItem(st) =>
          if open {
            var last := groups[|groups| - 1];
            groups := groups[..|groups| - 1] + [Implicit(last.staves + [st])];
          } else {
            groups := groups + [Implicit([st])];
            open := true;
          }
        case SubSection(sub) =>
          groups := groups + [Explicit(sub)];
          open := false;
      }
      i := i + 1;
    }
    assert content[..|content|] == content;
  }

  /** The innermost loop of the staff path: one staff's slices merged in
      turn. */
  method PlaceStaff(acc: Placed, staff: St.Staff, place: Place) returns (placed: Placed)
    requires St.WellFormed(staff)
    ensures placed == PlaceRun(acc, St.StaffSlices(staff), place).0
  {
    var slices := St.CollectSlices(staff);
    placed := acc;
    var index: nat := 0;
    var time := 0.0;
    var m := 0;
    while m < |slices|
      invariant 0 <= m <= |slices|
      invariant (placed, index, time) == PlaceRun(acc, slices[..m], place)
    {
      assert slices[..m + 1][..m] == slices[..m];
      var next := place(placed, slices[m], index, time);
      placed, index, time := next.0, next.1, next.2;
      m := m + 1;
    }
    assert slices[..|slices|] == slices;
  }

  /** Every staff merged in once. */
  method PlaceAllStaves(acc: Placed, staves: seq<St.Staff>, place: Place) returns (placed: Placed)
    requires StavesWellFormed(staves)
    ensures placed == PlaceStaves(acc, staves, place)
  {
    placed := acc;
    var j := 0;
    while j < |staves|
      invariant 0 <= j <= |staves|
      invariant StavesWellFormed(staves[..j])
      invariant placed == PlaceStaves(acc, staves[..j], place)
    {
      assert staves[..j + 1][..j] == staves[..j];
      placed := PlaceStaff(placed, staves[j], place);
      j := j + 1;
    }
    assert staves[..|staves|] == staves;
  }

  /** The staff path: the staves merged once per iteration, then the
      times dropped. */
  method StavesTimeslices(staves: seq<St.Staff>, k: nat, place: Place) returns (out: seq<T.Timeslice>)
    requires StavesWellFormed(staves)
    ensures out == StavesSlices(staves, k, place)
  {
    var placed: Placed := [];
    var iteration := 0;
    while iteration < k
      invariant 0 <= iteration <= k
      invariant placed == PlaceIterations(staves, iteration, place)
    {
      placed := PlaceAllStaves(placed, staves, place);
      iteration := iteration + 1;
    }
    out := seq(|placed|, i requires 0 <= i < |placed| => placed[i].1);
  }

  /** One iteration of the sub-section path: each group that plays on it,
      in turn. */
  method PlayRound(s: Section, groups: seq<Group>, iteration: U8, place: Place) returns (out: seq<T.Timeslice>)
    requires WellFormed(s) && groups == Groups(s.content, true)
    ensures out == RoundSlices(s, |groups|, iteration, place)
    decreases s, 2
  {
    out := [];
    var j := 0;
    while j < |groups|
      invariant 0 <= j <= |groups|
      invariant out == RoundSlices(s, j, iteration, place)
    {
      var played := PlayIfOn(s, groups, j, iteration, place);
      out := out + played;
      j := j + 1;
    }
  }

  /** The `j`-th group plays if it plays on the iteration, and adds nothing
      otherwise. */
  method PlayIfOn(s: Section, groups: seq<Group>, j: nat, iteration: U8, place: Place) returns (played: seq<T.Timeslice>)
    requires WellFormed(s) && groups == Groups(s.content, true) && j < |groups|
    ensures RoundSlices(s, j + 1, iteration, place) == RoundSlices(s, j, iteration, place) + played
    decreases s, 1
  {
    var g := groups[j];
    assert g in Groups(s.content, true);
    if PlaysOn(g, iteration) {
      played := PlayGroup(s, g, place);
    } else {
      played := [];
    }
  }

  /** What one group plays: an implicit group through the staff path,
      once; a sub-section through its own `iter_timeslices`. */
  method PlayGroup(s: Section, g: Group, place: Place) returns (played: seq<T.Timeslice>)
    requires WellFormed(s) && g in Groups(s.content, true)
    ensures played == GroupSlices(s, g, place)
    decreases s, 0
  {
    GroupWellFormed(s, g);
    match g {
      case Implicit(staves) =>
        played := StavesTimeslices(staves, 1, place);
      case Explicit(sub) =>
        played := IterTimeslices(sub, place);
    }
  }

  /** The sub-section path of `iter_timeslices`: every iteration of the
      section, one round after another. */
  method PlayRounds(s: Section, place: Place) returns (out: seq<T.Timeslice>)
    requires WellFormed(s) && HasSubSection(s.content)
    ensures out == RoundsSlices(s, TotalIterations(s) as nat, place)
    decreases s, 3
  {
    var groups := BuildGroups(s.content);
    var total := TotalIterations(s);
    out := [];
    var iteration := 0;
    while iteration < total as nat
      invariant 0 <= iteration <= total as nat
      invariant out == RoundsSlices(s, iteration, place)
    {
      var round := PlayRound(s, groups, iteration as U8, place);
      out := out + round;
      iteration := iteration + 1;
    }
  }

  /** `Section::iter_timeslices`, loop for loop, except that the groups are
      the corrected ones, `Groups(s.content, true)`: the opening staff of a
      run of staves is played. The code as written drops it
      (`OpeningStaffDroppedAsWritten`). */
  method IterTimeslices(s: Section, place: Place) returns (out: seq<T.Timeslice>)
    requires WellFormed(s)
    ensures out == SectionSlices(s, place)
    decreases s, 4
  {
    if HasSubSection(s.content) {
      out := PlayRounds(s, place);
    } else {
      DirectStavesWellFormed(s.content);
      out := StavesTimeslices(DirectStaves(s.content), TotalIterations(s) as nat, place);
    }
  }
}

/** A section edited in place, as the `&mut self` methods of `Section` do;
    each method is the matching `Sections` function applied to the
    section's value, and a returned `&mut` item is its index. */
module SectionPlaces {
  import St = Staves
  import SM = SectionModifications
  import ModSets
  import Sections

  class SectionPlace {
    var id: nat
    var name: string
    var content: seq<Sections.SectionContent>
    var modifications: seq<SM.SectionModification>

    /** The section these fields hold. */
    function Value(): Sections.Section
      reads this
    {
      Sections.Section(id, name, content, modifications)
    }

    constructor (s: Sections.Section)
      ensures Value() == s
    {
      id, name, content, modifications := s.id, s.name, s.content, s.modifications;
    }

    /** `Section::rename`. */
    method Rename(newName: string)
      modifies this
      ensures Value() == Sections.Rename(old(Value()), newName)
    {
      name := newName;
    }

    /** `Section::claim_staff`: `retain` all but the direct staves of that
        name, then `push`. */
    method ClaimStaff(staff: St.Staff) returns (last: nat)
      modifies this
      ensures Value() == Sections.ClaimStaff(old(Value()), staff)
      ensures last == |content| - 1 && content[last] == Sections.StaffItem(staff)
    {
      content := ModSets.Retain(content, Sections.NotStaffNamed(staff.name));
      content := content + [Sections.StaffItem(staff)];
      last := |content| - 1;
    }

    /** `Section::add_staff`: claims a new empty staff. */
    method AddStaff(staffName: string, freshId: nat) returns (last: nat)
      modifies this
      ensures Value() == Sections.AddStaff(old(Value()), staffName, freshId)
      ensures last == |content| - 1 && content[last] == Sections.StaffItem(St.NewStaff(staffName, freshId))
    {
      last := ClaimStaff(St.NewStaff(staffName, freshId));
    }

    /** `Section::claim_section`: `push`. */
    method ClaimSection(sub: Sections.Section) returns (last: nat)
      modifies this
      ensures Value() == Sections.ClaimSection(old(Value()), sub)
      ensures last == |content| - 1 && content[last] == Sections.SubSection(sub)
    {
      content := content + [Sections.SubSection(sub)];
      last := |content| - 1;
    }

    /** `Section::add_section`: claims a new empty section. */
    method AddSection(sectionName: string, freshId: nat) returns (last: nat)
      modifies this
      ensures Value() == Sections.AddSection(old(Value()), sectionName, freshId)
      ensures last == |content| - 1 && content[last] == Sections.SubSection(Sections.NewSection(sectionName, freshId))
    {
      last := ClaimSection(Sections.NewSection(sectionName, freshId));
    }

    /** `Section::add_modification`: `retain` the other types, then `push`. */
    method AddModification(kind: SM.SectionModificationType, freshId: nat) returns (last: nat)
      modifies this
      ensures Value() == Sections.AddModification(old(Value()), kind, freshId)
      ensures last == |modifications| - 1 && modifications[last] == SM.NewSectionModification(kind, freshId)
    {
      modifications := ModSets.Retain(modifications, Sections.OtherKind(kind));
      modifications := modifications + [SM.NewSectionModification(kind, freshId)];
      last := |modifications| - 1;
    }

    /** `Section::remove_modification`: `retain` over the modifications. */
    method RemoveModification(modId: nat)
      modifies this
      ensures Value() == Sections.RemoveModification(old(Value()), modId)
    {
      modifications := ModSets.Retain(modifications, Sections.OtherModId(modId));
    }
  }
}

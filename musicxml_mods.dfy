/** The phases of the MusicXML loader's `ensure_valid_mod_overlaps` that
    collect the ranges of phrase modifications from the per-instant
    containers, drop the ranges that cover a single sounding instant, and
    write the ranges back as start and end entries. */
module MusicXmlModRanges {
  import opened Wrappers
  import opened MusicXml
  import PM = PhraseModifications

  /** A phrase modification spanning the containers from `start` to `end`;
      an `end` of 0 means that no end was found. */
  datatype ModRange = ModRange(kind: PM.PhraseModificationType, start: nat, end: nat)

  /** The unmatched starts of one variant, and the index of its range. */
  datatype OpenMod = OpenMod(count: nat, index: nat)

  /** The collection loop's state: the last non-empty container seen, the
      map from each non-empty container to the next one, the ranges so far
      and the open variants, keyed by their variant position (the ordering
      that `BTreeMap` uses for these keys). */
  datatype Collection = Collection(
    lastValid: nat,
    valid: map<nat, nat>,
    ranges: seq<ModRange>,
    open: map<nat, OpenMod>)

  const InitialCollection: Collection := Collection(0, map[], [], map[])

  /** Each open variant has unmatched starts and points at an unfinished
      range of that variant. */
  predicate OpenWellFormed(c: Collection) {
    forall k :: k in c.open ==>
      && c.open[k].count >= 1
      && c.open[k].index < |c.ranges|
      && c.ranges[c.open[k].index].end == 0
      && PM.Rank(c.ranges[c.open[k].index].kind) == k
  }

  /** Recording a non-empty container at `idx`: it becomes a key mapped to
      0, and the previous non-empty container is mapped to it. */
  function NoteValid(c: Collection, idx: nat): (r: Collection)
    ensures r.ranges == c.ranges && r.open == c.open
  {
    var valid := c.valid[idx := 0];
    c.(valid := if c.lastValid in valid then valid[c.lastValid := idx] else valid, lastValid := idx)
  }

  /** A section start or a direction ends every unfinished range here. */
  function CloseAtBoundary(ranges: seq<ModRange>, idx: nat): (r: seq<ModRange>)
    ensures |r| == |ranges|
    ensures forall i :: 0 <= i < |ranges| ==>
      r[i] == if ranges[i].end == 0 then ranges[i].(end := idx) else ranges[i]
  {
    seq(|ranges|, i requires 0 <= i < |ranges| => if ranges[i].end == 0 then ranges[i].(end := idx) else ranges[i])
  }

  /** One end entry: it matches the open range of its variant, if any, and
      closes it here once every start of that variant is matched. */
  function CloseOne(c: Collection, e: PhraseModDetails, idx: nat): (r: Collection)
    requires OpenWellFormed(c)
    ensures OpenWellFormed(r)
    ensures r.lastValid == c.lastValid && r.valid == c.valid && |r.ranges| == |c.ranges|
    ensures forall i :: 0 <= i < |c.ranges| ==> r.ranges[i].start == c.ranges[i].start
  {
    var key := PM.Rank(e.modification);
    if key in c.open then
      var o := c.open[key];
      if o.count - 1 == 0 then
        var r := c.(ranges := c.ranges[o.index := c.ranges[o.index].(end := idx)], open := c.open - {key});
        assert forall k :: k in r.open ==> c.open[k].index != o.index;
        r
      else c.(open := c.open[key := OpenMod(o.count - 1, o.index)])
    else c
  }

  /** The end entries of a container, in order. */
  function CloseEnds(c: Collection, ends: seq<PhraseModDetails>, idx: nat): (r: Collection)
    requires OpenWellFormed(c)
    ensures OpenWellFormed(r)
    ensures r.lastValid == c.lastValid && r.valid == c.valid && |r.ranges| == |c.ranges|
    ensures forall i :: 0 <= i < |c.ranges| ==> r.ranges[i].start == c.ranges[i].start
  {
    if ends == [] then c else CloseOne(CloseEnds(c, ends[..|ends| - 1], idx), ends[|ends| - 1], idx)
  }

  /** One start entry: another start of an open variant is counted;
      otherwise a new range opens here. */
  function OpenOne(c: Collection, s: PhraseModDetails, idx: nat): (r: Collection)
    requires OpenWellFormed(c)
    ensures OpenWellFormed(r)
    ensures r.lastValid == c.lastValid && r.valid == c.valid
  {
    var key := PM.Rank(s.modification);
    if key in c.open then c.(open := c.open[key := OpenMod(c.open[key].count + 1, c.open[key].index)])
    else c.(open := c.open[key := OpenMod(1, |c.ranges|)], ranges := c.ranges + [ModRange(s.modification, idx, 0)])
  }

  /** The start entries of a container, in order. */
  function OpenStarts(c: Collection, starts: seq<PhraseModDetails>, idx: nat): (r: Collection)
    requires OpenWellFormed(c)
    ensures OpenWellFormed(r)
    ensures r.lastValid == c.lastValid && r.valid == c.valid
  {
    if starts == [] then c else OpenOne(OpenStarts(c, starts[..|starts| - 1], idx), starts[|starts| - 1], idx)
  }

  /** A container at `idx` begins a section or holds a direction. */
  predicate IsBoundary(slice: TimeSliceContainer, idx: nat, sectionStarts: set<nat>) {
    idx in sectionStarts || slice.direction != []
  }

  /** The state after the boundary check of the container at `idx`. */
  function AfterBoundary(c: Collection, slice: TimeSliceContainer, idx: nat, sectionStarts: set<nat>): (r: Collection)
    ensures r.lastValid == c.lastValid && r.valid == c.valid && |r.ranges| == |c.ranges|
    ensures forall i :: 0 <= i < |c.ranges| ==> r.ranges[i].start == c.ranges[i].start
  {
    if IsBoundary(slice, idx, sectionStarts) then c.(ranges := CloseAtBoundary(c.ranges, idx), open := map[]) else c
  }

  /** One iteration of the collection loop, on the container at `idx`. */
  function Step(c: Collection, slice: TimeSliceContainer, idx: nat, sectionStarts: set<nat>): (r: Collection)
    requires OpenWellFormed(c)
    ensures OpenWellFormed(r)
  {
    var c1 := if !slice.IsEmpty() then NoteValid(c, idx) else c;
    var c2 := AfterBoundary(c1, slice, idx, sectionStarts);
    var c3 := CloseEnds(c2, slice.phraseModificationEnd, idx);
    OpenStarts(c3, slice.phraseModificationStart, idx)
  }

  /** The collection loop over the first `n` containers. */
  function Collect(slices: seq<TimeSliceContainer>, sectionStarts: set<nat>, n: nat): (r: Collection)
    requires n <= |slices|
    ensures OpenWellFormed(r)
  {
    if n == 0 then InitialCollection
    else Step(Collect(slices, sectionStarts, n - 1), slices[n - 1], n - 1, sectionStarts)
  }

  /** The collection over one more container is one more iteration. */
  lemma CollectIsStep(slices: seq<TimeSliceContainer>, sectionStarts: set<nat>, n: nat)
    requires 0 < n <= |slices|
    ensures Collect(slices, sectionStarts, n) == Step(Collect(slices, sectionStarts, n - 1), slices[n - 1], n - 1, sectionStarts)
  {
  }

  /** A container with its start and end entries removed. */
  function ClearMods(slice: TimeSliceContainer): TimeSliceContainer {
    slice.(phraseModificationStart := [], phraseModificationEnd := [])
  }

  /** The boundary loop: every unfinished range ends at `idx`. */
  method CloseUnfinished(ranges: seq<ModRange>, idx: nat) returns (r: seq<ModRange>)
    ensures r == CloseAtBoundary(ranges, idx)
  {
    r := ranges;
    var i := 0;
    while i < |r|
      invariant i <= |r| == |ranges|
      invariant forall l :: 0 <= l < i ==> r[l] == CloseAtBoundary(ranges, idx)[l]
      invariant forall l :: i <= l < |r| ==> r[l] == ranges[l]
    {
      if r[i].end == 0 {
        r := r[i := r[i].(end := idx)];
      }
      i := i + 1;
    }
  }

  /** The body of the loop over end entries, for one entry. */
  method MatchEnd(c: Collection, e: PhraseModDetails, idx: nat) returns (r: Collection)
    requires OpenWellFormed(c)
    ensures r == CloseOne(c, e, idx)
  {
    r := c;
    var key := PM.Rank(e.modification);
    if key in r.open {
      var o := r.open[key];
      var count := o.count - 1;
      if count == 0 {
        r := r.(ranges := r.ranges[o.index := r.ranges[o.index].(end := idx)], open := r.open - {key});
      } else {
        r := r.(open := r.open[key := OpenMod(count, o.index)]);
      }
    }
  }

  /** The loop over a container's end entries. */
  method MatchEnds(c: Collection, ends: seq<PhraseModDetails>, idx: nat) returns (r: Collection)
    requires OpenWellFormed(c)
    ensures r == CloseEnds(c, ends, idx)
  {
    r := c;
    var e := 0;
    while e < |ends|
      invariant e <= |ends|
      invariant r == CloseEnds(c, ends[..e], idx)
    {
      assert ends[..e + 1][..e] == ends[..e];
      r := MatchEnd(r, ends[e], idx);
      e := e + 1;
    }
    assert ends[..e] == ends;
  }

  /** The body of the loop over start entries, for one entry. */
  method MatchStart(c: Collection, s: PhraseModDetails, idx: nat) returns (r: Collection)
    requires OpenWellFormed(c)
    ensures r == OpenOne(c, s, idx)
  {
    r := c;
    var key := PM.Rank(s.modification);
    if key in r.open {
      r := r.(open := r.open[key := OpenMod(r.open[key].count + 1, r.open[key].index)]);
    } else {
      r := r.(open := r.open[key := OpenMod(1, |r.ranges|)], ranges := r.ranges + [ModRange(s.modification, idx, 0)]);
    }
  }

  /** The loop over a container's start entries. */
  method MatchStarts(c: Collection, starts: seq<PhraseModDetails>, idx: nat) returns (r: Collection)
    requires OpenWellFormed(c)
    ensures r == OpenStarts(c, starts, idx)
  {
    r := c;
    var s := 0;
    while s < |starts|
      invariant s <= |starts|
      invariant r == OpenStarts(c, starts[..s], idx)
    {
      assert starts[..s + 1][..s] == starts[..s];
      r := MatchStart(r, starts[s], idx);
      s := s + 1;
    }
    assert starts[..s] == starts;
  }

  /** The body of the collection loop, for the container at `idx`. */
  method CollectOne(c: Collection, slice: TimeSliceContainer, idx: nat, sectionStarts: set<nat>) returns (r: Collection)
    requires OpenWellFormed(c)
    ensures r == Step(c, slice, idx, sectionStarts)
  {
    r := c;
    if !slice.IsEmpty() {
      var v := r.valid[idx := 0];
      if r.lastValid in v {
        v := v[r.lastValid := idx];
      }
      r := r.(valid := v, lastValid := idx);
    }
    if idx in sectionStarts || slice.direction != [] {
      var closed := CloseUnfinished(r.ranges, idx);
      r := r.(ranges := closed, open := map[]);
    }
    r := MatchEnds(r, slice.phraseModificationEnd, idx);
    r := MatchStarts(r, slice.phraseModificationStart, idx);
  }

  /** The first phase of `ensure_valid_mod_overlaps`: it walks the
      containers in order, records which are non-empty and what follows
      each, pairs start and end entries into ranges, and clears the entries
      as it goes. */
  method CollectModRanges(slices: array<TimeSliceContainer>, sectionStarts: set<nat>)
    returns (ranges: seq<ModRange>, valid: map<nat, nat>)
    modifies slices
    ensures forall j :: 0 <= j < slices.Length ==> slices[j] == ClearMods(old(slices[j]))
    ensures ranges == Collect(old(slices[..]), sectionStarts, slices.Length).ranges
    ensures valid == Collect(old(slices[..]), sectionStarts, slices.Length).valid
  {
    ghost var orig := slices[..];
    var c := InitialCollection;
    var idx := 0;
    while idx < slices.Length
      invariant idx <= slices.Length
      invariant c == Collect(orig, sectionStarts, idx)
      invariant forall j :: 0 <= j < slices.Length ==> slices[j] == if j < idx then ClearMods(orig[j]) else orig[j]
    {
      var slice := slices[idx];
      CollectIsStep(orig, sectionStarts, idx + 1);
      c := CollectOne(c, slice, idx, sectionStarts);
      slices[idx] := ClearMods(slice);
      idx := idx + 1;
    }
    ranges, valid := c.ranges, c.valid;
  }

  // ----- What the collection establishes -----

  /** Every range starts before `n`, and a range with an end ends after
      its start and before `n`. */
  predicate Within(ranges: seq<ModRange>, n: nat) {
    forall i :: 0 <= i < |ranges| ==>
      ranges[i].start < n && (ranges[i].end == 0 || ranges[i].start < ranges[i].end < n)
  }

  /** The ranges before the start entries of container `idx` are handled:
      they start before it and end no later than it. */
  predicate StartsBefore(ranges: seq<ModRange>, idx: nat) {
    forall i :: 0 <= i < |ranges| ==>
      ranges[i].start < idx && (ranges[i].end == 0 || ranges[i].start < ranges[i].end <= idx)
  }

  lemma {:induction false} CloseEndsStartsBefore(c: Collection, ends: seq<PhraseModDetails>, idx: nat)
    requires OpenWellFormed(c) && StartsBefore(c.ranges, idx)
    ensures StartsBefore(CloseEnds(c, ends, idx).ranges, idx)
    decreases |ends|
  {
    if ends != [] {
      var c' := CloseEnds(c, ends[..|ends| - 1], idx);
      CloseEndsStartsBefore(c, ends[..|ends| - 1], idx);
      var key := PM.Rank(ends[|ends| - 1].modification);
      if key in c'.open {
        assert c'.ranges[c'.open[key].index].start < idx;
      }
    }
  }

  lemma {:induction false} OpenStartsWithin(c: Collection, starts: seq<PhraseModDetails>, idx: nat)
    requires OpenWellFormed(c) && StartsBefore(c.ranges, idx)
    ensures Within(OpenStarts(c, starts, idx).ranges, idx + 1)
    ensures forall i :: |c.ranges| <= i < |OpenStarts(c, starts, idx).ranges| ==>
      OpenStarts(c, starts, idx).ranges[i].start == idx
    ensures c.ranges <= OpenStarts(c, starts, idx).ranges
    ensures |c.ranges| < |OpenStarts(c, starts, idx).ranges| ==> starts != []
    decreases |starts|
  {
    if starts != [] {
      OpenStartsWithin(c, starts[..|starts| - 1], idx);
    }
  }

  lemma AfterBoundaryStartsBefore(c: Collection, slice: TimeSliceContainer, idx: nat, sectionStarts: set<nat>)
    requires Within(c.ranges, idx)
    ensures StartsBefore(AfterBoundary(c, slice, idx, sectionStarts).ranges, idx)
  {
    var r := AfterBoundary(c, slice, idx, sectionStarts).ranges;
    forall i | 0 <= i < |r|
      ensures r[i].start < idx && (r[i].end == 0 || r[i].start < r[i].end <= idx)
    {
      assert c.ranges[i].start < idx;
    }
  }

  /** One step keeps the ranges within the containers walked so far, and a
      range opened by the step starts at its container, which held a start
      entry. */
  lemma StepWithin(c: Collection, slice: TimeSliceContainer, idx: nat, sectionStarts: set<nat>)
    requires OpenWellFormed(c) && Within(c.ranges, idx)
    ensures Within(Step(c, slice, idx, sectionStarts).ranges, idx + 1)
    ensures forall i :: 0 <= i < |Step(c, slice, idx, sectionStarts).ranges| ==>
      if i < |c.ranges| then Step(c, slice, idx, sectionStarts).ranges[i].start == c.ranges[i].start
      else Step(c, slice, idx, sectionStarts).ranges[i].start == idx && slice.phraseModificationStart != []
  {
    var c1 := if !slice.IsEmpty() then NoteValid(c, idx) else c;
    assert c1.ranges == c.ranges;
    var c2 := AfterBoundary(c1, slice, idx, sectionStarts);
    AfterBoundaryStartsBefore(c1, slice, idx, sectionStarts);
    CloseEndsStartsBefore(c2, slice.phraseModificationEnd, idx);
    var c3 := CloseEnds(c2, slice.phraseModificationEnd, idx);
    OpenStartsWithin(c3, slice.phraseModificationStart, idx);
  }

  /** Collection pairs starts with later ends: every range starts at a
      container already walked, and a closed range ends after it starts. */
  lemma {:induction false} CollectWithin(slices: seq<TimeSliceContainer>, sectionStarts: set<nat>, n: nat)
    requires n <= |slices|
    ensures Within(Collect(slices, sectionStarts, n).ranges, n)
  {
    if n > 0 {
      var c := Collect(slices, sectionStarts, n - 1);
      CollectWithin(slices, sectionStarts, n - 1);
      StepWithin(c, slices[n - 1], n - 1, sectionStarts);
      CollectIsStep(slices, sectionStarts, n);
    }
  }

  /** Every range starts at a container that held a start entry. */
  predicate StartsMarked(slices: seq<TimeSliceContainer>, ranges: seq<ModRange>) {
    forall i :: 0 <= i < |ranges| ==>
      ranges[i].start < |slices| && slices[ranges[i].start].phraseModificationStart != []
  }

  lemma {:induction false} CollectStartsMarked(slices: seq<TimeSliceContainer>, sectionStarts: set<nat>, n: nat)
    requires n <= |slices|
    ensures StartsMarked(slices, Collect(slices, sectionStarts, n).ranges)
  {
    if n > 0 {
      var c := Collect(slices, sectionStarts, n - 1);
      CollectStartsMarked(slices, sectionStarts, n - 1);
      CollectWithin(slices, sectionStarts, n - 1);
      StepWithin(c, slices[n - 1], n - 1, sectionStarts);
      var r := Step(c, slices[n - 1], n - 1, sectionStarts);
      assert r == Collect(slices, sectionStarts, n);
      forall i | 0 <= i < |r.ranges|
        ensures r.ranges[i].start < |slices| && slices[r.ranges[i].start].phraseModificationStart != []
      {
        if i < |c.ranges| {
          assert r.ranges[i].start == c.ranges[i].start;
        }
      }
    }
  }

  /** Which containers hold anything at all. */
  function Filled(slices: seq<TimeSliceContainer>): (r: seq<bool>)
    ensures |r| == |slices|
    ensures forall j :: 0 <= j < |slices| ==> (r[j] <==> !slices[j].IsEmpty())
  {
    seq(|slices|, j requires 0 <= j < |slices| => !slices[j].IsEmpty())
  }

  /** `next` is the filled container that follows `k` among the first `n`,
      where 0 stands for none: the reading the collection gives its map. */
  predicate FollowsAsNext(filled: seq<bool>, n: nat, k: nat, next: nat)
    requires n <= |filled|
  {
    || (next == 0 && forall j :: k < j < n ==> !filled[j])
    || (k < next < n && filled[next] && forall j :: k < j < next ==> !filled[j])
  }

  /** At most one container follows `k` as its next filled one. */
  lemma FollowsAsNextUnique(filled: seq<bool>, n: nat, k: nat, a: nat, b: nat)
    requires n <= |filled|
    requires FollowsAsNext(filled, n, k, a) && FollowsAsNext(filled, n, k, b)
    ensures a == b
  {
  }

  /** The keys of the map the collection builds are exactly the filled
      containers so far. */
  ghost predicate KeysFilled(filled: seq<bool>, n: nat, valid: map<nat, nat>)
    requires n <= |filled|
  {
    forall k: nat :: k in valid <==> k < n && filled[k]
  }

  /** Each key maps to the next filled container (0 when none). */
  predicate NextsFollow(filled: seq<bool>, n: nat, valid: map<nat, nat>)
    requires n <= |filled|
  {
    forall k :: k in valid ==> FollowsAsNext(filled, n, k, valid[k])
  }

  /** The map the collection builds has exactly the filled containers as
      keys, and maps each to the next filled container (0 when none). */
  ghost predicate ValidMapMeaning(filled: seq<bool>, n: nat, valid: map<nat, nat>)
    requires n <= |filled|
  {
    KeysFilled(filled, n, valid) && NextsFollow(filled, n, valid)
  }

  /** `lastValid` is the last filled container so far, or 0 when none. */
  predicate LastValidMeaning(filled: seq<bool>, n: nat, lastValid: nat, valid: map<nat, nat>)
    requires n <= |filled|
  {
    && (forall j :: lastValid < j < n ==> !filled[j])
    && (lastValid !in valid ==> lastValid == 0 && forall j :: 0 <= j < n ==> !filled[j])
  }

  /** An empty container is no key and follows no key. */
  lemma FollowsPastEmpty(filled: seq<bool>, idx: nat, k: nat, next: nat)
    requires idx < |filled| && !filled[idx]
    requires FollowsAsNext(filled, idx, k, next)
    ensures FollowsAsNext(filled, idx + 1, k, next)
  {
  }

  /** An empty container changes neither the map nor the last filled
      container, and both keep their meaning one container further. */
  lemma {:induction false} EmptyKeepsValidMeaning(filled: seq<bool>, idx: nat, c: Collection)
    requires idx < |filled| && !filled[idx]
    requires ValidMapMeaning(filled, idx, c.valid) && LastValidMeaning(filled, idx, c.lastValid, c.valid)
    ensures ValidMapMeaning(filled, idx + 1, c.valid) && LastValidMeaning(filled, idx + 1, c.lastValid, c.valid)
  {
    forall k | k in c.valid
      ensures FollowsAsNext(filled, idx + 1, k, c.valid[k])
    {
      FollowsPastEmpty(filled, idx, k, c.valid[k]);
    }
  }

  /** A filled container adds itself to the keys. */
  lemma NoteKeys(filled: seq<bool>, idx: nat, c: Collection)
    requires idx < |filled| && filled[idx]
    requires KeysFilled(filled, idx, c.valid)
    ensures KeysFilled(filled, idx + 1, NoteValid(c, idx).valid)
  {
  }

  /** The last filled container before a filled one is followed by it. */
  lemma LastFollowedByNote(filled: seq<bool>, idx: nat, last: nat)
    requires last < idx < |filled| && filled[idx]
    requires forall j :: last < j < idx ==> !filled[j]
    ensures FollowsAsNext(filled, idx + 1, last, idx)
  {
  }

  /** A key before the last filled container already maps to a container
      before `idx`, so one more container leaves its meaning unchanged. */
  lemma OldKeyStillFollows(filled: seq<bool>, idx: nat, k: nat, last: nat, next: nat)
    requires idx < |filled| && k < last < idx && filled[last]
    requires FollowsAsNext(filled, idx, k, next)
    ensures FollowsAsNext(filled, idx + 1, k, next)
  {
  }

  /** A filled container becomes a key, is what the previous filled
      container now maps to, and becomes the last filled container. */
  lemma {:induction false} NoteValidMeaning(filled: seq<bool>, idx: nat, c: Collection)
    requires idx < |filled| && filled[idx]
    requires ValidMapMeaning(filled, idx, c.valid) && LastValidMeaning(filled, idx, c.lastValid, c.valid)
    ensures ValidMapMeaning(filled, idx + 1, NoteValid(c, idx).valid)
    ensures LastValidMeaning(filled, idx + 1, NoteValid(c, idx).lastValid, NoteValid(c, idx).valid)
  {
    var r := NoteValid(c, idx);
    NoteKeys(filled, idx, c);
    forall k | k in r.valid
      ensures FollowsAsNext(filled, idx + 1, k, r.valid[k])
    {
      if k == idx {
        assert r.valid[k] == 0;
      } else if k == c.lastValid {
        assert r.valid[k] == idx;
        LastFollowedByNote(filled, idx, k);
      } else {
        assert k in c.valid && c.lastValid in c.valid;
        assert k < c.lastValid;
        OldKeyStillFollows(filled, idx, k, c.lastValid, c.valid[k]);
      }
    }
  }

  /** What the map and the last filled container mean after the
      collection has walked `n` containers. */
  lemma {:induction false} CollectValid(slices: seq<TimeSliceContainer>, sectionStarts: set<nat>, n: nat)
    requires n <= |slices|
    ensures ValidMapMeaning(Filled(slices), n, Collect(slices, sectionStarts, n).valid)
    ensures LastValidMeaning(Filled(slices), n, Collect(slices, sectionStarts, n).lastValid, Collect(slices, sectionStarts, n).valid)
  {
    if n > 0 {
      var idx := n - 1;
      var c := Collect(slices, sectionStarts, idx);
      var filled := Filled(slices);
      CollectValid(slices, sectionStarts, idx);
      StepValid(c, slices[idx], idx, sectionStarts);
      assert Collect(slices, sectionStarts, n) == Step(c, slices[idx], idx, sectionStarts);
      if slices[idx].IsEmpty() {
        assert !filled[idx];
        EmptyKeepsValidMeaning(filled, idx, c);
      } else {
        assert filled[idx];
        NoteValidMeaning(filled, idx, c);
      }
    }
  }

  /** Of one iteration, only the check for an empty container touches the
      map and the last filled container. */
  lemma StepValid(c: Collection, slice: TimeSliceContainer, idx: nat, sectionStarts: set<nat>)
    requires OpenWellFormed(c)
    ensures var c1 := if !slice.IsEmpty() then NoteValid(c, idx) else c;
      Step(c, slice, idx, sectionStarts).valid == c1.valid && Step(c, slice, idx, sectionStarts).lastValid == c1.lastValid
  {
  }

  // ----- Dropping ranges that cover one sounding instant -----

  /** The variants that mean nothing on a single note. */
  predicate NeedsTwoInstants(kind: PM.PhraseModificationType) {
    kind.Legato? || kind.Crescendo? || kind.Decrescendo?
  }

  /** A legato, crescendo or decrescendo range whose end is the non-empty
      container right after its start. */
  predicate CoversOneInstant(x: ModRange, valid: map<nat, nat>) {
    NeedsTwoInstants(x.kind) && x.start in valid && valid[x.start] == x.end
  }

  /** The `retain` that removes single-note legato and dynamic ranges,
      keeping the rest in order. */
  function DropSingleSliceRanges(ranges: seq<ModRange>, valid: map<nat, nat>): (r: seq<ModRange>)
    ensures |r| <= |ranges|
    ensures forall x :: x in r <==> x in ranges && !CoversOneInstant(x, valid)
  {
    if ranges == [] then []
    else
      var rest := DropSingleSliceRanges(ranges[1..], valid);
      assert forall x :: x in ranges <==> x == ranges[0] || x in ranges[1..];
      if CoversOneInstant(ranges[0], valid) then rest else [ranges[0]] + rest
  }

  /** Read against the containers: a collected legato, crescendo or
      decrescendo range is dropped exactly when no non-empty container lies
      strictly between its start and its end, and its end is non-empty or
      it never ended and nothing non-empty follows it. */
  lemma DroppedMeansAdjacent(slices: seq<TimeSliceContainer>, sectionStarts: set<nat>, x: ModRange)
    requires x in Collect(slices, sectionStarts, |slices|).ranges
    ensures var valid := Collect(slices, sectionStarts, |slices|).valid;
      x !in DropSingleSliceRanges(Collect(slices, sectionStarts, |slices|).ranges, valid)
      <==> NeedsTwoInstants(x.kind) && FollowsAsNext(Filled(slices), |slices|, x.start, x.end)
  {
    var c := Collect(slices, sectionStarts, |slices|);
    var filled := Filled(slices);
    CollectStartsMarked(slices, sectionStarts, |slices|);
    CollectValid(slices, sectionStarts, |slices|);
    var i :| 0 <= i < |c.ranges| && c.ranges[i] == x;
    assert filled[x.start];
    assert x.start in c.valid;
    var v := c.valid[x.start];
    assert FollowsAsNext(filled, |slices|, x.start, v);
    if FollowsAsNext(filled, |slices|, x.start, x.end) {
      FollowsAsNextUnique(filled, |slices|, x.start, v, x.end);
    }
  }

  // ----- Writing the ranges back -----

  /** The start entry for the `i`th range; it is combined with the next
      range when that one spans the same containers. */
  function StartEntry(ranges: seq<ModRange>, i: nat): PhraseModDetails
    requires i < |ranges|
  {
    PhraseModDetails(ranges[i].kind, true, None, None,
      i + 1 < |ranges| && ranges[i + 1].start == ranges[i].start && ranges[i + 1].end == ranges[i].end)
  }

  /** The end entry for a range of variant `kind`. */
  function EndEntry(kind: PM.PhraseModificationType): PhraseModDetails {
    PhraseModDetails(kind, false, None, None, false)
  }

  /** The start entries that the first `upto` ranges put on container `j`. */
  function StartsAt(ranges: seq<ModRange>, upto: nat, j: nat): seq<PhraseModDetails>
    requires upto <= |ranges|
  {
    if upto == 0 then []
    else StartsAt(ranges, upto - 1, j) + (if ranges[upto - 1].start == j then [StartEntry(ranges, upto - 1)] else [])
  }

  /** The end entries that the first `upto` ranges put on container `j`. */
  function EndsAt(ranges: seq<ModRange>, upto: nat, j: nat): seq<PhraseModDetails>
    requires upto <= |ranges|
  {
    if upto == 0 then []
    else EndsAt(ranges, upto - 1, j) + (if ranges[upto - 1].end == j then [EndEntry(ranges[upto - 1].kind)] else [])
  }

  /** Each range puts its start entry on its start container and nothing
      else is put there. */
  lemma {:induction false} StartsAtMembership(ranges: seq<ModRange>, upto: nat, j: nat, x: PhraseModDetails)
    requires upto <= |ranges|
    ensures x in StartsAt(ranges, upto, j) <==> exists i :: 0 <= i < upto && ranges[i].start == j && x == StartEntry(ranges, i)
  {
    if upto > 0 {
      StartsAtMembership(ranges, upto - 1, j, x);
    }
  }

  /** Each range puts an end entry of its variant on its end container and
      nothing else is put there. */
  lemma {:induction false} EndsAtMembership(ranges: seq<ModRange>, upto: nat, j: nat, x: PhraseModDetails)
    requires upto <= |ranges|
    ensures x in EndsAt(ranges, upto, j) <==> exists i :: 0 <= i < upto && ranges[i].end == j && x == EndEntry(ranges[i].kind)
  {
    if upto > 0 {
      EndsAtMembership(ranges, upto - 1, j, x);
    }
  }

  /** Every range yields one start entry and one end entry: summed over the
      containers, the entries number the ranges. */
  function StartCount(ranges: seq<ModRange>, upto: nat, n: nat): nat
    requires upto <= |ranges|
  {
    if n == 0 then 0 else StartCount(ranges, upto, n - 1) + |StartsAt(ranges, upto, n - 1)|
  }

  /** Every start container is one of the containers. */
  predicate InBounds(ranges: seq<ModRange>, n: nat) {
    forall x :: x in ranges ==> x.start < n && x.end < n
  }

  lemma {:induction false} StartCountStep(ranges: seq<ModRange>, upto: nat, n: nat)
    requires 0 < upto <= |ranges|
    ensures StartCount(ranges, upto, n) == StartCount(ranges, upto - 1, n) + (if ranges[upto - 1].start < n then 1 else 0)
  {
    if n > 0 {
      StartCountStep(ranges, upto, n - 1);
    }
  }

  lemma {:induction false} NoRangesNoStarts(ranges: seq<ModRange>, n: nat)
    ensures StartCount(ranges, 0, n) == 0
  {
    if n > 0 {
      NoRangesNoStarts(ranges, n - 1);
    }
  }

  lemma {:induction false} StartCountIsRangeCount(ranges: seq<ModRange>, upto: nat, n: nat)
    requires upto <= |ranges| && InBounds(ranges, n)
    ensures StartCount(ranges, upto, n) == upto
  {
    if upto > 0 {
      StartCountIsRangeCount(ranges, upto - 1, n);
      StartCountStep(ranges, upto, n);
    } else {
      NoRangesNoStarts(ranges, n);
    }
  }

  function WithStart(x: TimeSliceContainer, d: PhraseModDetails): TimeSliceContainer {
    x.(phraseModificationStart := x.phraseModificationStart + [d])
  }

  function WithEnd(x: TimeSliceContainer, d: PhraseModDetails): TimeSliceContainer {
    x.(phraseModificationEnd := x.phraseModificationEnd + [d])
  }

  /** Container `j` after the first `upto` ranges have been written back:
      their entries appended to its start and end lists. */
  function Emitted(x: TimeSliceContainer, ranges: seq<ModRange>, upto: nat, j: nat): TimeSliceContainer
    requires upto <= |ranges|
  {
    x.(phraseModificationStart := x.phraseModificationStart + StartsAt(ranges, upto, j),
       phraseModificationEnd := x.phraseModificationEnd + EndsAt(ranges, upto, j))
  }

  lemma EmittedStep(x: TimeSliceContainer, ranges: seq<ModRange>, i: nat, j: nat)
    requires i < |ranges|
    ensures var y := Emitted(x, ranges, i, j);
      var z := if ranges[i].start == j then WithStart(y, StartEntry(ranges, i)) else y;
      Emitted(x, ranges, i + 1, j) == if ranges[i].end == j then WithEnd(z, EndEntry(ranges[i].kind)) else z
  {
    assert StartsAt(ranges, i + 1, j) == StartsAt(ranges, i, j) + (if ranges[i].start == j then [StartEntry(ranges, i)] else []);
    assert EndsAt(ranges, i + 1, j) == EndsAt(ranges, i, j) + (if ranges[i].end == j then [EndEntry(ranges[i].kind)] else []);
  }

  /** The last phase of `ensure_valid_mod_overlaps`: every range appends its
      start entry to its start container and its end entry to its end
      container. */
  method EmitModRanges(slices: array<TimeSliceContainer>, ranges: seq<ModRange>)
    requires InBounds(ranges, slices.Length)
    modifies slices
    ensures forall j :: 0 <= j < slices.Length ==> slices[j] == Emitted(old(slices[j]), ranges, |ranges|, j)
  {
    ghost var orig := slices[..];
    var i := 0;
    while i < |ranges|
      invariant i <= |ranges|
      invariant forall j :: 0 <= j < slices.Length ==> slices[j] == Emitted(orig[j], ranges, i, j)
    {
      var combineWithNext := i + 1 < |ranges| && ranges[i + 1].start == ranges[i].start && ranges[i + 1].end == ranges[i].end;
      var s, e := ranges[i].start, ranges[i].end;
      assert ranges[i] in ranges;
      slices[s] := WithStart(slices[s], PhraseModDetails(ranges[i].kind, true, None, None, combineWithNext));
      slices[e] := WithEnd(slices[e], PhraseModDetails(ranges[i].kind, false, None, None, false));
      forall j | 0 <= j < slices.Length
        ensures slices[j] == Emitted(orig[j], ranges, i + 1, j)
      {
        EmittedStep(orig[j], ranges, i, j);
      }
      i := i + 1;
    }
  }

  lemma WithinInBounds(ranges: seq<ModRange>, n: nat)
    requires Within(ranges, n)
    ensures InBounds(ranges, n)
  {
  }

  /** `ensure_valid_mod_overlaps` as a whole. The overlap passes that
      reorder and split the collected ranges are the parameter `resolve`,
      of which only that it keeps ranges on existing containers is known. */
  method EnsureValidModOverlaps(slices: array<TimeSliceContainer>, sectionStarts: set<nat>,
                                resolve: seq<ModRange> -> seq<ModRange>)
    requires forall rs :: InBounds(rs, slices.Length) ==> InBounds(resolve(rs), slices.Length)
    modifies slices
    ensures var c := Collect(old(slices[..]), sectionStarts, slices.Length);
      var kept := DropSingleSliceRanges(resolve(c.ranges), c.valid);
      forall j :: 0 <= j < slices.Length ==> slices[j] == old(slices[j]).(
        phraseModificationStart := StartsAt(kept, |kept|, j),
        phraseModificationEnd := EndsAt(kept, |kept|, j))
  {
    ghost var orig := slices[..];
    var ranges, valid := CollectModRanges(slices, sectionStarts);
    CollectWithin(orig, sectionStarts, slices.Length);
    WithinInBounds(ranges, slices.Length);
    ranges := resolve(ranges);
    ranges := DropSingleSliceRanges(ranges, valid);
    EmitModRanges(slices, ranges);
  }
}

/** Placing a part's slice into the score-wide list of slices ordered by
    start time, merging it with the slices of other parts that start at the
    same instant. */
module Temporal {
  import opened Wrappers
  import opened Durations
  import opened Timeslices

  /** Start time (in beats of a 2048th note) and the slices starting then. */
  type Entry = (real, PartTimeslice)

  /** The beat base the start times are counted in. */
  const BeatBaseNote := Duration(TwoThousandFortyEighth, 0)

  /** Start times strictly increase along a list of timed entries. */
  predicate StartsIncrease<T>(ts: seq<(real, T)>) {
    forall i, j :: 0 <= i < j < |ts| ==> ts[i].0 < ts[j].0
  }

  /** The first position at or after `i` whose entry does not start before `t`. */
  function NextSlot<T>(ts: seq<(real, T)>, i: nat, t: real): (j: nat)
    requires i <= |ts|
    ensures i <= j <= |ts|
    ensures forall k :: i <= k < j ==> ts[k].0 < t
    ensures j < |ts| ==> ts[j].0 >= t
    decreases |ts| - i
  {
    if i == |ts| || ts[i].0 >= t then i else NextSlot(ts, i + 1, t)
  }

  /** Where `place_and_merge_part_timeslice` puts the slice, and the index it
      returns: past the end when the search starts there; otherwise at the
      first entry from `index` on that does not start earlier, merged into it
      when it starts at the same time, inserted before it when later, and
      appended when there is none. */
  function Placed(partName: string, ts: seq<Entry>, slice: Timeslice, index: nat, currTime: real): (r: (seq<Entry>, nat))
  {
    var single := (currTime, PartTimesliceFrom(partName, slice));
    if index >= |ts| then (ts + [single], index + 1)
    else
      var j := NextSlot(ts, index, currTime);
      if j == |ts| then (ts + [single], j + 1)
      else if ts[j].0 == currTime then (ts[j := (ts[j].0, AddTimeslice(ts[j].1, partName, slice))], j + 1)
      else (ts[..j] + [single] + ts[j..], j + 1)
  }

  /** `place_and_merge_part_timeslice`: places the slice, then returns the
      index after it and the time at which the slice ends, measured in the
      beats of a 2048th note. */
  method PlaceAndMerge(partName: string, timeslices: seq<Entry>, slice: Timeslice, index: nat, currTime: real)
    returns (result: seq<Entry>, nextIndex: nat, endTime: real)
    requires Measurable(slice)
    ensures (result, nextIndex) == Placed(partName, timeslices, slice, index, currTime)
    ensures endTime == currTime + TimesliceBeats(slice, BeatBaseNote)
  {
    result, nextIndex := PlaceSlice(partName, timeslices, slice, index, currTime);
    endTime := currTime + TimesliceBeats(slice, BeatBaseNote);
  }

  /** The placing step: walks from `index` past the entries that start
      earlier (appending an empty entry at `curr_time` when it runs off the
      end), then merges into the entry starting at `curr_time` or inserts a
      new one before the later entry. */
  method PlaceSlice(partName: string, timeslices: seq<Entry>, slice: Timeslice, index: nat, currTime: real)
    returns (result: seq<Entry>, nextIndex: nat)
    ensures (result, nextIndex) == Placed(partName, timeslices, slice, index, currTime)
  {
    result := timeslices;
    var i := index;
    if i < |result| {
      var sliceTime := result[i].0;
      while currTime > sliceTime
        invariant index <= i <= |timeslices|
        invariant i < |timeslices| ==> result == timeslices && sliceTime == timeslices[i].0
        invariant i == |timeslices| ==> result == timeslices + [(currTime, NewPartTimeslice())] && sliceTime == currTime
        invariant forall k :: index <= k < i ==> timeslices[k].0 < currTime
        decreases |timeslices| - i
      {
        i := i + 1;
        if i < |result| {
          sliceTime := result[i].0;
        } else {
          result := result + [(currTime, NewPartTimeslice())];
          sliceTime := currTime;
        }
      }
      SlotFound(timeslices, index, i, currTime);
      var single := (currTime, PartTimesliceFrom(partName, slice));
      if sliceTime == currTime {
        if i == |timeslices| {
          AddToEmpty(partName, slice);
          result := result[i := (result[i].0, AddTimeslice(result[i].1, partName, slice))];
          assert result == timeslices + [single];
        } else {
          result := result[i := (result[i].0, AddTimeslice(result[i].1, partName, slice))];
        }
      } else {
        result := result[..i] + [single] + result[i..];
      }
    } else {
      result := result + [(currTime, PartTimesliceFrom(partName, slice))];
    }
    nextIndex := i + 1;
  }

  /** The position the loop stops at is the one `NextSlot` names. */
  lemma {:induction false} SlotFound<T>(ts: seq<(real, T)>, index: nat, i: nat, t: real)
    requires index <= i <= |ts|
    requires forall k :: index <= k < i ==> ts[k].0 < t
    requires i < |ts| ==> ts[i].0 >= t
    ensures NextSlot(ts, index, t) == i
    decreases i - index
  {
    if index < i {
      SlotFound(ts, index + 1, i, t);
    }
  }

  /** Adding a slice to an empty part slice gives the part slice made from it. */
  lemma AddToEmpty(partName: string, slice: Timeslice)
    ensures AddTimeslice(NewPartTimeslice(), partName, slice) == PartTimesliceFrom(partName, slice)
  {
  }

  /** An empty list receives the slice as its single entry. */
  lemma {:induction false} PlaceIntoEmpty(partName: string, slice: Timeslice, index: nat, currTime: real)
    ensures Placed(partName, [], slice, index, currTime) == ([(currTime, PartTimesliceFrom(partName, slice))], index + 1)
  {
    assert [] + [(currTime, PartTimesliceFrom(partName, slice))] == [(currTime, PartTimesliceFrom(partName, slice))];
  }

  /** From a sorted list whose entries before `index` all start earlier, the
      result is sorted, the entry before the returned index starts at
      `curr_time` and holds the slice under the part's name, and nothing else
      is lost. */
  lemma {:induction false} PlaceKeepsOrder(partName: string, ts: seq<Entry>, slice: Timeslice, index: nat, currTime: real)
    requires StartsIncrease(ts) && index <= |ts|
    requires forall k :: 0 <= k < index ==> ts[k].0 < currTime
    ensures var (r, next) := Placed(partName, ts, slice, index, currTime);
      StartsIncrease(r) && 1 <= next <= |r| && r[next - 1].0 == currTime
      && GetTimesliceFor(r[next - 1].1, partName) == Some(slice)
      && forall k :: 0 <= k < |ts| ==> exists m :: 0 <= m < |r| && r[m].0 == ts[k].0
  {
    var (r, next) := Placed(partName, ts, slice, index, currTime);
    if index == |ts| {
      assert r == ts + [(currTime, PartTimesliceFrom(partName, slice))];
      forall k | 0 <= k < |ts| ensures exists m :: 0 <= m < |r| && r[m].0 == ts[k].0 {
        assert r[k] == ts[k];
      }
    } else {
      var j := NextSlot(ts, index, currTime);
      forall k | 0 <= k < j ensures ts[k].0 < currTime {
      }
      if j == |ts| {
        forall k | 0 <= k < |ts| ensures exists m :: 0 <= m < |r| && r[m].0 == ts[k].0 {
          assert r[k] == ts[k];
        }
      } else if ts[j].0 == currTime {
        forall k | 0 <= k < |ts| ensures exists m :: 0 <= m < |r| && r[m].0 == ts[k].0 {
          assert r[k].0 == ts[k].0;
        }
      } else {
        forall k | 0 <= k < |ts| ensures exists m :: 0 <= m < |r| && r[m].0 == ts[k].0 {
          if k < j {
            assert r[k] == ts[k];
          } else {
            assert r[k + 1] == ts[k];
          }
        }
      }
    }
  }

  /** Under the same conditions, the list grows by one entry unless one
      already starts at `curr_time`, and then keeps its length. */
  lemma {:induction false} PlaceGrowth(partName: string, ts: seq<Entry>, slice: Timeslice, index: nat, currTime: real)
    requires StartsIncrease(ts) && index <= |ts|
    requires forall k :: 0 <= k < index ==> ts[k].0 < currTime
    ensures var r := Placed(partName, ts, slice, index, currTime).0;
      |r| == if exists k :: 0 <= k < |ts| && ts[k].0 == currTime then |ts| else |ts| + 1
  {
    if index < |ts| {
      var j := NextSlot(ts, index, currTime);
      if j < |ts| && ts[j].0 != currTime {
        forall k | 0 <= k < |ts| ensures ts[k].0 != currTime {
          if k >= j && k > j {
            assert ts[j].0 < ts[k].0;
          }
        }
      }
      if j == |ts| {
        forall k | 0 <= k < |ts| ensures ts[k].0 != currTime {
        }
      }
    } else {
      forall k | 0 <= k < |ts| ensures ts[k].0 != currTime {
      }
    }
  }

  /** Merging into an entry replaces whatever slice the part had there. */
  lemma {:induction false} MergeOverwrites(partName: string, ts: seq<Entry>, slice: Timeslice, index: nat, currTime: real)
    requires index < |ts|
    requires NextSlot(ts, index, currTime) < |ts| && ts[NextSlot(ts, index, currTime)].0 == currTime
    ensures var j := NextSlot(ts, index, currTime);
      var r := Placed(partName, ts, slice, index, currTime).0;
      |r| == |ts| && GetTimesliceFor(r[j].1, partName) == Some(slice)
      && forall other :: other != partName ==> GetTimesliceFor(r[j].1, other) == GetTimesliceFor(ts[j].1, other)
  {
    var j := NextSlot(ts, index, currTime);
    forall other | other != partName
      ensures GetTimesliceFor(AddTimeslice(ts[j].1, partName, slice), other) == GetTimesliceFor(ts[j].1, other)
    {
      AddThenGet(ts[j].1, partName, other, slice);
    }
  }
}

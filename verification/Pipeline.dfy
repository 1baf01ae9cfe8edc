// A lane of pipeline stages (akita/pipelining/pipeline.go): what one tick does to it, and the
// potential that measures how far each item is from leaving.
module Pipeline {

  // An item, with the lane that accepted it and the number of ticks that had passed then as
  // history.
  datatype Elem = Elem(id: nat, born: nat, lane: nat)

  datatype Slot = Empty | Item(elem: Elem, cycleLeft: int)

  // ---------- one tick of a lane ----------

  // The last stage: an item counts down, then leaves if the buffer behind has room.
  function StepLast(lane: seq<Slot>, canPush: bool): seq<Slot>
    requires lane != []
  {
    var n := |lane| - 1;
    var stage := lane[n];
    if stage.Empty? then lane
    else if stage.cycleLeft > 0 then lane[n := stage.(cycleLeft := stage.cycleLeft - 1)]
    else if canPush then lane[n := Empty]
    else lane
  }

  predicate Leaves(lane: seq<Slot>, canPush: bool) {
    lane != [] && lane[|lane| - 1].Item? && lane[|lane| - 1].cycleLeft <= 0 && canPush
  }

  // Any other stage: an item counts down, then moves on if the next stage is free.
  function StepStage(lane: seq<Slot>, i: nat, cycles: int): (r: seq<Slot>)
    requires i + 1 < |lane|
    ensures |r| == |lane|
  {
    var stage := lane[i];
    if stage.Empty? then lane
    else if stage.cycleLeft > 0 then lane[i := stage.(cycleLeft := stage.cycleLeft - 1)]
    else if lane[i + 1].Item? then lane
    else lane[i + 1 := Item(stage.elem, cycles - 1)][i := Empty]
  }

  // The stages before i, from the last to the first.
  ghost function StepDown(lane: seq<Slot>, i: nat, cycles: int): (r: seq<Slot>)
    requires i < |lane|
    ensures |r| == |lane|
    decreases i
  {
    if i == 0 then lane else StepDown(StepStage(lane, i - 1, cycles), i - 1, cycles)
  }

  ghost function LaneTick(lane: seq<Slot>, cycles: int, canPush: bool): (r: seq<Slot>)
    ensures |r| == |lane|
  {
    if lane == [] then [] else StepDown(StepLast(lane, canPush), |lane| - 1, cycles)
  }

  // The number of items that make progress.
  ghost function MovesDown(lane: seq<Slot>, i: nat, cycles: int): nat
    requires i < |lane|
    decreases i
  {
    if i == 0 then 0
    else
      var r := StepStage(lane, i - 1, cycles);
      (if r != lane then 1 else 0) + MovesDown(r, i - 1, cycles)
  }

  ghost function LaneMoves(lane: seq<Slot>, cycles: int, canPush: bool): nat {
    if lane == [] then 0
    else
      var r := StepLast(lane, canPush);
      (if r != lane then 1 else 0) + MovesDown(r, |lane| - 1, cycles)
  }

  // ---------- the potential ----------

  // The ticks that an item spends in a stage at least. Without any cycles to wait it is one.
  ghost function Span(cycles: int): (r: int)
    ensures r >= 1
  {
    if cycles >= 1 then cycles else 1
  }

  ghost function Wait(cycleLeft: int): int {
    if cycleLeft > 0 then cycleLeft else 0
  }

  ghost predicate LaneOk(lane: seq<Slot>, cycles: int) {
    forall i :: 0 <= i < |lane| && lane[i].Item? ==> lane[i].cycleLeft < Span(cycles)
  }

  // The ticks that an item needs at least before it has left, with `after` stages to come.
  ghost function Rank(cycleLeft: int, after: nat, cycles: int): int {
    after * Span(cycles) + Wait(cycleLeft) + 1
  }

  datatype Entry = Entry(elem: Elem, rank: int)

  // The items in the stages from lo up to hi, the farthest first.
  ghost function Entries(lane: seq<Slot>, lo: nat, hi: nat, cycles: int): seq<Entry>
    requires hi <= |lane|
  {
    if hi <= lo then []
    else EntryOf(lane[hi - 1], |lane| - hi, cycles) + Entries(lane, lo, hi - 1, cycles)
  }

  ghost function EntryOf(slot: Slot, after: nat, cycles: int): seq<Entry> {
    if slot.Empty? then [] else [Entry(slot.elem, Rank(slot.cycleLeft, after, cycles))]
  }

  ghost function LaneEntries(lane: seq<Slot>, cycles: int): seq<Entry> {
    Entries(lane, 0, |lane|, cycles)
  }

  ghost function RankSum(a: seq<Entry>): int {
    if a == [] then 0 else RankSum(a[..|a| - 1]) + a[|a| - 1].rank
  }

  // The same items in the same order, each as far as before or one closer; `moves` are closer.
  ghost predicate Lowered(a: seq<Entry>, b: seq<Entry>) {
    |a| == |b| && forall k :: 0 <= k < |a| ==> a[k].elem == b[k].elem && a[k].rank - 1 <= b[k].rank <= a[k].rank
  }

  lemma {:induction false} SumConcat(a: seq<Entry>, b: seq<Entry>)
    ensures RankSum(a + b) == RankSum(a) + RankSum(b)
    decreases |b|
  {
    if b == [] {
      assert a + b == a;
    } else {
      assert (a + b)[..|a + b| - 1] == a + b[..|b| - 1];
      SumConcat(a, b[..|b| - 1]);
    }
  }

  lemma SumOne(e: Entry)
    ensures RankSum([e]) == e.rank
  {
    assert [e][..0] == [];
  }

  lemma {:induction false} EntriesFrame(a: seq<Slot>, b: seq<Slot>, lo: nat, hi: nat, cycles: int)
    requires |a| == |b| && hi <= |a| && forall i :: lo <= i < hi ==> a[i] == b[i]
    ensures Entries(a, lo, hi, cycles) == Entries(b, lo, hi, cycles)
    decreases hi
  {
    hide Rank, EntryOf;
    if lo < hi {
      EntriesFrame(a, b, lo, hi - 1, cycles);
    }
  }

  lemma {:induction false} EntriesSplit(lane: seq<Slot>, lo: nat, mid: nat, hi: nat, cycles: int)
    requires lo <= mid <= hi <= |lane|
    ensures Entries(lane, lo, hi, cycles) == Entries(lane, mid, hi, cycles) + Entries(lane, lo, mid, cycles)
    decreases hi
  {
    hide Rank;
    if mid < hi {
      EntriesSplit(lane, lo, mid, hi - 1, cycles);
    }
  }

  lemma EntriesOne(lane: seq<Slot>, i: nat, cycles: int)
    requires i < |lane|
    ensures Entries(lane, i, i + 1, cycles) == EntryOf(lane[i], |lane| - 1 - i, cycles)
  {
    hide Rank;
    assert Entries(lane, i, i, cycles) == [];
  }

  // Moving on costs one: a stage less to come, for as many cycles but one in the next stage.
  lemma RankNext(cycleLeft: int, after: nat, cycles: int)
    requires after > 0 && cycleLeft <= 0
    ensures Rank(cycles - 1, after - 1, cycles) == Rank(cycleLeft, after, cycles) - 1
  {
    assert after * Span(cycles) == (after - 1) * Span(cycles) + Span(cycles);
  }

  ghost predicate MovesOn(lane: seq<Slot>, i: nat)
    requires i + 1 < |lane|
  {
    lane[i].Item? && lane[i].cycleLeft <= 0 && lane[i + 1].Empty?
  }

  // What becomes of the item of stage i in a step.
  ghost function StageEntry(lane: seq<Slot>, i: nat, cycles: int): seq<Entry>
    requires i + 1 < |lane|
  {
    if MovesOn(lane, i) then [Entry(lane[i].elem, Rank(cycles - 1, |lane| - 2 - i, cycles))]
    else if lane[i].Item? && lane[i].cycleLeft > 0 then
      [Entry(lane[i].elem, Rank(lane[i].cycleLeft - 1, |lane| - 1 - i, cycles))]
    else EntryOf(lane[i], |lane| - 1 - i, cycles)
  }

  lemma StageLowers(lane: seq<Slot>, i: nat, cycles: int)
    requires i + 1 < |lane| && LaneOk(lane, cycles)
    ensures var a, b := EntryOf(lane[i], |lane| - 1 - i, cycles), StageEntry(lane, i, cycles);
            && Lowered(a, b)
            && RankSum(b) == RankSum(a) - (if StepStage(lane, i, cycles) != lane then 1 else 0)
  {
    var r := StepStage(lane, i, cycles);
    if lane[i].Item? {
      SumOne(EntryOf(lane[i], |lane| - 1 - i, cycles)[0]);
      SumOne(StageEntry(lane, i, cycles)[0]);
      if lane[i].cycleLeft > 0 {
        CountDown(lane[i].cycleLeft, |lane| - 1 - i, cycles);
      } else {
        RankNext(lane[i].cycleLeft, |lane| - 1 - i, cycles);
      }
      hide Rank, RankSum;
      assert lane[i].cycleLeft > 0 || MovesOn(lane, i) ==> r[i] != lane[i];
    }
  }

  lemma StageMoved(lane: seq<Slot>, i: nat, cycles: int)
    requires i + 1 < |lane| && MovesOn(lane, i)
    ensures Entries(StepStage(lane, i, cycles), i, |lane|, cycles) ==
            Entries(lane, i + 1, |lane|, cycles) + StageEntry(lane, i, cycles)
  {
    hide Rank, Entries;
    var r, n := StepStage(lane, i, cycles), |lane|;
    EntriesSplit(r, i, i + 1, n, cycles);
    EntriesSplit(r, i + 1, i + 2, n, cycles);
    EntriesSplit(lane, i + 1, i + 2, n, cycles);
    EntriesFrame(r, lane, i + 2, n, cycles);
    EntriesOne(r, i, cycles);
    EntriesOne(r, i + 1, cycles);
    EntriesOne(lane, i + 1, cycles);
    assert Entries(r, i, i + 1, cycles) == [];
    assert Entries(lane, i + 1, i + 2, cycles) == [];
    assert Entries(r, i + 1, i + 2, cycles) == StageEntry(lane, i, cycles);
  }

  lemma StageStayed(lane: seq<Slot>, i: nat, cycles: int)
    requires i + 1 < |lane| && !MovesOn(lane, i)
    ensures Entries(StepStage(lane, i, cycles), i, |lane|, cycles) ==
            Entries(lane, i + 1, |lane|, cycles) + StageEntry(lane, i, cycles)
  {
    hide Rank, Entries;
    var r, n := StepStage(lane, i, cycles), |lane|;
    EntriesSplit(r, i, i + 1, n, cycles);
    EntriesFrame(r, lane, i + 1, n, cycles);
    EntriesOne(r, i, cycles);
  }

  // A step changes the item of its stage and leaves those ahead and behind.
  lemma StageEntries(lane: seq<Slot>, i: nat, cycles: int)
    requires i + 1 < |lane| && LaneOk(lane, cycles)
    ensures var r := StepStage(lane, i, cycles);
            && LaneOk(r, cycles)
            && Entries(r, 0, i, cycles) == Entries(lane, 0, i, cycles)
            && Entries(r, i, |lane|, cycles) == Entries(lane, i + 1, |lane|, cycles) + StageEntry(lane, i, cycles)
  {
    hide Rank;
    EntriesFrame(StepStage(lane, i, cycles), lane, 0, i, cycles);
    if MovesOn(lane, i) {
      StageMoved(lane, i, cycles);
    } else {
      StageStayed(lane, i, cycles);
    }
  }

  lemma CountDown(cycleLeft: int, after: nat, cycles: int)
    requires cycleLeft > 0
    ensures Rank(cycleLeft - 1, after, cycles) == Rank(cycleLeft, after, cycles) - 1
  {
  }

  lemma LoweredConcat(a: seq<Entry>, b: seq<Entry>, c: seq<Entry>, d: seq<Entry>)
    requires Lowered(a, b) && Lowered(c, d)
    ensures Lowered(a + c, b + d)
  {
  }

  // What becomes of the items before stage i.
  ghost function DownEntries(lane: seq<Slot>, i: nat, cycles: int): seq<Entry>
    requires i < |lane|
    decreases i
  {
    if i == 0 then []
    else StageEntry(lane, i - 1, cycles) + DownEntries(StepStage(lane, i - 1, cycles), i - 1, cycles)
  }

  lemma {:induction false} DownIsLane(lane: seq<Slot>, i: nat, cycles: int)
    requires i < |lane| && LaneOk(lane, cycles)
    ensures LaneOk(StepDown(lane, i, cycles), cycles)
    ensures LaneEntries(StepDown(lane, i, cycles), cycles) ==
            Entries(lane, i, |lane|, cycles) + DownEntries(lane, i, cycles)
    decreases i
  {
    hide Rank, StepStage, LaneOk, StageEntry, Entries, EntryOf;
    if i > 0 {
      StageEntries(lane, i - 1, cycles);
      DownIsLane(StepStage(lane, i - 1, cycles), i - 1, cycles);
    }
  }

  lemma DownSplit(lane: seq<Slot>, i: nat, cycles: int)
    requires 0 < i < |lane| && LaneOk(lane, cycles)
    ensures var r := StepStage(lane, i - 1, cycles);
            && LaneOk(r, cycles)
            && Entries(lane, 0, i, cycles) == EntryOf(lane[i - 1], |lane| - i, cycles) + Entries(r, 0, i - 1, cycles)
            && DownEntries(lane, i, cycles) == StageEntry(lane, i - 1, cycles) + DownEntries(r, i - 1, cycles)
  {
    hide Rank, StepStage, LaneOk, StageEntry, EntryOf;
    StageEntries(lane, i - 1, cycles);
  }

  lemma NothingBefore(lane: seq<Slot>, cycles: int)
    requires lane != []
    ensures Entries(lane, 0, 0, cycles) == [] && DownEntries(lane, 0, cycles) == [] && RankSum([]) == 0
    ensures Lowered([], [])
  {
  }

  // The items before stage i get at most one closer each.
  lemma {:induction false} DownLowers(lane: seq<Slot>, i: nat, cycles: int)
    requires i < |lane| && LaneOk(lane, cycles)
    ensures Lowered(Entries(lane, 0, i, cycles), DownEntries(lane, i, cycles))
    decreases i
  {
    hide Rank, StepStage, LaneOk, StageEntry, RankSum, Lowered, EntryOf, Entries, DownEntries;
    if i == 0 {
      NothingBefore(lane, cycles);
    } else {
      DownSplit(lane, i, cycles);
      StageLowers(lane, i - 1, cycles);
      var r, e := StepStage(lane, i - 1, cycles), EntryOf(lane[i - 1], |lane| - i, cycles);
      DownLowers(r, i - 1, cycles);
      LoweredConcat(e, StageEntry(lane, i - 1, cycles), Entries(r, 0, i - 1, cycles), DownEntries(r, i - 1, cycles));
    }
  }

  lemma {:induction false} DownSums(lane: seq<Slot>, i: nat, cycles: int)
    requires i < |lane| && LaneOk(lane, cycles)
    ensures RankSum(DownEntries(lane, i, cycles)) == RankSum(Entries(lane, 0, i, cycles)) - MovesDown(lane, i, cycles)
    decreases i
  {
    hide Rank, StepStage, LaneOk, StageEntry, RankSum, Lowered, EntryOf, Entries, DownEntries;
    if i == 0 {
      NothingBefore(lane, cycles);
    } else {
      DownSplit(lane, i, cycles);
      StageLowers(lane, i - 1, cycles);
      var r, e := StepStage(lane, i - 1, cycles), EntryOf(lane[i - 1], |lane| - i, cycles);
      DownSums(r, i - 1, cycles);
      SumConcat(e, Entries(r, 0, i - 1, cycles));
      SumConcat(StageEntry(lane, i - 1, cycles), DownEntries(r, i - 1, cycles));
    }
  }

  lemma LastApart(lane: seq<Slot>, cycles: int)
    requires lane != []
    ensures LaneEntries(lane, cycles) ==
            EntryOf(lane[|lane| - 1], 0, cycles) + Entries(lane, 0, |lane| - 1, cycles)
  {
    hide Rank;
  }

  lemma StepLastFrame(lane: seq<Slot>, canPush: bool, cycles: int)
    requires lane != []
    ensures var r, n := StepLast(lane, canPush), |lane|;
            && |r| == n && Entries(r, 0, n - 1, cycles) == Entries(lane, 0, n - 1, cycles)
            && Entries(r, n - 1, n, cycles) == EntryOf(r[n - 1], 0, cycles)
  {
    hide Rank;
    EntriesFrame(StepLast(lane, canPush), lane, 0, |lane| - 1, cycles);
    EntriesOne(StepLast(lane, canPush), |lane| - 1, cycles);
  }

  // The entries of a lane before and after a tick, the last stage apart.
  lemma LaneTickParts(lane: seq<Slot>, cycles: int, canPush: bool)
    requires LaneOk(lane, cycles) && lane != []
    ensures var n, r := |lane|, StepLast(lane, canPush);
            && |r| == n && LaneOk(r, cycles) && LaneOk(LaneTick(lane, cycles, canPush), cycles)
            && LaneEntries(lane, cycles) == EntryOf(lane[n - 1], 0, cycles) + Entries(r, 0, n - 1, cycles)
            && LaneEntries(LaneTick(lane, cycles, canPush), cycles) ==
               EntryOf(r[n - 1], 0, cycles) + DownEntries(r, n - 1, cycles)
  {
    hide Rank, Entries, DownEntries, StepLast, LaneOk, RankSum, EntryOf, StepDown, LaneEntries;
    LastEntry(lane, canPush, cycles);
    LastApart(lane, cycles);
    StepLastFrame(lane, canPush, cycles);
    DownIsLane(StepLast(lane, canPush), |lane| - 1, cycles);
  }

  lemma LastEntry(lane: seq<Slot>, canPush: bool, cycles: int)
    requires lane != [] && LaneOk(lane, cycles)
    ensures LaneOk(StepLast(lane, canPush), cycles)
    ensures var r, n := StepLast(lane, canPush), |lane|;
            RankSum(EntryOf(r[n - 1], 0, cycles)) ==
              RankSum(EntryOf(lane[n - 1], 0, cycles)) - (if r != lane then 1 else 0)
  {
    var r, n := StepLast(lane, canPush), |lane|;
    if lane[n - 1].Item? {
      SumOne(EntryOf(lane[n - 1], 0, cycles)[0]);
      if r[n - 1].Item? {
        SumOne(EntryOf(r[n - 1], 0, cycles)[0]);
      }
      if lane[n - 1].cycleLeft > 0 || canPush {
        assert r[n - 1] != lane[n - 1];
      }
    }
  }

  lemma LastLowered(lane: seq<Slot>, canPush: bool, cycles: int, rest: seq<Entry>, e: seq<Entry>)
    requires lane != [] && LaneOk(lane, cycles) && Lowered(rest, e)
    ensures var was := EntryOf(lane[|lane| - 1], 0, cycles) + rest;
            && (Leaves(lane, canPush) ==> was != [] && was[0] == Entry(lane[|lane| - 1].elem, 1))
            && Lowered(if Leaves(lane, canPush) then was[1..] else was,
                       EntryOf(StepLast(lane, canPush)[|lane| - 1], 0, cycles) + e)
  {
    var a, b := EntryOf(lane[|lane| - 1], 0, cycles), EntryOf(StepLast(lane, canPush)[|lane| - 1], 0, cycles);
    if Leaves(lane, canPush) {
      assert (a + rest)[1..] == rest && b + e == e;
    } else {
      LoweredConcat(a, b, rest, e);
    }
  }

  lemma EmptyLane(cycles: int, canPush: bool)
    ensures LaneTick([], cycles, canPush) == [] && LaneEntries([], cycles) == [] && LaneMoves([], cycles, canPush) == 0
    ensures LaneOk([], cycles) && !Leaves([], canPush) && Lowered([], [])
  {
  }

  // One tick of a lane: the first item leaves if it is due and there is room; all others keep
  // their order and get at most one closer each.
  lemma LaneTickLowers(lane: seq<Slot>, cycles: int, canPush: bool)
    requires LaneOk(lane, cycles)
    ensures var r, was := LaneTick(lane, cycles, canPush), LaneEntries(lane, cycles);
            && LaneOk(r, cycles)
            && (Leaves(lane, canPush) ==> was != [] && was[0] == Entry(lane[|lane| - 1].elem, 1))
            && Lowered(if Leaves(lane, canPush) then was[1..] else was, LaneEntries(r, cycles))
  {
    if lane == [] {
      EmptyLane(cycles, canPush);
    } else {
      LaneTickLowersSome(lane, cycles, canPush);
    }
  }

  lemma LaneTickLowersSome(lane: seq<Slot>, cycles: int, canPush: bool)
    requires LaneOk(lane, cycles) && lane != []
    ensures var r, was := LaneTick(lane, cycles, canPush), LaneEntries(lane, cycles);
            && LaneOk(r, cycles)
            && (Leaves(lane, canPush) ==> was != [] && was[0] == Entry(lane[|lane| - 1].elem, 1))
            && Lowered(if Leaves(lane, canPush) then was[1..] else was, LaneEntries(r, cycles))
  {
    hide *;
    var n, r := |lane|, StepLast(lane, canPush);
    LaneTickParts(lane, cycles, canPush);
    DownLowers(r, n - 1, cycles);
    LastLowered(lane, canPush, cycles, Entries(r, 0, n - 1, cycles), DownEntries(r, n - 1, cycles));
  }

  // The sum of the ranks drops by the number of items that made progress.
  lemma LaneTickSums(lane: seq<Slot>, cycles: int, canPush: bool)
    requires LaneOk(lane, cycles)
    ensures RankSum(LaneEntries(LaneTick(lane, cycles, canPush), cycles)) ==
            RankSum(LaneEntries(lane, cycles)) - LaneMoves(lane, cycles, canPush)
  {
    hide Rank, StepDown, LaneOk, StepLast, Entries, DownEntries, EntryOf, RankSum, LaneTick, LaneEntries, MovesDown;
    if lane == [] {
      EmptyLane(cycles, canPush);
    } else {
      var n, r := |lane|, StepLast(lane, canPush);
      LaneTickParts(lane, cycles, canPush);
      LastEntry(lane, canPush, cycles);
      DownSums(r, n - 1, cycles);
      SumConcat(EntryOf(lane[n - 1], 0, cycles), Entries(r, 0, n - 1, cycles));
      SumConcat(EntryOf(r[n - 1], 0, cycles), DownEntries(r, n - 1, cycles));
    }
  }

  // A tick makes progress exactly when the sum of the ranks drops.
  lemma ProgressIffRanksDrop(lane: seq<Slot>, cycles: int, canPush: bool)
    requires LaneOk(lane, cycles)
    ensures LaneMoves(lane, cycles, canPush) > 0 <==>
            RankSum(LaneEntries(LaneTick(lane, cycles, canPush), cycles)) < RankSum(LaneEntries(lane, cycles))
  {
    LaneTickSums(lane, cycles, canPush);
  }

  // ---------- when nothing is ever refused ----------

  // Neighbours in a lane are at least one stage's cycles apart.
  ghost predicate Spaced(a: seq<Entry>, cycles: int) {
    forall k :: 0 <= k < |a| - 1 ==> a[k].rank + Span(cycles) <= a[k + 1].rank
  }

  // The same, where the items ahead have already got one closer.
  ghost predicate SpacedAhead(ahead: seq<Entry>, behind: seq<Entry>, cycles: int) {
    && Spaced(behind, cycles)
    && (ahead != [] && behind != [] ==> ahead[|ahead| - 1].rank + 1 + Span(cycles) <= behind[0].rank)
  }

  lemma StageFree(lane: seq<Slot>, i: nat, cycles: int)
    requires i + 1 < |lane| && LaneOk(lane, cycles) && lane[i].Item? && lane[i].cycleLeft <= 0
    requires SpacedAhead(Entries(lane, i + 1, |lane|, cycles), Entries(lane, 0, i + 1, cycles), cycles)
    ensures lane[i + 1].Empty?
  {
    RankNext(lane[i].cycleLeft, |lane| - 1 - i, cycles);
    if lane[i + 1].Item? {
      EntriesSplit(lane, i + 1, i + 2, |lane|, cycles);
      EntriesOne(lane, i + 1, cycles);
    }
  }

  lemma AheadStays(ahead: seq<Entry>, before: Entry, now: Entry, behind: seq<Entry>, cycles: int)
    requires SpacedAhead(ahead, [before] + behind, cycles) && now.rank == before.rank - 1
    ensures SpacedAhead(ahead + [now], behind, cycles)
  {
    var all := [before] + behind;
    forall k | 0 <= k < |behind| - 1 ensures behind[k].rank + Span(cycles) <= behind[k + 1].rank {
      assert all[k + 1] == behind[k] && all[k + 2] == behind[k + 1];
    }
    if behind != [] {
      assert all[0].rank + Span(cycles) <= all[1].rank;
    }
  }

  lemma {:induction false} AllMoveDown(lane: seq<Slot>, i: nat, cycles: int)
    requires i < |lane| && LaneOk(lane, cycles)
    requires SpacedAhead(Entries(lane, i, |lane|, cycles), Entries(lane, 0, i, cycles), cycles)
    ensures MovesDown(lane, i, cycles) == |Entries(lane, 0, i, cycles)|
    decreases i
  {
    hide Rank, Spaced, SpacedAhead, Lowered, RankSum, Entries, LaneOk, StepStage;
    if i == 0 {
      NothingBefore(lane, cycles);
    } else {
      StageEntries(lane, i - 1, cycles);
      EntriesSplit(lane, 0, i - 1, i, cycles);
      EntriesOne(lane, i - 1, cycles);
      StageMovesAll(lane, i - 1, cycles);
      AllMoveDown(StepStage(lane, i - 1, cycles), i - 1, cycles);
    }
  }

  lemma StageProgress(lane: seq<Slot>, i: nat, cycles: int)
    requires i + 1 < |lane| && LaneOk(lane, cycles) && lane[i].Item?
    requires SpacedAhead(Entries(lane, i + 1, |lane|, cycles), Entries(lane, 0, i + 1, cycles), cycles)
    ensures StepStage(lane, i, cycles) != lane
    ensures StageEntry(lane, i, cycles) ==
            [Entry(lane[i].elem, EntryOf(lane[i], |lane| - 1 - i, cycles)[0].rank - 1)]
  {
    hide Rank, Spaced, SpacedAhead, RankSum, Entries;
    if lane[i].cycleLeft <= 0 {
      StageFree(lane, i, cycles);
      RankNext(lane[i].cycleLeft, |lane| - 1 - i, cycles);
    } else {
      CountDown(lane[i].cycleLeft, |lane| - 1 - i, cycles);
    }
    assert StepStage(lane, i, cycles)[i] != lane[i];
  }

  // With room ahead, the item of a stage makes progress and leaves room for the next.
  lemma StageMovesAll(lane: seq<Slot>, i: nat, cycles: int)
    requires i + 1 < |lane| && LaneOk(lane, cycles)
    requires SpacedAhead(Entries(lane, i + 1, |lane|, cycles), Entries(lane, 0, i + 1, cycles), cycles)
    ensures var r := StepStage(lane, i, cycles);
            && (r != lane <==> lane[i].Item?)
            && SpacedAhead(Entries(r, i, |lane|, cycles), Entries(r, 0, i, cycles), cycles)
  {
    hide Rank, Spaced, SpacedAhead, RankSum, Entries, LaneOk;
    var n := |lane|;
    StageEntries(lane, i, cycles);
    EntriesSplit(lane, 0, i, i + 1, cycles);
    EntriesOne(lane, i, cycles);
    if lane[i].Item? {
      StageProgress(lane, i, cycles);
      AheadStays(Entries(lane, i + 1, n, cycles), EntryOf(lane[i], n - 1 - i, cycles)[0],
                 StageEntry(lane, i, cycles)[0], Entries(lane, 0, i, cycles), cycles);
    } else {
      assert Entries(lane, i + 1, n, cycles) + [] == Entries(lane, i + 1, n, cycles);
      assert [] + Entries(lane, 0, i, cycles) == Entries(lane, 0, i, cycles);
    }
  }

  lemma SpacedTail(e: Entry, a: seq<Entry>, cycles: int)
    requires Spaced([e] + a, cycles)
    ensures Spaced(a, cycles) && (a != [] ==> e.rank + Span(cycles) <= a[0].rank)
  {
    var all := [e] + a;
    forall k | 0 <= k < |a| - 1 ensures a[k].rank + Span(cycles) <= a[k + 1].rank {
      assert all[k + 1] == a[k] && all[k + 2] == a[k + 1];
    }
    if a != [] {
      assert all[0].rank + Span(cycles) <= all[1].rank;
    }
  }

  lemma SpacedAfterLast(a: seq<Entry>, b: seq<Entry>, behind: seq<Entry>, cycles: int)
    requires Spaced(a + behind, cycles) && |a| <= 1 && |b| <= |a|
    requires b != [] ==> b[0].rank == a[0].rank - 1
    ensures SpacedAhead(b, behind, cycles)
  {
    if a == [] {
      assert a + behind == behind;
    } else {
      assert a == [a[0]];
      SpacedTail(a[0], behind, cycles);
    }
  }

  // If the lane is spaced and the buffer takes what is due, everything makes progress.
  lemma AllMove(lane: seq<Slot>, cycles: int)
    requires LaneOk(lane, cycles) && Spaced(LaneEntries(lane, cycles), cycles)
    ensures LaneMoves(lane, cycles, true) == |LaneEntries(lane, cycles)|
  {
    hide Spaced, SpacedAhead, Rank, Lowered;
    if lane != [] {
      var n, r := |lane|, StepLast(lane, true);
      LastEntry(lane, true, cycles);
      LastApart(lane, cycles);
      StepLastFrame(lane, true, cycles);
      LastMoves(lane, cycles);
      SpacedAfterLast(EntryOf(lane[n - 1], 0, cycles), EntryOf(r[n - 1], 0, cycles), Entries(r, 0, n - 1, cycles),
                       cycles);
      AllMoveDown(r, n - 1, cycles);
    }
  }

  lemma LastMoves(lane: seq<Slot>, cycles: int)
    requires LaneOk(lane, cycles) && lane != []
    ensures var n, r := |lane|, StepLast(lane, true);
            && (r != lane <==> lane[n - 1].Item?)
            && (r[n - 1].Item? ==> lane[n - 1].Item?)
            && (r[n - 1].Item? ==> EntryOf(r[n - 1], 0, cycles)[0].rank == EntryOf(lane[n - 1], 0, cycles)[0].rank - 1)
  {
    var n, r := |lane|, StepLast(lane, true);
    if lane[n - 1].Item? {
      assert r[n - 1] != lane[n - 1];
    }
  }

  // Each entry exactly one closer.
  ghost predicate AllCloser(a: seq<Entry>, b: seq<Entry>) {
    |a| == |b| && forall k :: 0 <= k < |a| ==> b[k] == Entry(a[k].elem, a[k].rank - 1)
  }

  lemma {:induction false} LoweredSums(a: seq<Entry>, b: seq<Entry>)
    requires Lowered(a, b)
    ensures RankSum(a) - |a| <= RankSum(b) <= RankSum(a)
    ensures RankSum(b) == RankSum(a) - |a| ==> AllCloser(a, b)
    decreases |a|
  {
    if a != [] {
      LoweredSums(a[..|a| - 1], b[..|b| - 1]);
    }
  }

  lemma {:induction false} SumFirst(e: Entry, a: seq<Entry>)
    ensures RankSum([e] + a) == e.rank + RankSum(a)
  {
    SumConcat([e], a);
    SumOne(e);
  }

  // In a spaced lane whose item at the end finds room, one tick brings every item exactly one
  // closer, and the one that was at rank one is out.
  lemma TickBringsAllCloser(lane: seq<Slot>, cycles: int)
    requires LaneOk(lane, cycles) && Spaced(LaneEntries(lane, cycles), cycles)
    ensures var was := LaneEntries(lane, cycles);
            AllCloser(if Leaves(lane, true) then was[1..] else was, LaneEntries(LaneTick(lane, cycles, true), cycles))
  {
    hide Spaced, Rank, LaneEntries, LaneTick, LaneMoves, LaneOk, RankSum, Lowered, AllCloser, Leaves;
    var was, now := LaneEntries(lane, cycles), LaneEntries(LaneTick(lane, cycles, true), cycles);
    AllMove(lane, cycles);
    LaneTickLowers(lane, cycles, true);
    LaneTickSums(lane, cycles, true);
    if Leaves(lane, true) {
      assert was == [was[0]] + was[1..];
      SumFirst(was[0], was[1..]);
      LoweredSums(was[1..], now);
    } else {
      LoweredSums(was, now);
    }
  }

  // ---------- the plain rank ----------

  // A lane as runs have them: an item that has not begun to count has all its cycles left.
  ghost predicate Started(lane: seq<Slot>, cycles: int) {
    forall i :: 0 <= i < |lane| && lane[i].Item? ==>
      lane[i].cycleLeft == cycles - 1 || 0 <= lane[i].cycleLeft < cycles
  }

  // The sum over the first hi stages of the cycles that are written down for the items: what
  // is left in their stages and in those to come.
  ghost function PlainSum(lane: seq<Slot>, hi: nat, cycles: int): int
    requires hi <= |lane|
  {
    if hi == 0 then 0
    else if lane[hi - 1].Empty? then PlainSum(lane, hi - 1, cycles)
    else PlainSum(lane, hi - 1, cycles) + (|lane| - hi) * cycles + lane[hi - 1].cycleLeft + 1
  }

  lemma {:induction false} PlainIsRank(lane: seq<Slot>, hi: nat, cycles: int)
    requires hi <= |lane| && Started(lane, cycles) && cycles >= 1
    ensures RankSum(Entries(lane, 0, hi, cycles)) == PlainSum(lane, hi, cycles)
  {
    if hi == 0 {
      assert Entries(lane, 0, 0, cycles) == [];
    } else {
      PlainIsRank(lane, hi - 1, cycles);
      var e := EntryOf(lane[hi - 1], |lane| - hi, cycles);
      SumConcat(e, Entries(lane, 0, hi - 1, cycles));
      if lane[hi - 1].Item? {
        SumOne(e[0]);
      }
    }
  }

  lemma {:induction false} DownStarted(lane: seq<Slot>, i: nat, cycles: int)
    requires i < |lane| && Started(lane, cycles) && cycles >= 1
    ensures Started(StepDown(lane, i, cycles), cycles)
    decreases i
  {
    if i > 0 {
      DownStarted(StepStage(lane, i - 1, cycles), i - 1, cycles);
    }
  }

  lemma TickStarted(lane: seq<Slot>, cycles: int, canPush: bool)
    requires Started(lane, cycles) && cycles >= 1
    ensures Started(LaneTick(lane, cycles, canPush), cycles) && LaneOk(lane, cycles)
  {
    if lane != [] {
      DownStarted(StepLast(lane, canPush), |lane| - 1, cycles);
    }
  }

  // Every tick makes progress exactly when the plain sum drops.
  ghost predicate PlainMeasures(cycles: int) {
    forall lane, canPush :: Started(lane, cycles) ==> PlainMeasuresTick(lane, cycles, canPush)
  }

  ghost predicate PlainMeasuresTick(lane: seq<Slot>, cycles: int, canPush: bool) {
    LaneMoves(lane, cycles, canPush) > 0 <==>
    PlainSum(LaneTick(lane, cycles, canPush), |lane|, cycles) < PlainSum(lane, |lane|, cycles)
  }

  // The cycles written down measure progress exactly if there is at least one per stage.
  lemma PlainIff(cycles: int)
    ensures PlainMeasures(cycles) <==> cycles >= 1
  {
    hide LaneMoves, LaneTick, PlainSum;
    if cycles >= 1 {
      forall lane, canPush | Started(lane, cycles) ensures PlainMeasuresTick(lane, cycles, canPush) {
        PlainTick(lane, cycles, canPush);
      }
    } else {
      MovesOnForFree(cycles);
      assert !PlainMeasuresTick([Item(Elem(7, 0, 0), cycles - 1), Empty], cycles, true);
    }
  }

  lemma PlainTick(lane: seq<Slot>, cycles: int, canPush: bool)
    requires Started(lane, cycles) && cycles >= 1
    ensures PlainMeasuresTick(lane, cycles, canPush)
  {
    hide LaneMoves, LaneTick, PlainSum, RankSum, Entries, Started, LaneOk;
    TickStarted(lane, cycles, canPush);
    PlainIsRank(lane, |lane|, cycles);
    PlainIsRank(LaneTick(lane, cycles, canPush), |lane|, cycles);
    ProgressIffRanksDrop(lane, cycles, canPush);
  }

  // With no cycle per stage, an item that moves on does not make the plain sum smaller.
  lemma MovesOnForFree(cycles: int)
    requires cycles <= 0
    ensures var lane := [Item(Elem(7, 0, 0), cycles - 1), Empty];
            && LaneMoves(lane, cycles, true) > 0
            && PlainSum(lane, 2, cycles) == 2 * cycles
            && PlainSum(LaneTick(lane, cycles, true), 2, cycles) == cycles
  {
    var lane := [Item(Elem(7, 0, 0), cycles - 1), Empty];
    var r := [Empty, Item(Elem(7, 0, 0), cycles - 1)];
    assert StepLast(lane, true) == lane;
    assert StepStage(lane, 0, cycles) == r && r[0] != lane[0];
    assert StepDown(lane, 1, cycles) == StepDown(r, 0, cycles) == r;
    assert PlainSum(lane, 1, cycles) == 2 * cycles;
    assert PlainSum(r, 1, cycles) == 0;
  }
}

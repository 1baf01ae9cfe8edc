// Runs of a pipeline: lanes that share one buffer behind them (akita/pipelining/pipeline.go).
// Nothing is lost, each lane keeps its order, and no item leaves too early, or late if the
// buffer never refuses.
module PipelineRuns {
  import opened Pipeline

  // An item that left, and the number of ticks that had then begun.
  datatype Out = Out(elem: Elem, at: nat)

  // accepted, pushed and consumed are history.
  datatype Sys = Sys(
    stages: nat,
    cycles: int,
    capacity: nat,
    lanes: seq<seq<Slot>>,
    buf: seq<Elem>,
    ticks: nat,
    accepted: seq<Elem>,
    pushed: seq<Out>,
    consumed: seq<Elem>)

  datatype Action = Tick | Accept(id: nat) | Consume

  ghost function LastElem(lane: seq<Slot>, canPush: bool): Elem
    requires Leaves(lane, canPush)
  {
    lane[|lane| - 1].elem
  }

  // One lane's part of a tick.
  ghost function TickLane(s: Sys, l: nat): (r: Sys)
    requires l < |s.lanes|
    ensures |r.lanes| == |s.lanes|
  {
    var room := |s.buf| < s.capacity;
    var lane := s.lanes[l];
    var lanes := s.lanes[l := LaneTick(lane, s.cycles, room)];
    if Leaves(lane, room) then
      s.(lanes := lanes, buf := s.buf + [LastElem(lane, room)],
         pushed := s.pushed + [Out(LastElem(lane, room), s.ticks + 1)])
    else
      s.(lanes := lanes)
  }

  // The lanes before l, in order.
  ghost function TickLanes(s: Sys, l: nat): (r: Sys)
    requires l <= |s.lanes|
    ensures |r.lanes| == |s.lanes|
  {
    if l == 0 then s else TickLane(TickLanes(s, l - 1), l - 1)
  }

  // The number of items that make progress in the lanes before l.
  ghost function TickMoves(s: Sys, l: nat): nat
    requires l <= |s.lanes|
  {
    if l == 0 then 0
    else
      var r := TickLanes(s, l - 1);
      TickMoves(s, l - 1) + LaneMoves(r.lanes[l - 1], r.cycles, |r.buf| < r.capacity)
  }

  ghost predicate Free(lane: seq<Slot>) {
    lane != [] && lane[0].Empty?
  }

  ghost predicate CanAccept(s: Sys) {
    if s.stages == 0 then |s.buf| < s.capacity else exists l :: 0 <= l < |s.lanes| && Free(s.lanes[l])
  }

  // The first lane with a free first stage.
  ghost function FirstFree(lanes: seq<seq<Slot>>): (l: nat)
    requires exists l :: 0 <= l < |lanes| && Free(lanes[l])
    ensures l < |lanes| && Free(lanes[l]) && forall k :: 0 <= k < l ==> !Free(lanes[k])
  {
    if Free(lanes[0]) then 0
    else
      assert exists l :: 0 <= l < |lanes[1..]| && Free(lanes[1..][l]) by {
        var l :| 0 <= l < |lanes| && Free(lanes[l]);
        assert lanes[1..][l - 1] == lanes[l];
      }
      1 + FirstFree(lanes[1..])
  }

  ghost function AcceptIn(s: Sys, id: nat): Sys
    requires CanAccept(s)
  {
    if s.stages == 0 then
      var e := Elem(id, s.ticks, 0);
      s.(buf := s.buf + [e], accepted := s.accepted + [e], pushed := s.pushed + [Out(e, s.ticks)])
    else
      var l := FirstFree(s.lanes);
      var e := Elem(id, s.ticks, l);
      s.(lanes := s.lanes[l := s.lanes[l][0 := Item(e, s.cycles - 1)]], accepted := s.accepted + [e])
  }

  ghost predicate Enabled(s: Sys, a: Action) {
    match a
    case Tick => true
    case Accept(_) => CanAccept(s)
    case Consume => s.buf != []
  }

  ghost function Apply(s: Sys, a: Action): Sys
    requires Enabled(s, a)
  {
    match a
    case Tick => TickLanes(s, |s.lanes|).(ticks := s.ticks + 1)
    case Accept(id) => AcceptIn(s, id)
    case Consume => s.(buf := s.buf[1..], consumed := s.consumed + [s.buf[0]])
  }

  ghost predicate Init(s: Sys) {
    && (forall l :: 0 <= l < |s.lanes| ==>
          |s.lanes[l]| == s.stages && forall i :: 0 <= i < s.stages ==> s.lanes[l][i] == Empty)
    && s == Sys(s.stages, s.cycles, s.capacity, s.lanes, [], 0, [], [], [])
  }

  ghost predicate Run(run: seq<Sys>, actions: seq<Action>) {
    && |run| == |actions| + 1 && Init(run[0])
    && forall i :: 0 <= i < |actions| ==> Enabled(run[i], actions[i]) && run[i + 1] == Apply(run[i], actions[i])
  }

  // ---------- histories by lane ----------

  ghost function OfLane(es: seq<Elem>, l: nat): seq<Elem> {
    if es == [] then []
    else OfLane(es[..|es| - 1], l) + (if es[|es| - 1].lane == l then [es[|es| - 1]] else [])
  }

  ghost function OutsOf(outs: seq<Out>, l: nat): seq<Out> {
    if outs == [] then []
    else OutsOf(outs[..|outs| - 1], l) + (if outs[|outs| - 1].elem.lane == l then [outs[|outs| - 1]] else [])
  }

  ghost function Elems(outs: seq<Out>): seq<Elem> {
    seq(|outs|, i requires 0 <= i < |outs| => outs[i].elem)
  }

  ghost function Inside(a: seq<Entry>): seq<Elem> {
    seq(|a|, i requires 0 <= i < |a| => a[i].elem)
  }

  lemma OfLaneMore(es: seq<Elem>, e: Elem, l: nat)
    ensures OfLane(es + [e], l) == if e.lane == l then OfLane(es, l) + [e] else OfLane(es, l)
  {
    assert (es + [e])[..|es|] == es;
  }

  lemma OutsMore(outs: seq<Out>, o: Out, l: nat)
    ensures OutsOf(outs + [o], l) == if o.elem.lane == l then OutsOf(outs, l) + [o] else OutsOf(outs, l)
  {
    assert (outs + [o])[..|outs|] == outs;
  }

  // ---------- the invariant of a lane ----------

  // At time t: the lane's items are those accepted and not yet out, in order; the items inside
  // cannot have left yet, and those that left had been inside long enough.
  ghost predicate LaneInv(lane: seq<Slot>, stages: nat, cycles: int, t: nat, accepted: seq<Elem>, outs: seq<Out>) {
    && |lane| == stages && LaneOk(lane, cycles)
    && accepted == Elems(outs) + Inside(LaneEntries(lane, cycles))
    && EntriesInTime(LaneEntries(lane, cycles), stages * Span(cycles), t)
    && OutsInTime(outs, stages * Span(cycles), t)
  }

  ghost predicate EntriesInTime(a: seq<Entry>, latency: int, t: nat) {
    forall k :: 0 <= k < |a| ==> a[k].elem.born <= t && a[k].rank + t >= a[k].elem.born + latency
  }

  ghost predicate OutsInTime(outs: seq<Out>, latency: int, t: nat) {
    forall k :: 0 <= k < |outs| ==> outs[k].elem.born + latency <= outs[k].at <= t
  }

  lemma LoweredInTime(a: seq<Entry>, b: seq<Entry>, latency: int, t: nat)
    requires Lowered(a, b) && EntriesInTime(a, latency, t)
    ensures EntriesInTime(b, latency, t + 1) && Inside(a) == Inside(b)
  {
  }

  lemma DropFirst(a: seq<Entry>, latency: int, t: nat)
    requires a != [] && EntriesInTime(a, latency, t)
    ensures EntriesInTime(a[1..], latency, t) && Inside(a) == [a[0].elem] + Inside(a[1..])
    ensures a[0].rank == 1 ==> t + 1 >= a[0].elem.born + latency
  {
  }

  ghost function MoreOuts(lane: seq<Slot>, canPush: bool, t: nat, outs: seq<Out>): seq<Out> {
    if Leaves(lane, canPush) then outs + [Out(LastElem(lane, canPush), t + 1)] else outs
  }

  lemma ElemsMore(outs: seq<Out>, o: Out)
    ensures Elems(outs + [o]) == Elems(outs) + [o.elem]
  {
  }

  lemma TickLaneInv(lane: seq<Slot>, stages: nat, cycles: int, t: nat, accepted: seq<Elem>, outs: seq<Out>,
                    canPush: bool)
    requires LaneInv(lane, stages, cycles, t, accepted, outs)
    ensures LaneInv(LaneTick(lane, cycles, canPush), stages, cycles, t + 1, accepted, MoreOuts(lane, canPush, t, outs))
  {
    hide LaneEntries, LaneTick, LaneOk, Leaves, Lowered, EntriesInTime, Elems, Inside;
    var was, now := LaneEntries(lane, cycles), LaneEntries(LaneTick(lane, cycles, canPush), cycles);
    LaneTickLowers(lane, cycles, canPush);
    if Leaves(lane, canPush) {
      DropFirst(was, stages * Span(cycles), t);
      LoweredInTime(was[1..], now, stages * Span(cycles), t);
      ElemsMore(outs, Out(LastElem(lane, canPush), t + 1));
    } else {
      LoweredInTime(was, now, stages * Span(cycles), t);
    }
  }

  // A new item starts at the full latency, behind all others.
  lemma AcceptedEntry(lane: seq<Slot>, cycles: int, e: Elem)
    requires Free(lane)
    ensures LaneEntries(lane[0 := Item(e, cycles - 1)], cycles) ==
            LaneEntries(lane, cycles) + [Entry(e, |lane| * Span(cycles))]
  {
    hide Rank, Entries, EntryOf;
    var r, n := lane[0 := Item(e, cycles - 1)], |lane|;
    RankFull(n, cycles);
    EntriesSplit(r, 0, 1, n, cycles);
    EntriesSplit(lane, 0, 1, n, cycles);
    EntriesFrame(r, lane, 1, n, cycles);
    EntriesOne(r, 0, cycles);
    EntriesOne(lane, 0, cycles);
    EntryOfSlot(e, cycles - 1, n - 1, cycles);
  }

  lemma EntryOfSlot(e: Elem, cycleLeft: int, after: nat, cycles: int)
    ensures EntryOf(Item(e, cycleLeft), after, cycles) == [Entry(e, Rank(cycleLeft, after, cycles))]
    ensures EntryOf(Empty, after, cycles) == []
  {
  }

  lemma RankFull(n: nat, cycles: int)
    requires n > 0
    ensures Rank(cycles - 1, n - 1, cycles) == n * Span(cycles)
  {
    assert n * Span(cycles) == (n - 1) * Span(cycles) + Span(cycles);
  }

  lemma AcceptLaneInv(lane: seq<Slot>, stages: nat, cycles: int, t: nat, accepted: seq<Elem>, outs: seq<Out>, e: Elem)
    requires LaneInv(lane, stages, cycles, t, accepted, outs) && Free(lane) && e.born == t
    ensures LaneInv(lane[0 := Item(e, cycles - 1)], stages, cycles, t, accepted + [e], outs)
  {
    hide LaneEntries;
    AcceptedEntry(lane, cycles, e);
  }

  // ---------- the invariant of the pipeline ----------

  // All lanes, those before l already ticked.
  ghost predicate LanesInv(s: Sys, l: nat) {
    forall k :: 0 <= k < |s.lanes| ==>
      LaneInv(s.lanes[k], s.stages, s.cycles, if k < l then s.ticks + 1 else s.ticks,
              OfLane(s.accepted, k), OutsOf(s.pushed, k))
  }

  ghost predicate BufferInv(s: Sys) {
    && |s.buf| <= s.capacity
    && Elems(s.pushed) == s.consumed + s.buf
    && (forall k :: 0 <= k < |s.lanes| ==> InLane(s.lanes[k], k))
  }

  // The items of a lane were accepted by it.
  ghost predicate InLane(lane: seq<Slot>, l: nat) {
    forall i :: 0 <= i < |lane| && lane[i].Item? ==> lane[i].elem.lane == l
  }

  ghost predicate Inv(s: Sys) {
    LanesInv(s, 0) && BufferInv(s)
  }

  lemma {:induction false} StepDownInLane(lane: seq<Slot>, i: nat, cycles: int, l: nat)
    requires i < |lane| && InLane(lane, l)
    ensures InLane(StepDown(lane, i, cycles), l)
    decreases i
  {
    if i > 0 {
      StepDownInLane(StepStage(lane, i - 1, cycles), i - 1, cycles, l);
    }
  }

  lemma TickInLane(lane: seq<Slot>, cycles: int, canPush: bool, l: nat)
    requires InLane(lane, l)
    ensures InLane(LaneTick(lane, cycles, canPush), l)
    ensures Leaves(lane, canPush) ==> LastElem(lane, canPush).lane == l
  {
    if lane != [] {
      StepDownInLane(StepLast(lane, canPush), |lane| - 1, cycles, l);
    }
  }

  lemma TickLaneBuffer(s: Sys, l: nat)
    requires BufferInv(s) && l < |s.lanes|
    ensures BufferInv(TickLane(s, l))
  {
    hide LaneTick, Leaves, InLane;
    var room := |s.buf| < s.capacity;
    TickInLane(s.lanes[l], s.cycles, room, l);
    if Leaves(s.lanes[l], room) {
      assert room by {
        LeavesRoom(s.lanes[l], room);
      }
      ElemsMore(s.pushed, Out(LastElem(s.lanes[l], room), s.ticks + 1));
    }
  }

  lemma LeavesRoom(lane: seq<Slot>, canPush: bool)
    requires Leaves(lane, canPush)
    ensures canPush
  {
  }

  lemma TickLaneLanes(s: Sys, l: nat)
    requires LanesInv(s, l) && BufferInv(s) && l < |s.lanes|
    ensures LanesInv(TickLane(s, l), l + 1)
  {
    hide LaneTick, Leaves, InLane, LaneInv, OfLane, OutsOf;
    var room, r := |s.buf| < s.capacity, TickLane(s, l);
    TickInLane(s.lanes[l], s.cycles, room, l);
    forall k | 0 <= k < |r.lanes|
      ensures LaneInv(r.lanes[k], r.stages, r.cycles, if k < l + 1 then r.ticks + 1 else r.ticks,
                      OfLane(r.accepted, k), OutsOf(r.pushed, k))
    {
      if Leaves(s.lanes[l], room) {
        OutsMore(s.pushed, Out(LastElem(s.lanes[l], room), s.ticks + 1), k);
      }
      if k == l {
        TickLaneInv(s.lanes[l], s.stages, s.cycles, s.ticks, OfLane(s.accepted, l), OutsOf(s.pushed, l), room);
      }
    }
  }

  lemma {:induction false} TickLanesInv(s: Sys, l: nat)
    requires Inv(s) && l <= |s.lanes|
    ensures LanesInv(TickLanes(s, l), l) && BufferInv(TickLanes(s, l))
  {
    hide LanesInv, BufferInv, TickLane;
    if l > 0 {
      TickLanesInv(s, l - 1);
      TickLaneLanes(TickLanes(s, l - 1), l - 1);
      TickLaneBuffer(TickLanes(s, l - 1), l - 1);
    }
  }

  lemma {:induction false} TickLanesKeeps(s: Sys, l: nat)
    requires l <= |s.lanes|
    ensures TickLanes(s, l).ticks == s.ticks && TickLanes(s, l).accepted == s.accepted
    ensures TickLanes(s, l).stages == s.stages && TickLanes(s, l).cycles == s.cycles
  {
    hide LaneTick, Leaves;
    if l > 0 {
      TickLanesKeeps(s, l - 1);
    }
  }

  lemma TickInv(s: Sys)
    requires Inv(s)
    ensures Inv(Apply(s, Tick))
  {
    hide LaneInv, InLane, TickLanes;
    TickLanesInv(s, |s.lanes|);
    TickLanesKeeps(s, |s.lanes|);
  }

  lemma AcceptInv(s: Sys, id: nat)
    requires Inv(s) && CanAccept(s)
    ensures Inv(AcceptIn(s, id))
  {
    hide LaneInv, OfLane, OutsOf, FirstFree;
    var r := AcceptIn(s, id);
    if s.stages == 0 {
      AcceptNoStages(s, id);
    } else {
      var l := FirstFree(s.lanes);
      var e := Elem(id, s.ticks, l);
      forall k | 0 <= k < |r.lanes|
        ensures LaneInv(r.lanes[k], r.stages, r.cycles, r.ticks, OfLane(r.accepted, k), OutsOf(r.pushed, k))
      {
        OfLaneMore(s.accepted, e, k);
        if k == l {
          AcceptLaneInv(s.lanes[l], s.stages, s.cycles, s.ticks, OfLane(s.accepted, l), OutsOf(s.pushed, l), e);
        }
      }
    }
  }

  lemma PassThrough(cycles: int, t: nat, accepted: seq<Elem>, outs: seq<Out>, e: Elem)
    requires LaneInv([], 0, cycles, t, accepted, outs) && e.born == t
    ensures LaneInv([], 0, cycles, t, accepted + [e], outs + [Out(e, t)])
  {
    ElemsMore(outs, Out(e, t));
  }

  lemma AcceptNoStages(s: Sys, id: nat)
    requires Inv(s) && CanAccept(s) && s.stages == 0
    ensures Inv(AcceptIn(s, id))
  {
    hide OfLane, OutsOf;
    var r := AcceptIn(s, id);
    var e := Elem(id, s.ticks, 0);
    ElemsMore(s.pushed, Out(e, s.ticks));
    forall k | 0 <= k < |r.lanes|
      ensures LaneInv(r.lanes[k], r.stages, r.cycles, r.ticks, OfLane(r.accepted, k), OutsOf(r.pushed, k))
    {
      OfLaneMore(s.accepted, e, k);
      OutsMore(s.pushed, Out(e, s.ticks), k);
      assert s.lanes[k] == [];
      if k == 0 {
        PassThrough(s.cycles, s.ticks, OfLane(s.accepted, 0), OutsOf(s.pushed, 0), e);
      }
    }
  }

  lemma {:induction false} NoEntries(lane: seq<Slot>, hi: nat, cycles: int)
    requires hi <= |lane| && forall i :: 0 <= i < |lane| ==> lane[i] == Empty
    ensures Entries(lane, 0, hi, cycles) == []
  {
    if hi > 0 {
      NoEntries(lane, hi - 1, cycles);
    }
  }

  lemma InitInv(s: Sys)
    requires Init(s)
    ensures Inv(s)
  {
    forall l | 0 <= l < |s.lanes| ensures LaneEntries(s.lanes[l], s.cycles) == [] {
      NoEntries(s.lanes[l], s.stages, s.cycles);
    }
    hide LaneEntries;
  }

  lemma StepInv(s: Sys, a: Action)
    requires Inv(s) && Enabled(s, a)
    ensures Inv(Apply(s, a))
  {
    hide LaneInv, InLane, TickLanes, AcceptIn;
    match a
    case Tick => TickInv(s);
    case Accept(id) => AcceptInv(s, id);
    case Consume =>
  }

  lemma {:induction false} RunInv(run: seq<Sys>, actions: seq<Action>, i: nat)
    requires Run(run, actions) && i < |run|
    ensures Inv(run[i])
  {
    hide Inv, Apply;
    if i == 0 {
      InitInv(run[0]);
    } else {
      RunInv(run, actions, i - 1);
      StepInv(run[i - 1], actions[i - 1]);
    }
  }

  // ---------- theorems ----------

  // No item is lost, made up or overtaken: what a lane accepted is what left it followed by
  // what is inside, in order; and what left is what was consumed followed by the buffer.
  lemma NothingLostNothingOvertaken(run: seq<Sys>, actions: seq<Action>, i: nat, l: nat)
    requires Run(run, actions) && i < |run| && l < |run[i].lanes|
    ensures var s := run[i];
            && OfLane(s.accepted, l) == Elems(OutsOf(s.pushed, l)) + Inside(LaneEntries(s.lanes[l], s.cycles))
            && Elems(s.pushed) == s.consumed + s.buf && |s.buf| <= s.capacity
  {
    RunInv(run, actions, i);
  }

  // An item that leaves has been inside for at least its stages' cycles.
  lemma NobodyLeavesEarly(run: seq<Sys>, actions: seq<Action>, i: nat, l: nat, o: Out)
    requires Run(run, actions) && i < |run| && l < |run[i].lanes| && o in OutsOf(run[i].pushed, l)
    ensures o.at >= o.elem.born + run[i].stages * Span(run[i].cycles)
  {
    RunInv(run, actions, i);
    hide LaneEntries, LaneOk, OutsOf;
    assert LaneInv(run[i].lanes[l], run[i].stages, run[i].cycles, run[i].ticks,
                   OfLane(run[i].accepted, l), OutsOf(run[i].pushed, l));
  }

  ghost function RankTotal(lanes: seq<seq<Slot>>, cycles: int): int {
    if lanes == [] then 0
    else RankTotal(lanes[..|lanes| - 1], cycles) + RankSum(LaneEntries(lanes[|lanes| - 1], cycles))
  }

  lemma {:induction false} TotalChange(lanes: seq<seq<Slot>>, l: nat, lane: seq<Slot>, cycles: int)
    requires l < |lanes|
    ensures RankTotal(lanes[l := lane], cycles) ==
            RankTotal(lanes, cycles) - RankSum(LaneEntries(lanes[l], cycles)) + RankSum(LaneEntries(lane, cycles))
  {
    hide RankSum, LaneEntries;
    var n := |lanes| - 1;
    if l < n {
      assert lanes[l := lane][..n] == lanes[..n][l := lane];
      TotalChange(lanes[..n], l, lane, cycles);
    } else {
      assert lanes[l := lane][..n] == lanes[..n];
    }
  }

  lemma {:induction false} TickLanesTotal(s: Sys, l: nat)
    requires Inv(s) && l <= |s.lanes|
    ensures RankTotal(TickLanes(s, l).lanes, s.cycles) == RankTotal(s.lanes, s.cycles) - TickMoves(s, l)
  {
    hide RankSum, LaneEntries, LaneTick, Leaves, LaneMoves, RankTotal, LanesInv, BufferInv;
    if l > 0 {
      var r := TickLanes(s, l - 1);
      TickLanesTotal(s, l - 1);
      TickLanesInv(s, l - 1);
      TickLanesKeeps(s, l - 1);
      LaneIsOk(r, l - 1);
      LaneTickSums(r.lanes[l - 1], r.cycles, |r.buf| < r.capacity);
      TotalChange(r.lanes, l - 1, LaneTick(r.lanes[l - 1], r.cycles, |r.buf| < r.capacity), s.cycles);
    }
  }

  lemma LaneIsOk(s: Sys, l: nat)
    requires LanesInv(s, l) && l < |s.lanes|
    ensures LaneOk(s.lanes[l], s.cycles)
  {
    hide LaneOk, LaneEntries, OfLane, OutsOf;
    assert LaneInv(s.lanes[l], s.stages, s.cycles, s.ticks, OfLane(s.accepted, l), OutsOf(s.pushed, l));
  }

  // A tick makes progress exactly when the sum of all ranks drops, by the number of items that
  // made progress.
  lemma ProgressIffTotalDrops(run: seq<Sys>, actions: seq<Action>, i: nat)
    requires Run(run, actions) && i < |actions| && actions[i] == Tick
    ensures var s, r := run[i], run[i + 1];
            RankTotal(r.lanes, s.cycles) == RankTotal(s.lanes, s.cycles) - TickMoves(s, |s.lanes|)
  {
    RunInv(run, actions, i);
    hide Inv, RankTotal, TickLanes, TickMoves;
    TickLanesTotal(run[i], |run[i].lanes|);
  }

  // ---------- when the buffer never refuses ----------

  // The last stage of a lane holds an item that has no cycles left.
  ghost predicate Due(lane: seq<Slot>) {
    lane != [] && lane[|lane| - 1].Item? && lane[|lane| - 1].cycleLeft <= 0
  }

  // The buffer turns down the item that lane l has for it.
  ghost predicate Refused(s: Sys, l: nat)
    requires l < |s.lanes|
  {
    Due(s.lanes[l]) && |s.buf| >= s.capacity
  }

  // No lane finds the buffer full, by what it held before the tick and what the lanes before
  // have put into it, when it has an item for it.
  ghost predicate NeverRefuses(s: Sys, a: Action) {
    a == Tick ==> forall l :: 0 <= l < |s.lanes| ==> !RefusedInTurn(s, l)
  }

  ghost predicate RefusedInTurn(s: Sys, l: nat)
    requires l < |s.lanes|
  {
    Refused(TickLanes(s, l), l)
  }

  // The items of a lane are spaced out and exactly on time.
  ghost predicate OnTime(lane: seq<Slot>, stages: nat, cycles: int, t: nat, outs: seq<Out>) {
    && Spaced(LaneEntries(lane, cycles), cycles)
    && (forall e :: e in LaneEntries(lane, cycles) ==> e.rank >= 1 && e.rank + t == e.elem.born + stages * Span(cycles))
    && (forall o :: o in outs ==> o.at == o.elem.born + stages * Span(cycles))
  }

  lemma {:induction false} RanksPositive(lane: seq<Slot>, hi: nat, cycles: int, e: Entry)
    requires LaneOk(lane, cycles) && hi <= |lane| && e in Entries(lane, 0, hi, cycles)
    ensures e.rank >= 1
  {
    if e !in EntryOf(lane[hi - 1], |lane| - hi, cycles) {
      RanksPositive(lane, hi - 1, cycles, e);
    }
  }

  // A lane with nothing due ticks the same whether or not there is room.
  lemma NotDue(lane: seq<Slot>, cycles: int)
    requires !Due(lane)
    ensures LaneTick(lane, cycles, false) == LaneTick(lane, cycles, true)
    ensures !Leaves(lane, false) && !Leaves(lane, true)
  {
    hide StepDown;
  }

  lemma LaneOnTime(lane: seq<Slot>, stages: nat, cycles: int, t: nat, outs: seq<Out>, canPush: bool)
    requires LaneOk(lane, cycles) && OnTime(lane, stages, cycles, t, outs) && (Due(lane) ==> canPush)
    ensures OnTime(LaneTick(lane, cycles, canPush), stages, cycles, t + 1, MoreOuts(lane, canPush, t, outs))
  {
    hide LaneTick, OnTime, Leaves, LaneOk, Due;
    TickOnTime(lane, stages, cycles, t, outs);
    if !canPush {
      NotDue(lane, cycles);
    }
  }

  lemma TickOnTime(lane: seq<Slot>, stages: nat, cycles: int, t: nat, outs: seq<Out>)
    requires LaneOk(lane, cycles) && OnTime(lane, stages, cycles, t, outs)
    ensures OnTime(LaneTick(lane, cycles, true), stages, cycles, t + 1, MoreOuts(lane, true, t, outs))
  {
    hide LaneEntries, LaneTick, LaneOk, Leaves, Lowered, Spaced, AllCloser;
    var was, now := LaneEntries(lane, cycles), LaneEntries(LaneTick(lane, cycles, true), cycles);
    LaneTickLowers(lane, cycles, true);
    TickBringsAllCloser(lane, cycles);
    TickedRanks(lane, cycles);
    if Leaves(lane, true) {
      assert was[0] in was;
      CloserOnTime(was[1..], now, stages * Span(cycles), t, cycles);
      SpacedFrom(was, cycles);
    } else {
      CloserOnTime(was, now, stages * Span(cycles), t, cycles);
    }
  }

  lemma TickedRanks(lane: seq<Slot>, cycles: int)
    requires LaneOk(lane, cycles)
    ensures forall e :: e in LaneEntries(LaneTick(lane, cycles, true), cycles) ==> e.rank >= 1
  {
    hide LaneTick, Leaves, Lowered, Entries;
    LaneTickLowers(lane, cycles, true);
    var r := LaneTick(lane, cycles, true);
    forall e | e in LaneEntries(r, cycles) ensures e.rank >= 1 {
      RanksPositive(r, |r|, cycles, e);
    }
  }

  lemma SpacedFrom(a: seq<Entry>, cycles: int)
    requires a != [] && Spaced(a, cycles)
    ensures Spaced(a[1..], cycles)
  {
    hide Spaced;
    assert a == [a[0]] + a[1..];
    SpacedTail(a[0], a[1..], cycles);
  }

  lemma CloserOnTime(a: seq<Entry>, b: seq<Entry>, latency: int, t: nat, cycles: int)
    requires AllCloser(a, b) && forall e :: e in a ==> e.rank + t == e.elem.born + latency
    ensures forall e :: e in b ==> e.rank + t + 1 == e.elem.born + latency
    ensures Spaced(a, cycles) ==> Spaced(b, cycles)
  {
    forall e | e in b ensures e.rank + t + 1 == e.elem.born + latency {
      var k :| 0 <= k < |b| && b[k] == e;
      assert a[k] in a;
    }
  }

  // In a lane with a free first stage all items are at least a stage ahead.
  lemma {:induction false} FreeRanks(lane: seq<Slot>, hi: nat, cycles: int, e: Entry)
    requires LaneOk(lane, cycles) && hi <= |lane| && e in Entries(lane, 1, hi, cycles)
    ensures e.rank + Span(cycles) <= |lane| * Span(cycles)
  {
    if e in EntryOf(lane[hi - 1], |lane| - hi, cycles) {
      var span := Span(cycles);
      assert |lane| * span == (|lane| - hi) * span + hi * span;
      assert hi * span == 2 * span + (hi - 2) * span;
      assert (hi - 2) * span >= 0;
    } else {
      FreeRanks(lane, hi - 1, cycles, e);
    }
  }

  lemma SpacedMore(a: seq<Entry>, e: Entry, cycles: int)
    requires Spaced(a, cycles) && forall x :: x in a ==> x.rank + Span(cycles) <= e.rank
    ensures Spaced(a + [e], cycles)
  {
    if a != [] {
      assert a[|a| - 1] in a;
    }
  }

  lemma AcceptOnTime(lane: seq<Slot>, stages: nat, cycles: int, t: nat, outs: seq<Out>, e: Elem)
    requires |lane| == stages && LaneOk(lane, cycles) && OnTime(lane, stages, cycles, t, outs)
    requires Free(lane) && e.born == t
    ensures OnTime(lane[0 := Item(e, cycles - 1)], stages, cycles, t, outs)
  {
    hide LaneOk, Spaced, Entries;
    AcceptedEntry(lane, cycles, e);
    FreeIsAhead(lane, cycles);
    SpacedMore(LaneEntries(lane, cycles), Entry(e, stages * Span(cycles)), cycles);
    assert stages * Span(cycles) >= 1;
  }

  lemma FreeIsAhead(lane: seq<Slot>, cycles: int)
    requires Free(lane) && LaneOk(lane, cycles)
    ensures forall x :: x in LaneEntries(lane, cycles) ==> x.rank + Span(cycles) <= |lane| * Span(cycles)
  {
    hide LaneOk, Rank, Entries;
    EntriesSplit(lane, 0, 1, |lane|, cycles);
    EntriesOne(lane, 0, cycles);
    forall x | x in LaneEntries(lane, cycles) ensures x.rank + Span(cycles) <= |lane| * Span(cycles) {
      FreeRanks(lane, |lane|, cycles, x);
    }
  }

  ghost predicate LanesOnTime(s: Sys, l: nat) {
    forall k :: 0 <= k < |s.lanes| ==>
      OnTime(s.lanes[k], s.stages, s.cycles, if k < l then s.ticks + 1 else s.ticks, OutsOf(s.pushed, k))
  }

  lemma TickLaneOnTime(s: Sys, l: nat)
    requires LanesInv(s, l) && BufferInv(s) && LanesOnTime(s, l) && l < |s.lanes| && !Refused(s, l)
    ensures LanesOnTime(TickLane(s, l), l + 1)
  {
    hide LaneTick, Leaves, InLane, LaneInv, OnTime, OutsOf, Due;
    var r, room := TickLane(s, l), |s.buf| < s.capacity;
    TickInLane(s.lanes[l], s.cycles, room, l);
    LaneIsOk(s, l);
    forall k | 0 <= k < |r.lanes|
      ensures OnTime(r.lanes[k], r.stages, r.cycles, if k < l + 1 then r.ticks + 1 else r.ticks, OutsOf(r.pushed, k))
    {
      if Leaves(s.lanes[l], room) {
        OutsMore(s.pushed, Out(LastElem(s.lanes[l], room), s.ticks + 1), k);
      }
      if k == l {
        LaneOnTime(s.lanes[l], s.stages, s.cycles, s.ticks, OutsOf(s.pushed, l), room);
      }
    }
  }

  lemma {:induction false} TickLanesOnTime(s: Sys, l: nat)
    requires Inv(s) && LanesOnTime(s, 0) && l <= |s.lanes|
    requires forall k :: 0 <= k < |s.lanes| ==> !RefusedInTurn(s, k)
    ensures LanesOnTime(TickLanes(s, l), l)
  {
    hide LanesInv, BufferInv, LanesOnTime, TickLane, Refused;
    if l > 0 {
      TickLanesInv(s, l - 1);
      TickLanesOnTime(s, l - 1);
      assert !RefusedInTurn(s, l - 1);
      TickLaneOnTime(TickLanes(s, l - 1), l - 1);
    }
  }

  lemma AcceptLanesOnTime(s: Sys, id: nat)
    requires Inv(s) && LanesOnTime(s, 0) && CanAccept(s)
    ensures LanesOnTime(AcceptIn(s, id), 0)
  {
    hide OnTime, OutsOf, FirstFree, LaneEntries, LaneOk, OfLane;
    var r := AcceptIn(s, id);
    if s.stages == 0 {
      forall k | 0 <= k < |r.lanes| ensures OnTime(r.lanes[k], 0, r.cycles, r.ticks, OutsOf(r.pushed, k)) {
        var e := Elem(id, s.ticks, 0);
        OutsMore(s.pushed, Out(e, s.ticks), k);
        PassOnTime(s.lanes[k], s.cycles, s.ticks, OutsOf(s.pushed, k), e);
      }
    } else {
      var l := FirstFree(s.lanes);
      AcceptOnTime(s.lanes[l], s.stages, s.cycles, s.ticks, OutsOf(s.pushed, l), Elem(id, s.ticks, l));
    }
  }

  lemma PassOnTime(lane: seq<Slot>, cycles: int, t: nat, outs: seq<Out>, e: Elem)
    requires OnTime(lane, 0, cycles, t, outs) && e.born == t
    ensures OnTime(lane, 0, cycles, t, outs + [Out(e, t)])
  {
  }

  lemma StepOnTime(s: Sys, a: Action)
    requires Inv(s) && LanesOnTime(s, 0) && Enabled(s, a) && NeverRefuses(s, a)
    ensures LanesOnTime(Apply(s, a), 0)
  {
    hide OnTime, AcceptIn, TickLanes, LanesInv, BufferInv;
    match a
    case Tick =>
      TickLanesOnTime(s, |s.lanes|);
      TickLanesKeeps(s, |s.lanes|);
    case Accept(id) => AcceptLanesOnTime(s, id);
    case Consume =>
  }

  lemma InitOnTime(s: Sys)
    requires Init(s)
    ensures LanesOnTime(s, 0)
  {
    forall l | 0 <= l < |s.lanes| ensures LaneEntries(s.lanes[l], s.cycles) == [] {
      NoEntries(s.lanes[l], s.stages, s.cycles);
    }
    hide LaneEntries;
  }

  lemma {:induction false} RunOnTime(run: seq<Sys>, actions: seq<Action>, i: nat)
    requires Run(run, actions) && i < |run|
    requires forall j :: 0 <= j < |actions| ==> NeverRefuses(run[j], actions[j])
    ensures LanesOnTime(run[i], 0)
  {
    hide Inv, Apply, LanesOnTime;
    if i == 0 {
      InitOnTime(run[0]);
    } else {
      RunInv(run, actions, i - 1);
      RunOnTime(run, actions, i - 1);
      StepOnTime(run[i - 1], actions[i - 1]);
    }
  }

  // If the buffer never turns an item down, each one leaves exactly its stages' cycles after
  // it was accepted: it is inside before, and out from then on.
  lemma EverybodyLeavesOnTime(run: seq<Sys>, actions: seq<Action>, i: nat, l: nat, e: Elem)
    requires Run(run, actions) && i < |run| && l < |run[i].lanes| && e in OfLane(run[i].accepted, l)
    requires forall j :: 0 <= j < |actions| ==> NeverRefuses(run[j], actions[j])
    ensures var s, latency := run[i], run[i].stages * Span(run[i].cycles);
            && (e in Elems(OutsOf(s.pushed, l)) ==>
                  s.ticks >= e.born + latency >= 0 && Out(e, e.born + latency) in s.pushed)
            && (s.ticks >= e.born + latency ==> e in Elems(OutsOf(s.pushed, l)))
  {
    var s := run[i];
    NothingLostNothingOvertaken(run, actions, i, l);
    RunOnTime(run, actions, i);
    RunInv(run, actions, i);
    hide Run, LaneEntries, OfLane, OutsOf, LaneOk, Spaced, NeverRefuses;
    assert OnTime(s.lanes[l], s.stages, s.cycles, s.ticks, OutsOf(s.pushed, l));
    assert LaneInv(s.lanes[l], s.stages, s.cycles, s.ticks, OfLane(s.accepted, l), OutsOf(s.pushed, l));
    if e in Elems(OutsOf(s.pushed, l)) {
      OutInTime(OutsOf(s.pushed, l), s.stages * Span(s.cycles), s.ticks, e);
      OutsArePushed(s.pushed, l, Out(e, e.born + s.stages * Span(s.cycles)));
    } else {
      InsideInTime(LaneEntries(s.lanes[l], s.cycles), s.stages * Span(s.cycles), s.ticks, e);
    }
  }

  lemma OutInTime(outs: seq<Out>, latency: int, t: nat, e: Elem)
    requires OutsInTime(outs, latency, t) && e in Elems(outs)
    requires forall o :: o in outs ==> o.at == o.elem.born + latency
    ensures t >= e.born + latency >= 0 && Out(e, e.born + latency) in outs
  {
    var k :| 0 <= k < |outs| && Elems(outs)[k] == e;
    assert outs[k] in outs && outs[k] == Out(e, outs[k].at);
  }

  lemma InsideInTime(a: seq<Entry>, latency: int, t: nat, e: Elem)
    requires e in Inside(a) && forall x :: x in a ==> x.rank >= 1 && x.rank + t == x.elem.born + latency
    ensures t < e.born + latency
  {
    var k :| 0 <= k < |a| && Inside(a)[k] == e;
    assert a[k] in a;
  }

  lemma {:induction false} OutsArePushed(outs: seq<Out>, l: nat, o: Out)
    requires o in OutsOf(outs, l)
    ensures o in outs
  {
    if o in OutsOf(outs[..|outs| - 1], l) {
      OutsArePushed(outs[..|outs| - 1], l, o);
    }
  }

  // ---------- late exactly if refused ----------

  // An item of lane l is still inside although its stages' cycles are over.
  ghost predicate Late(s: Sys, l: nat)
    requires l < |s.lanes|
  {
    exists e :: e in LaneEntries(s.lanes[l], s.cycles) && s.ticks >= e.elem.born + s.stages * Span(s.cycles)
  }

  ghost predicate NobodyLate(s: Sys) {
    forall l :: 0 <= l < |s.lanes| ==> !Late(s, l)
  }

  lemma OnTimeNotLate(s: Sys)
    requires LanesOnTime(s, 0)
    ensures NobodyLate(s)
  {
    hide LaneEntries, Spaced, OutsOf;
    forall l | 0 <= l < |s.lanes| ensures !Late(s, l) {
      assert OnTime(s.lanes[l], s.stages, s.cycles, s.ticks, OutsOf(s.pushed, l));
    }
  }

  lemma {:induction false} LaneInTurn(s: Sys, n: nat, l: nat)
    requires n <= |s.lanes| && l < |s.lanes|
    ensures TickLanes(s, n).lanes[l] ==
            if l < n then LaneTick(s.lanes[l], s.cycles, |TickLanes(s, l).buf| < s.capacity) else s.lanes[l]
    ensures TickLanes(s, n).cycles == s.cycles && TickLanes(s, n).capacity == s.capacity
  {
    hide LaneTick, Leaves;
    if n > 0 {
      LaneInTurn(s, n - 1, l);
    }
  }

  // The item that a lane has for the buffer goes nowhere if there is no room.
  lemma DueStays(lane: seq<Slot>, stages: nat, cycles: int, t: nat, accepted: seq<Elem>, outs: seq<Out>)
    requires LaneInv(lane, stages, cycles, t, accepted, outs) && Due(lane)
    ensures var now := LaneEntries(LaneTick(lane, cycles, false), cycles);
            now != [] && t + 1 >= now[0].elem.born + stages * Span(cycles)
  {
    var was, now := LaneEntries(lane, cycles), LaneEntries(LaneTick(lane, cycles, false), cycles);
    FirstIsDue(lane, cycles);
    LaneTickLowers(lane, cycles, false);
    hide LaneTick, LaneEntries, LaneOk;
    assert was[0].rank == 1;
  }

  lemma FirstIsDue(lane: seq<Slot>, cycles: int)
    requires Due(lane)
    ensures LaneEntries(lane, cycles) != [] && LaneEntries(lane, cycles)[0] == Entry(lane[|lane| - 1].elem, 1)
    ensures !Leaves(lane, false)
  {
    LastApart(lane, cycles);
  }

  lemma RefusedIsLate(s: Sys, l: nat)
    requires Inv(s) && l < |s.lanes| && RefusedInTurn(s, l)
    ensures Late(Apply(s, Tick), l)
  {
    hide LaneTick, LaneEntries, LaneOk, OfLane, OutsOf, TickLanes, Due, BufferInv;
    LaneInTurn(s, l, l);
    LaneInTurn(s, |s.lanes|, l);
    TickLanesKeeps(s, |s.lanes|);
    assert LaneInv(s.lanes[l], s.stages, s.cycles, s.ticks, OfLane(s.accepted, l), OutsOf(s.pushed, l));
    DueStays(s.lanes[l], s.stages, s.cycles, s.ticks, OfLane(s.accepted, l), OutsOf(s.pushed, l));
    assert LaneEntries(Apply(s, Tick).lanes[l], s.cycles)[0] in LaneEntries(Apply(s, Tick).lanes[l], s.cycles);
  }

  // In a run nobody is ever late exactly if the buffer never turns anybody down.
  lemma NobodyLateIff(run: seq<Sys>, actions: seq<Action>)
    requires Run(run, actions)
    ensures (forall i :: 0 <= i < |run| ==> NobodyLate(run[i])) <==>
            (forall j :: 0 <= j < |actions| ==> NeverRefuses(run[j], actions[j]))
  {
    hide Inv, NobodyLate, NeverRefuses, Apply, LanesOnTime;
    if forall j :: 0 <= j < |actions| ==> NeverRefuses(run[j], actions[j]) {
      forall i | 0 <= i < |run| ensures NobodyLate(run[i]) {
        RunOnTime(run, actions, i);
        OnTimeNotLate(run[i]);
      }
    } else {
      var j :| 0 <= j < |actions| && !NeverRefuses(run[j], actions[j]);
      RunInv(run, actions, j);
      SomebodyLate(run[j], actions[j]);
      assert !NobodyLate(run[j + 1]);
    }
  }

  lemma SomebodyLate(s: Sys, a: Action)
    requires Inv(s) && Enabled(s, a) && !NeverRefuses(s, a)
    ensures !NobodyLate(Apply(s, a))
  {
    hide Inv, RefusedInTurn, Late, TickLanes;
    var l :| 0 <= l < |s.lanes| && RefusedInTurn(s, l);
    RefusedIsLate(s, l);
    TickLanesSize(s);
  }

  lemma TickLanesSize(s: Sys)
    ensures |Apply(s, Tick).lanes| == |s.lanes|
  {
  }

  // ---------- which items the buffer takes ----------

  // How many lanes before l have an item for the buffer.
  ghost function DueBefore(s: Sys, l: nat): nat
    requires l <= |s.lanes|
  {
    if l == 0 then 0 else DueBefore(s, l - 1) + if Due(s.lanes[l - 1]) then 1 else 0
  }

  ghost function Least(a: int, b: int): int {
    if a < b then a else b
  }

  lemma LaneFills(s: Sys, l: nat)
    requires l < |s.lanes|
    ensures var r := TickLane(s, l);
            && s.buf <= r.buf
            && |r.buf| == |s.buf| + (if Due(s.lanes[l]) && |s.buf| < s.capacity then 1 else 0)
            && (Due(s.lanes[l]) && |s.buf| < s.capacity ==>
                  r.buf[|s.buf|] == s.lanes[l][|s.lanes[l]| - 1].elem)
  {
    hide LaneTick;
  }

  lemma {:induction false} LanesFill(s: Sys, l: nat)
    requires l <= |s.lanes| && |s.buf| <= s.capacity
    ensures s.buf <= TickLanes(s, l).buf
    ensures |TickLanes(s, l).buf| == Least(s.capacity, |s.buf| + DueBefore(s, l))
  {
    hide TickLane, Due;
    if l > 0 {
      LanesFill(s, l - 1);
      LaneInTurn(s, l - 1, l - 1);
      LaneFills(TickLanes(s, l - 1), l - 1);
    }
  }

  lemma {:induction false} BufferKeeps(s: Sys, l: nat, n: nat)
    requires l <= n <= |s.lanes|
    ensures TickLanes(s, l).buf <= TickLanes(s, n).buf
    decreases n
  {
    hide TickLane, Due;
    if l < n {
      BufferKeeps(s, l, n - 1);
      LaneFills(TickLanes(s, n - 1), n - 1);
    }
  }

  lemma {:induction false} LastStays(lane: seq<Slot>, i: nat, cycles: int)
    requires i < |lane| && lane[|lane| - 1].Item?
    ensures StepDown(lane, i, cycles)[|lane| - 1] == lane[|lane| - 1]
    decreases i
  {
    if i > 0 {
      LastStays(StepStage(lane, i - 1, cycles), i - 1, cycles);
    }
  }

  // A tick takes the items that are due from the lanes in ascending order, as long as there is
  // room behind what the buffer held and the lanes before have put into it, and nothing else; the
  // others stay where they are.
  lemma FirstLanesFirst(run: seq<Sys>, actions: seq<Action>, i: nat, l: nat)
    requires Run(run, actions) && i < |actions| && actions[i] == Tick && l < |run[i].lanes| && Due(run[i].lanes[l])
    ensures var s, r := run[i], run[i + 1];
            var k, last := |s.buf| + DueBefore(s, l), s.lanes[l][|s.lanes[l]| - 1];
            if k < s.capacity then k < |r.buf| && r.buf[k] == last.elem
            else l < |r.lanes| && |r.lanes[l]| == |s.lanes[l]| && r.lanes[l][|s.lanes[l]| - 1] == last
    ensures run[i].buf <= run[i + 1].buf
    ensures |run[i + 1].buf| == Least(run[i].capacity, |run[i].buf| + DueBefore(run[i], |run[i].lanes|))
  {
    hide Inv, TickLanes, Due, DueBefore;
    RunInv(run, actions, i);
    var s := run[i];
    BufferBounded(s);
    LanesFill(s, l);
    LanesFill(s, |s.lanes|);
    LaneInTurn(s, l, l);
    LaneInTurn(s, |s.lanes|, l);
    LaneFills(TickLanes(s, l), l);
    NextLane(s, l);
    BufferKeeps(s, l + 1, |s.lanes|);
    if |s.buf| + DueBefore(s, l) >= s.capacity {
      RefusedStays(s.lanes[l], s.cycles);
    }
  }

  lemma BufferBounded(s: Sys)
    requires Inv(s)
    ensures |s.buf| <= s.capacity
  {
    hide LanesInv, Elems;
  }

  lemma NextLane(s: Sys, l: nat)
    requires l < |s.lanes|
    ensures TickLanes(s, l + 1) == TickLane(TickLanes(s, l), l)
  {
  }

  lemma RefusedStays(lane: seq<Slot>, cycles: int)
    requires Due(lane)
    ensures LaneTick(lane, cycles, false)[|lane| - 1] == lane[|lane| - 1]
  {
    LastStays(lane, |lane| - 1, cycles);
  }

  // An item enters the first lane whose first stage is free, or the buffer if there are no
  // stages; nothing else is ever accepted.
  lemma EntersFirstFree(run: seq<Sys>, actions: seq<Action>, i: nat)
    requires Run(run, actions) && i < |actions|
    ensures var s, r, n := run[i], run[i + 1], |run[i].accepted|;
            if !actions[i].Accept? then r.accepted == s.accepted
            else
              && |r.accepted| == n + 1 && s.accepted == r.accepted[..n]
              && r.accepted[n].id == actions[i].id && r.accepted[n].born == s.ticks
              && if s.stages == 0 then r.buf == s.buf + [r.accepted[n]] else Enters(s, r, r.accepted[n])
  {
    hide Inv, TickLanes, FirstFree;
    RunInv(run, actions, i);
    TickLanesKeeps(run[i], |run[i].lanes|);
  }

  ghost predicate Enters(s: Sys, r: Sys, e: Elem) {
    && e.lane < |s.lanes| == |r.lanes|
    && s.lanes[e.lane] != [] && s.lanes[e.lane][0] == Empty
    && r.lanes[e.lane] == [Item(e, s.cycles - 1)] + s.lanes[e.lane][1..]
    && (forall l :: 0 <= l < e.lane && s.lanes[l] != [] ==> s.lanes[l][0].Item?)
    && forall l :: 0 <= l < |s.lanes| && l != e.lane ==> r.lanes[l] == s.lanes[l]
  }
}

// The parallel engine (akita/sim/parallelengine.go): rounds in which one loop takes the due
// events out of a group of queues and a worker handles each, while the workers schedule new
// events. Every step of the loop and of a worker is atomic, in any interleaving.
module ParallelEngine {
  import opened EventQueue
  import opened EngineOrder

  // Where the loop of Run is: between rounds, draining queue i of the round's group, or
  // waiting for the workers.
  datatype Pc = Between | Dispatching(i: nat) | Waiting

  // horizon is the largest time. Scheduled, started and finished events are history.
  datatype Par = Par(
    horizon: real,
    now: real,
    secondaryRound: bool,
    queues: seq<multiset<Event>>,
    secondaryQueues: seq<multiset<Event>>,
    pc: Pc,
    running: multiset<Event>,
    scheduled: multiset<Event>,
    started: seq<Event>,
    finished: multiset<Event>)

  datatype Action =
    | External(e: Event, q: nat)
    | BeginRound(primaryTime: real, secondaryTime: real)
    | Start(e: Event)
    | Return
    | WorkerSchedules(w: Event, e: Event, q: nat)
    | WorkerFinishes(w: Event)
    | EndRound

  // ---------- groups of queues ----------

  ghost function Sum(qs: seq<multiset<Event>>): multiset<Event> {
    if qs == [] then multiset{} else qs[0] + Sum(qs[1..])
  }

  lemma {:induction false} SumPush(qs: seq<multiset<Event>>, q: nat, e: Event)
    requires q < |qs|
    ensures Sum(qs[q := qs[q] + multiset{e}]) == Sum(qs) + multiset{e}
  {
    var rs := qs[q := qs[q] + multiset{e}];
    if q == 0 {
      assert rs[1..] == qs[1..];
    } else {
      assert rs[1..] == qs[1..][q - 1 := qs[1..][q - 1] + multiset{e}];
      SumPush(qs[1..], q - 1, e);
    }
  }

  lemma SumPop(qs: seq<multiset<Event>>, q: nat, e: Event)
    requires q < |qs| && e in qs[q]
    ensures Sum(qs) == Sum(qs[q := qs[q] - multiset{e}]) + multiset{e}
  {
    var rs := qs[q := qs[q] - multiset{e}];
    SumPush(rs, q, e);
    assert qs[q] - multiset{e} + multiset{e} == qs[q];
    assert rs[q := rs[q] + multiset{e}] == qs;
  }

  lemma {:induction false} InSum(qs: seq<multiset<Event>>, q: nat, e: Event)
    requires q < |qs| && e in qs[q]
    ensures e in Sum(qs)
  {
    if q > 0 {
      InSum(qs[1..], q - 1, e);
    }
  }

  lemma {:induction false} SomeQueueHas(qs: seq<multiset<Event>>, e: Event) returns (q: nat)
    requires e in Sum(qs)
    ensures q < |qs| && e in qs[q]
  {
    if e in qs[0] {
      q := 0;
    } else {
      q := SomeQueueHas(qs[1..], e);
      q := q + 1;
    }
  }

  // The earliest time in a group, or the largest time if it is empty.
  ghost predicate IsEarliestTime(t: real, events: multiset<Event>, horizon: real) {
    && t <= horizon && (forall e :: e in events ==> t <= e.time)
    && (t == horizon || exists e :: e in events && e.time == t)
  }

  lemma {:induction false} EarliestTimeExists(events: multiset<Event>, horizon: real) returns (t: real)
    ensures IsEarliestTime(t, events, horizon)
    decreases |events|
  {
    if events == multiset{} {
      t := horizon;
    } else {
      var e :| e in events;
      var rest := events - multiset{e};
      assert events == rest + multiset{e};
      t := EarliestTimeExists(rest, horizon);
      if e.time < t {
        t := e.time;
      }
    }
  }

  // ---------- the steps ----------

  ghost function Group(s: Par): seq<multiset<Event>> {
    if s.secondaryRound then s.secondaryQueues else s.queues
  }

  ghost predicate HasMoreEvents(s: Par) {
    Sum(s.queues) != multiset{} || Sum(s.secondaryQueues) != multiset{}
  }

  // A queue of the round's group can be pushed to once the loop has returned it.
  ghost predicate Available(s: Par, e: Event, q: nat) {
    && q < |if e.secondary then s.secondaryQueues else s.queues|
    && (e.secondary == s.secondaryRound && s.pc.Dispatching? ==> q < s.pc.i)
  }

  ghost predicate Enabled(s: Par, a: Action) {
    match a
    case External(e, q) => s.pc == Between && s.now <= e.time && Available(s, e, q)
    case BeginRound(p, t) =>
      && s.pc == Between && HasMoreEvents(s)
      && IsEarliestTime(p, Sum(s.queues), s.horizon) && IsEarliestTime(t, Sum(s.secondaryQueues), s.horizon)
    case Start(e) =>
      s.pc.Dispatching? && s.pc.i < |Group(s)| && Earliest(e, Group(s)[s.pc.i]) && e.time == s.now
    case Return =>
      s.pc.Dispatching? && s.pc.i < |Group(s)| && forall e :: e in Group(s)[s.pc.i] ==> e.time > s.now
    case WorkerSchedules(w, e, q) => w in s.running && w.time <= e.time && Available(s, e, q)
    case WorkerFinishes(w) => w in s.running
    case EndRound => s.pc == Waiting && s.running == multiset{}
  }

  ghost function PushTo(qs: seq<multiset<Event>>, q: nat, e: Event): seq<multiset<Event>>
    requires q < |qs|
  {
    qs[q := qs[q] + multiset{e}]
  }

  ghost function PopFrom(qs: seq<multiset<Event>>, q: nat, e: Event): seq<multiset<Event>>
    requires q < |qs|
  {
    qs[q := qs[q] - multiset{e}]
  }

  ghost function Pushed(s: Par, e: Event, q: nat): Par
    requires Available(s, e, q)
  {
    s.(queues := if e.secondary then s.queues else PushTo(s.queues, q, e),
       secondaryQueues := if e.secondary then PushTo(s.secondaryQueues, q, e) else s.secondaryQueues,
       scheduled := s.scheduled + multiset{e})
  }

  ghost function Started(s: Par, e: Event): Par
    requires Enabled(s, Start(e))
  {
    s.(queues := if s.secondaryRound then s.queues else PopFrom(s.queues, s.pc.i, e),
       secondaryQueues := if s.secondaryRound then PopFrom(s.secondaryQueues, s.pc.i, e) else s.secondaryQueues,
       running := s.running + multiset{e},
       started := s.started + [e])
  }

  ghost function Apply(s: Par, a: Action): Par
    requires Enabled(s, a)
  {
    match a
    case External(e, q) => Pushed(s, e, q)
    case BeginRound(p, t) =>
      s.(secondaryRound := !(p <= t), now := if p <= t then p else t, pc := Dispatching(0))
    case Start(e) => Started(s, e)
    case Return => s.(pc := if s.pc.i + 1 < |Group(s)| then Dispatching(s.pc.i + 1) else Waiting)
    case WorkerSchedules(_, e, q) => Pushed(s, e, q)
    case WorkerFinishes(w) => s.(running := s.running - multiset{w}, finished := s.finished + multiset{w})
    case EndRound => s.(pc := Between)
  }

  ghost predicate Init(s: Par) {
    && |s.queues| == |s.secondaryQueues| > 0 && s.horizon >= 0.0
    && s == Par(s.horizon, 0.0, false, s.queues, s.secondaryQueues, Between, multiset{}, multiset{}, [], multiset{})
    && (forall q :: 0 <= q < |s.queues| ==> s.queues[q] == s.secondaryQueues[q] == multiset{})
  }

  ghost predicate Run(run: seq<Par>, actions: seq<Action>) {
    && |run| == |actions| + 1 && Init(run[0])
    && forall i :: 0 <= i < |actions| ==> Enabled(run[i], actions[i]) && run[i + 1] == Apply(run[i], actions[i])
  }

  // ---------- the invariant ----------

  ghost predicate QueuesOk(queues: multiset<Event>, secondaryQueues: multiset<Event>, now: real) {
    && (forall e :: e in queues ==> !e.secondary && now <= e.time)
    && (forall e :: e in secondaryQueues ==> e.secondary && now <= e.time)
  }

  ghost predicate WorkersOk(s: Par) {
    && (forall w :: w in s.running ==> w.time == s.now && w.secondary == s.secondaryRound)
    && (s.pc == Between ==> s.running == multiset{})
  }

  ghost predicate Conserved(s: Par) {
    && s.scheduled == multiset(s.started) + Sum(s.queues) + Sum(s.secondaryQueues)
    && multiset(s.started) == s.running + s.finished
  }

  ghost predicate Shape(s: Par) {
    && |s.queues| == |s.secondaryQueues| > 0 && s.now <= s.horizon
    && (s.pc.Dispatching? ==> s.pc.i < |s.queues|)
  }

  ghost predicate Inv(s: Par) {
    Shape(s) && QueuesOk(Sum(s.queues), Sum(s.secondaryQueues), s.now) && WorkersOk(s) && Conserved(s)
  }

  lemma {:induction false} EmptySum(qs: seq<multiset<Event>>)
    requires forall q :: 0 <= q < |qs| ==> qs[q] == multiset{}
    ensures Sum(qs) == multiset{}
  {
    if qs != [] {
      EmptySum(qs[1..]);
    }
  }

  lemma InitInv(s: Par)
    requires Init(s)
    ensures Inv(s) && Sum(s.queues) == Sum(s.secondaryQueues) == multiset{}
  {
    EmptySum(s.queues);
    EmptySum(s.secondaryQueues);
  }

  // What a push does to the two groups.
  lemma PushSums(s: Par, e: Event, q: nat)
    requires Available(s, e, q)
    ensures var r := Pushed(s, e, q);
            && Sum(r.queues) == Sum(s.queues) + (if e.secondary then multiset{} else multiset{e})
            && Sum(r.secondaryQueues) == Sum(s.secondaryQueues) + (if e.secondary then multiset{e} else multiset{})
  {
    hide Sum;
    if e.secondary {
      SumPush(s.secondaryQueues, q, e);
    } else {
      SumPush(s.queues, q, e);
    }
  }

  lemma QueuesMore(queues: multiset<Event>, secondaryQueues: multiset<Event>, now: real, e: Event)
    requires QueuesOk(queues, secondaryQueues, now) && now <= e.time
    ensures e.secondary ==> QueuesOk(queues, secondaryQueues + multiset{e}, now)
    ensures !e.secondary ==> QueuesOk(queues + multiset{e}, secondaryQueues, now)
  {
  }

  lemma PushConserved(s: Par, e: Event, q: nat)
    requires Conserved(s) && Available(s, e, q)
    ensures Conserved(Pushed(s, e, q))
  {
    PushSums(s, e, q);
    hide Sum;
  }

  lemma PushInv(s: Par, e: Event, q: nat)
    requires Inv(s) && Available(s, e, q) && s.now <= e.time
    ensures Inv(Pushed(s, e, q))
  {
    PushSums(s, e, q);
    QueuesMore(Sum(s.queues), Sum(s.secondaryQueues), s.now, e);
    PushConserved(s, e, q);
    hide Sum, QueuesOk, Conserved;
    assert Sum(s.queues) + multiset{} == Sum(s.queues);
    assert Sum(s.secondaryQueues) + multiset{} == Sum(s.secondaryQueues);
  }

  lemma StartSums(s: Par, e: Event)
    requires Enabled(s, Start(e))
    ensures var r := Started(s, e);
            && Sum(s.queues) == Sum(r.queues) + (if s.secondaryRound then multiset{} else multiset{e})
            && Sum(s.secondaryQueues) == Sum(r.secondaryQueues) + (if s.secondaryRound then multiset{e} else multiset{})
            && e in Sum(Group(s))
  {
    hide Sum;
    SumPop(Group(s), s.pc.i, e);
  }

  lemma QueuesLess(queues: multiset<Event>, secondaryQueues: multiset<Event>, q: multiset<Event>, t: multiset<Event>,
                   now: real)
    requires QueuesOk(queues, secondaryQueues, now) && q <= queues && t <= secondaryQueues
    ensures QueuesOk(q, t, now)
  {
  }

  lemma StartKind(s: Par, e: Event)
    requires Inv(s) && Enabled(s, Start(e))
    ensures e.secondary == s.secondaryRound
  {
    StartSums(s, e);
    hide Sum;
  }

  lemma MoveOver(b: multiset<Event>, c: multiset<Event>, d: multiset<Event>, e: Event)
    ensures b + (c + multiset{e}) + d == b + multiset{e} + c + d == b + c + (d + multiset{e})
  {
  }

  lemma StartConserved(s: Par, e: Event)
    requires Conserved(s) && Enabled(s, Start(e))
    ensures Conserved(Started(s, e))
  {
    StartSums(s, e);
    hide Sum, Enabled;
    var r := Started(s, e);
    assert multiset(r.started) == multiset(s.started) + multiset{e};
    MoveOver(multiset(s.started), Sum(r.queues), Sum(r.secondaryQueues), e);
    if s.secondaryRound {
      assert Sum(s.queues) == Sum(r.queues);
    } else {
      assert Sum(s.secondaryQueues) == Sum(r.secondaryQueues);
    }
  }

  lemma StartWorkers(s: Par, e: Event)
    requires Shape(s) && WorkersOk(s) && Enabled(s, Start(e)) && e.secondary == s.secondaryRound
    ensures Shape(Started(s, e)) && WorkersOk(Started(s, e))
  {
  }

  lemma StartQueues(s: Par, e: Event)
    requires QueuesOk(Sum(s.queues), Sum(s.secondaryQueues), s.now) && Enabled(s, Start(e))
    ensures QueuesOk(Sum(Started(s, e).queues), Sum(Started(s, e).secondaryQueues), s.now)
  {
    var r := Started(s, e);
    StartSums(s, e);
    hide Sum, QueuesOk, Earliest;
    QueuesLess(Sum(s.queues), Sum(s.secondaryQueues), Sum(r.queues), Sum(r.secondaryQueues), s.now);
  }

  lemma StartInv(s: Par, e: Event)
    requires Inv(s) && Enabled(s, Start(e))
    ensures Inv(Started(s, e)) && e.secondary == s.secondaryRound
  {
    StartKind(s, e);
    hide Sum, QueuesOk, Conserved, WorkersOk, Shape, Enabled;
    StartQueues(s, e);
    StartConserved(s, e);
    StartWorkers(s, e);
  }

  lemma BeginInv(s: Par, p: real, t: real)
    requires Inv(s) && Enabled(s, BeginRound(p, t))
    ensures Inv(Apply(s, BeginRound(p, t))) && s.now <= Apply(s, BeginRound(p, t)).now
  {
    hide Sum;
    var r := Apply(s, BeginRound(p, t));
    assert QueuesOk(Sum(r.queues), Sum(r.secondaryQueues), r.now);
  }

  lemma FinishInv(s: Par, w: Event)
    requires Inv(s) && Enabled(s, WorkerFinishes(w))
    ensures Inv(Apply(s, WorkerFinishes(w)))
  {
    hide Sum;
  }

  lemma StepInv(s: Par, a: Action)
    requires Inv(s) && Enabled(s, a)
    ensures Inv(Apply(s, a)) && s.now <= Apply(s, a).now
  {
    match a
    case External(e, q) => PushInv(s, e, q);
    case BeginRound(p, t) => BeginInv(s, p, t);
    case Start(e) => StartInv(s, e);
    case Return =>
    case WorkerSchedules(_, e, q) => PushInv(s, e, q);
    case WorkerFinishes(w) => FinishInv(s, w);
    case EndRound =>
  }

  lemma {:induction false} RunInv(run: seq<Par>, actions: seq<Action>, i: nat)
    requires Run(run, actions) && i < |run|
    ensures Inv(run[i])
  {
    if i == 0 {
      InitInv(run[0]);
    } else {
      RunInv(run, actions, i - 1);
      StepInv(run[i - 1], actions[i - 1]);
    }
  }

  // ---------- no event is ever in the past ----------

  // Whatever is queued or handled is due now or later, and time never runs backwards: neither
  // the dispatch loop nor a worker ever finds an event in the past.
  lemma NeverInThePast(run: seq<Par>, actions: seq<Action>, i: nat, e: Event)
    requires Run(run, actions) && i < |run|
    requires e in Sum(run[i].queues) || e in Sum(run[i].secondaryQueues) || e in run[i].running
    ensures run[i].now <= e.time && (e in run[i].running ==> run[i].now == e.time)
    ensures i < |actions| ==> run[i].now <= run[i + 1].now
  {
    RunInv(run, actions, i);
    if i < |actions| {
      StepInv(run[i], actions[i]);
    }
  }

  // While a handler runs, the time does not move, so an event that it schedules at or after
  // the time of its own event is accepted.
  lemma SchedulingIsAccepted(run: seq<Par>, actions: seq<Action>, i: nat)
    requires Run(run, actions) && i < |actions| && actions[i].WorkerSchedules?
    ensures run[i].now == actions[i].w.time <= actions[i].e.time
  {
    RunInv(run, actions, i);
  }

  // ---------- each event is started once ----------

  // Every scheduled event is queued, being handled or finished, exactly once; when Run
  // returns, all are finished.
  lemma StartedExactlyOnce(run: seq<Par>, actions: seq<Action>, i: nat)
    requires Run(run, actions) && i < |run|
    ensures var s := run[i];
            && s.scheduled == Sum(s.queues) + Sum(s.secondaryQueues) + multiset(s.started)
            && multiset(s.started) == s.running + s.finished
            && (s.pc == Between && !HasMoreEvents(s) ==> s.finished == s.scheduled)
  {
    RunInv(run, actions, i);
  }

  // ---------- the order of starts ----------

  // The event that an action schedules is not a primary one of now after a secondary one of
  // now has started.
  ghost predicate ActsInTime(s: Par, a: Action) {
    a.External? || a.WorkerSchedules? ==> InTime(s.now, s.started, a.e)
  }

  ghost predicate Disciplined(run: seq<Par>, actions: seq<Action>)
    requires |run| == |actions| + 1
  {
    forall i :: 0 <= i < |actions| ==> ActsInTime(run[i], actions[i])
  }

  // In a round of secondary events no primary event is due.
  ghost predicate Ordered(s: Par) {
    && Settled(s.now, s.started, Sum(s.queues))
    && (s.secondaryRound && s.pc != Between ==> NoneNow(s.now, Sum(s.queues)))
  }

  lemma PushOrdered(s: Par, e: Event, q: nat)
    requires Inv(s) && Ordered(s) && Available(s, e, q) && s.now <= e.time && InTime(s.now, s.started, e)
    requires s.secondaryRound && s.pc != Between ==> exists w :: w in s.running
    ensures Ordered(Pushed(s, e, q))
  {
    PushSums(s, e, q);
    hide Sum;
    if e.secondary {
      assert Sum(s.queues) + multiset{} == Sum(s.queues);
    } else {
      ScheduleSorted(s.now, s.started, Sum(s.queues), e);
      if s.secondaryRound && s.pc != Between {
        var w :| w in s.running;
        assert w in multiset(s.started);
        assert w in s.started && w.time == s.now && w.secondary;
      }
    }
  }

  lemma StartOrdered(s: Par, e: Event)
    requires Inv(s) && Ordered(s) && Enabled(s, Start(e))
    ensures Ordered(Started(s, e))
  {
    StartInv(s, e);
    StartSums(s, e);
    hide Sum, Settled;
    StartSorted(s.now, s.started, Sum(s.queues), e, s.now, Sum(Started(s, e).queues));
  }

  lemma BeginOrdered(s: Par, p: real, t: real)
    requires Inv(s) && Ordered(s) && Enabled(s, BeginRound(p, t))
    ensures Ordered(Apply(s, BeginRound(p, t)))
  {
    BeginInv(s, p, t);
    hide Sum;
    var r := Apply(s, BeginRound(p, t));
    forall x | x in r.started && x.secondary && x.time == r.now ensures NoneNow(r.now, Sum(r.queues)) {
      assert x.time <= s.now;
    }
  }

  lemma StepOrdered(s: Par, a: Action)
    requires Inv(s) && Ordered(s) && Enabled(s, a) && ActsInTime(s, a)
    ensures Ordered(Apply(s, a))
  {
    hide Sum, Settled, NoneNow;
    match a
    case External(e, q) => PushOrdered(s, e, q);
    case BeginRound(p, t) => BeginOrdered(s, p, t);
    case Start(e) => StartOrdered(s, e);
    case Return =>
    case WorkerSchedules(w, e, q) => PushOrdered(s, e, q);
    case WorkerFinishes(w) =>
    case EndRound =>
  }

  lemma {:induction false} DisciplinedIsOrdered(run: seq<Par>, actions: seq<Action>, i: nat)
    requires Run(run, actions) && Disciplined(run, actions) && i < |run|
    ensures Ordered(run[i])
  {
    if i == 0 {
      InitInv(run[0]);
    } else {
      hide Sum, Ordered;
      DisciplinedIsOrdered(run, actions, i - 1);
      RunInv(run, actions, i - 1);
      StepOrdered(run[i - 1], actions[i - 1]);
    }
  }

  lemma {:induction false} HistoryGrows(run: seq<Par>, actions: seq<Action>, i: nat, j: nat)
    requires Run(run, actions) && i <= j < |run|
    ensures run[i].started <= run[j].started && run[i].scheduled <= run[j].scheduled
    decreases j
  {
    if i < j {
      HistoryGrows(run, actions, i, j - 1);
    }
  }

  // When Run returns, the events were started in the order of time, primary before secondary,
  // if and only if no primary event was scheduled at a time at which a secondary event had
  // already started: the same condition as for the serial engine, under every interleaving.
  lemma SortedIffDisciplined(run: seq<Par>, actions: seq<Action>)
    requires Run(run, actions) && run[|actions|].pc == Between && !HasMoreEvents(run[|actions|])
    ensures Sorted(run[|actions|].started) <==> Disciplined(run, actions)
  {
    if Disciplined(run, actions) {
      DisciplinedIsOrdered(run, actions, |actions|);
    } else {
      var i :| 0 <= i < |actions| && !ActsInTime(run[i], actions[i]);
      LateSchedule(run, actions, i);
    }
  }

  lemma LateSchedule(run: seq<Par>, actions: seq<Action>, i: nat)
    requires Run(run, actions) && run[|actions|].pc == Between && !HasMoreEvents(run[|actions|])
    requires i < |actions| && !ActsInTime(run[i], actions[i])
    ensures !Sorted(run[|actions|].started)
  {
    hide Sum;
    var e, last := actions[i].e, run[|actions|];
    RunInv(run, actions, i);
    RunInv(run, actions, |actions|);
    HistoryGrows(run, actions, i, |actions|);
    HistoryGrows(run, actions, i + 1, |actions|);
    assert multiset(last.started) == last.scheduled;
    assert run[i + 1].scheduled[e] == run[i].scheduled[e] + 1;
    assert run[i].scheduled[e] >= multiset(run[i].started)[e];
    LateUnsorted(run[i].now, run[i].started, e, last.started);
  }

  // The condition holds if the handlers of secondary events schedule no primary event at the
  // current time, and nobody else does after a secondary round.
  ghost predicate Behaved(s: Par, a: Action) {
    && (a.WorkerSchedules? && a.w.secondary ==> a.e.secondary || a.e.time > s.now)
    && (a.External? ==> a.e.secondary || a.e.time > s.now || s.started == [])
  }

  // While a primary event is being handled, no secondary event of now has started.
  ghost predicate PrimaryOnly(s: Par) {
    !s.secondaryRound && s.running != multiset{} ==>
      forall x :: x in s.started && x.time == s.now ==> !x.secondary
  }

  lemma BehavedIsInTime(s: Par, a: Action)
    requires Inv(s) && PrimaryOnly(s) && Enabled(s, a) && Behaved(s, a)
    ensures ActsInTime(s, a)
  {
    hide Sum;
    if a.WorkerSchedules? {
      assert a.w in s.running && a.w.secondary == s.secondaryRound && a.w.time == s.now;
    }
  }

  lemma StartPrimaryOnly(s: Par, e: Event)
    requires Inv(s) && Ordered(s) && Enabled(s, Start(e))
    ensures PrimaryOnly(Started(s, e))
  {
    StartInv(s, e);
    StartSums(s, e);
    hide Sum;
    if !s.secondaryRound {
      assert e in Sum(s.queues) && !NoneNow(s.now, Sum(s.queues));
    }
  }

  lemma StepPrimaryOnly(s: Par, a: Action)
    requires Inv(s) && Ordered(s) && PrimaryOnly(s) && Enabled(s, a)
    ensures PrimaryOnly(Apply(s, a))
  {
    hide Sum, Ordered;
    match a
    case Start(e) => StartPrimaryOnly(s, e);
    case External(e, q) =>
    case BeginRound(p, t) =>
    case Return =>
    case WorkerSchedules(w, e, q) =>
    case WorkerFinishes(w) =>
    case EndRound =>
  }

  lemma {:induction false} BehavedFacts(run: seq<Par>, actions: seq<Action>, i: nat)
    requires Run(run, actions) && i < |run|
    requires forall j :: 0 <= j < |actions| ==> Behaved(run[j], actions[j])
    ensures Ordered(run[i]) && PrimaryOnly(run[i])
  {
    if i == 0 {
      InitInv(run[0]);
    } else {
      hide Sum, Ordered, PrimaryOnly, Behaved, ActsInTime;
      BehavedFacts(run, actions, i - 1);
      RunInv(run, actions, i - 1);
      BehavedIsInTime(run[i - 1], actions[i - 1]);
      StepOrdered(run[i - 1], actions[i - 1]);
      StepPrimaryOnly(run[i - 1], actions[i - 1]);
    }
  }

  // Then the starts are in order at every point of a run, under every interleaving.
  lemma BehavedIsSorted(run: seq<Par>, actions: seq<Action>, i: nat)
    requires Run(run, actions) && i < |run|
    requires forall j :: 0 <= j < |actions| ==> Behaved(run[j], actions[j])
    ensures Sorted(run[i].started)
  {
    BehavedFacts(run, actions, i);
  }

  // ---------- rounds end, and the engine never blocks ----------

  // The steps of the loop that are left in a round.
  ghost function DispatchLeft(s: Par): nat {
    if s.pc.Dispatching? && s.pc.i <= |Group(s)| then LeftFrom(Group(s), s.pc.i) else 0
  }

  ghost function LeftFrom(qs: seq<multiset<Event>>, i: nat): nat
    requires i <= |qs|
    decreases |qs| - i
  {
    if i == |qs| then 0 else |qs[i]| + 1 + LeftFrom(qs, i + 1)
  }

  lemma {:induction false} LeftFrame(qs: seq<multiset<Event>>, rs: seq<multiset<Event>>, i: nat)
    requires |qs| == |rs| && i <= |qs| && forall j :: i <= j < |qs| ==> qs[j] == rs[j]
    ensures LeftFrom(qs, i) == LeftFrom(rs, i)
    decreases |qs| - i
  {
    if i < |qs| {
      LeftFrame(qs, rs, i + 1);
    }
  }

  // Every step of the dispatch loop brings it closer to its end.
  lemma DispatchEnds(s: Par, a: Action)
    requires Inv(s) && s.pc.Dispatching? && Enabled(s, a) && (a.Start? || a.Return?)
    ensures DispatchLeft(Apply(s, a)) < DispatchLeft(s)
  {
    hide Inv;
    var r, i := Apply(s, a), s.pc.i;
    assert i < |Group(s)| && |Group(r)| == |Group(s)|;
    if a.Start? {
      LeftFrame(Group(s), Group(r), i + 1);
      assert Group(s)[i] == Group(r)[i] + multiset{a.e};
    }
  }

  // No worker can delay the dispatch loop: what is scheduled goes to the queues behind it.
  lemma WorkersDoNotDelay(s: Par, a: Action)
    requires Inv(s) && s.pc.Dispatching? && Enabled(s, a) && !a.Start? && !a.Return?
    ensures DispatchLeft(Apply(s, a)) == DispatchLeft(s)
  {
    hide Sum, QueuesOk, Conserved, WorkersOk;
    LeftFrame(Group(s), Group(Apply(s, a)), s.pc.i);
  }

  // Unless Run returns, the loop or a worker can always take a step.
  lemma NeverBlocks(run: seq<Par>, actions: seq<Action>, i: nat) returns (a: Action)
    requires Run(run, actions) && i < |run| && (run[i].pc != Between || HasMoreEvents(run[i]))
    ensures Enabled(run[i], a) && (a.BeginRound? || a.Start? || a.Return? || a.WorkerFinishes? || a.EndRound?)
  {
    var s := run[i];
    RunInv(run, actions, i);
    match s.pc
    case Between =>
      var p := EarliestTimeExists(Sum(s.queues), s.horizon);
      var t := EarliestTimeExists(Sum(s.secondaryQueues), s.horizon);
      a := BeginRound(p, t);
    case Dispatching(j) => a := LoopStep(s, j);
    case Waiting =>
      if s.running == multiset{} {
        a := EndRound;
      } else {
        var w :| w in s.running;
        a := WorkerFinishes(w);
      }
  }

  lemma LoopStep(s: Par, j: nat) returns (a: Action)
    requires Inv(s) && s.pc == Dispatching(j)
    ensures Enabled(s, a) && (a.Start? || a.Return?)
  {
    forall f | f in Group(s)[j] ensures s.now <= f.time {
      InSum(Group(s), j, f);
    }
    hide Sum;
    if e :| e in Group(s)[j] && e.time == s.now {
      a := Start(e);
    } else {
      a := Return;
    }
  }

  // An event that a round can be for: it is earlier than the largest time, or a primary one at
  // it.
  ghost predicate CanRun(s: Par, e: Event) {
    e.time < s.horizon || (e.time == s.horizon && !e.secondary)
  }

  // The group chosen for a round holds a due event exactly if there is such an event.
  lemma RoundHasWorkIff(s: Par, p: real, t: real)
    requires Inv(s) && Enabled(s, BeginRound(p, t))
    ensures var r := Apply(s, BeginRound(p, t));
            (exists e :: e in Sum(Group(r)) && e.time == r.now) <==>
            (exists e :: (e in Sum(s.queues) || e in Sum(s.secondaryQueues)) && CanRun(s, e))
  {
    hide Sum;
    var r := Apply(s, BeginRound(p, t));
    if e :| (e in Sum(s.queues) || e in Sum(s.secondaryQueues)) && CanRun(s, e) {
      if p < s.horizon && p <= t {
        var f :| f in Sum(s.queues) && f.time == p;
      } else if t < s.horizon && t < p {
        var f :| f in Sum(s.secondaryQueues) && f.time == t;
      } else {
        assert e in Sum(s.queues) && e.time == p;
      }
    }
  }

  // ---------- rounds without work, forever ----------

  // Events are queued, but none that a round can be for, and none is being handled.
  ghost predicate Spinning(s: Par) {
    && HasMoreEvents(s) && s.running == multiset{}
    && (forall e :: e in Sum(s.queues) || e in Sum(s.secondaryQueues) ==> !CanRun(s, e))
    && (s.pc != Between ==> !s.secondaryRound && s.now == s.horizon)
  }

  lemma NothingStarts(s: Par, e: Event)
    requires Inv(s) && Spinning(s)
    ensures !Enabled(s, Start(e))
  {
    if Enabled(s, Start(e)) {
      InSum(s.queues, s.pc.i, e);
    }
  }

  // Then the loop goes on and no event is ever started.
  lemma StepSpins(s: Par, a: Action)
    requires Inv(s) && Spinning(s) && Enabled(s, a) && !a.External?
    ensures var r := Apply(s, a);
            Spinning(r) && r.queues == s.queues && r.secondaryQueues == s.secondaryQueues && r.started == s.started
  {
    hide Sum;
    match a
    case BeginRound(p, t) => assert p == t == s.horizon;
    case Start(e) => NothingStarts(s, e);
    case Return =>
    case EndRound =>
  }

  // Run never returns again, whatever the interleaving, until something is scheduled from
  // outside.
  lemma {:induction false} SpinsForever(run: seq<Par>, actions: seq<Action>, i: nat, j: nat)
    requires Run(run, actions) && i <= j < |run| && Spinning(run[i])
    requires forall k :: i <= k < j ==> !actions[k].External?
    ensures HasMoreEvents(run[j]) && Spinning(run[j]) && run[j].started == run[i].started
    ensures run[j].queues == run[i].queues && run[j].secondaryQueues == run[i].secondaryQueues
    decreases j
  {
    hide Inv, Init, HasMoreEvents, Apply, Enabled, CanRun, Sum;
    if i < j {
      SpinsForever(run, actions, i, j - 1);
      RunInv(run, actions, j - 1);
      StepSpins(run[j - 1], actions[j - 1]);
    }
  }

  // One secondary event at the largest time is enough.
  lemma SpinningRun(s: Par, e: Event) returns (run: seq<Par>, actions: seq<Action>)
    requires Init(s) && e.secondary && e.time == s.horizon
    ensures Run(run, actions) && run[0] == s && actions == [External(e, 0)] && Spinning(run[1])
  {
    InitInv(s);
    actions := [External(e, 0)];
    run := [s, Pushed(s, e, 0)];
    PushSums(s, e, 0);
    assert e in Sum(run[1].secondaryQueues);
    hide Sum;
    assert forall f :: f in Sum(run[1].secondaryQueues) ==> f == e;
  }

  // ---------- what a round starts ----------

  // How often an event is in the queues from i on.
  ghost function CountFrom(qs: seq<multiset<Event>>, i: nat, e: Event): nat
    requires i <= |qs|
    decreases |qs| - i
  {
    if i == |qs| then 0 else qs[i][e] + CountFrom(qs, i + 1, e)
  }

  lemma {:induction false} CountFrame(qs: seq<multiset<Event>>, rs: seq<multiset<Event>>, i: nat, e: Event)
    requires |qs| == |rs| && i <= |qs| && forall j :: i <= j < |qs| ==> qs[j][e] == rs[j][e]
    ensures CountFrom(qs, i, e) == CountFrom(rs, i, e)
    decreases |qs| - i
  {
    if i < |qs| {
      CountFrame(qs, rs, i + 1, e);
    }
  }

  lemma {:induction false} CountAll(qs: seq<multiset<Event>>, i: nat, e: Event)
    requires i <= |qs|
    ensures CountFrom(qs, i, e) == Sum(qs[i..])[e]
    decreases |qs| - i
  {
    if i < |qs| {
      CountAll(qs, i + 1, e);
      assert qs[i..][0] == qs[i] && qs[i..][1..] == qs[i + 1..];
    }
  }

  // How often an event that is due is still to be started in the round.
  ghost function DueLeft(s: Par, e: Event): nat {
    if s.pc.Dispatching? && s.pc.i <= |Group(s)| && e.time == s.now then CountFrom(Group(s), s.pc.i, e) else 0
  }

  lemma StartCounts(s: Par, e: Event, x: Event)
    requires Inv(s) && Enabled(s, Start(x))
    ensures var r := Apply(s, Start(x));
            multiset(r.started)[e] + DueLeft(r, e) == multiset(s.started)[e] + DueLeft(s, e)
  {
    hide Inv, Sum;
    var r := Apply(s, Start(x));
    CountFrame(Group(s), Group(r), s.pc.i + 1, e);
  }

  lemma ReturnCounts(s: Par, e: Event)
    requires Inv(s) && Enabled(s, Return)
    ensures DueLeft(Apply(s, Return), e) == DueLeft(s, e)
  {
    hide Inv, Sum;
    if e.time == s.now {
      assert e !in Group(s)[s.pc.i];
      assert CountFrom(Group(s), s.pc.i, e) == CountFrom(Group(s), s.pc.i + 1, e);
    }
  }

  lemma WorkerCounts(s: Par, a: Action, e: Event)
    requires Inv(s) && Enabled(s, a) && (a.WorkerSchedules? || a.WorkerFinishes?)
    ensures DueLeft(Apply(s, a), e) == DueLeft(s, e) && Apply(s, a).started == s.started
  {
    hide Sum, QueuesOk, Conserved, WorkersOk;
    if s.pc.Dispatching? {
      CountFrame(Group(s), Group(Apply(s, a)), s.pc.i, e);
    }
  }

  // From state j to state i no round begins or ends.
  ghost predicate SameRound(actions: seq<Action>, j: nat, i: nat)
    requires j <= i <= |actions|
  {
    forall k :: j <= k < i ==> !actions[k].BeginRound? && !actions[k].EndRound?
  }

  lemma InRoundStep(s: Par, a: Action, e: Event)
    requires Inv(s) && Enabled(s, a) && s.pc != Between && !a.EndRound?
    ensures var r := Apply(s, a);
            && r.pc != Between && r.now == s.now && r.secondaryRound == s.secondaryRound
            && multiset(r.started)[e] + DueLeft(r, e) == multiset(s.started)[e] + DueLeft(s, e)
  {
    hide Inv, DueLeft, Sum;
    match a
    case Start(x) => StartCounts(s, e, x);
    case Return => ReturnCounts(s, e);
    case WorkerSchedules(w, x, q) => WorkerCounts(s, a, e);
    case WorkerFinishes(w) => WorkerCounts(s, a, e);
  }

  lemma {:induction false} InRound(run: seq<Par>, actions: seq<Action>, j: nat, i: nat, e: Event)
    requires Run(run, actions) && j <= i < |run| && run[j].pc != Between && SameRound(actions, j, i)
    ensures var s, r := run[j], run[i];
            && r.pc != Between && r.now == s.now && r.secondaryRound == s.secondaryRound
            && multiset(r.started)[e] + DueLeft(r, e) == multiset(s.started)[e] + DueLeft(s, e)
    decreases i
  {
    hide Inv, Apply, Enabled, DueLeft, Init;
    if j < i {
      InRound(run, actions, j, i - 1, e);
      RunInv(run, actions, i - 1);
      InRoundStep(run[i - 1], actions[i - 1], e);
    }
  }

  // Once all queues are returned, a round has started exactly the events of its group that were
  // due when it began, each as often as it was there, whatever the workers scheduled meanwhile.
  lemma RoundStartsDue(run: seq<Par>, actions: seq<Action>, j: nat, i: nat, e: Event)
    requires Run(run, actions) && j < i < |run| && actions[j].BeginRound? && SameRound(actions, j + 1, i)
    requires run[i].pc == Waiting
    ensures var s, r := run[j + 1], run[i];
            multiset(r.started)[e] == multiset(s.started)[e] + if e.time == s.now then Sum(Group(s))[e] else 0
  {
    hide Inv, Sum, Enabled;
    var s := run[j + 1];
    InRound(run, actions, j + 1, i, e);
    CountAll(Group(s), 0, e);
    assert Group(s)[0..] == Group(s);
  }
}

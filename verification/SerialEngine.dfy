// The serial engine (akita/sim/serialengine.go): events are handled one after the other, and
// a handler may schedule any events from the current time on.
module SerialEngine {
  import opened EventQueue
  import opened EngineOrder

  // The events that were ever scheduled and the events handled so far are history.
  datatype Serial = Serial(
    now: real,
    queue: multiset<Event>,
    secondaryQueue: multiset<Event>,
    scheduled: multiset<Event>,
    handled: seq<Event>)

  datatype Action = Schedule(e: Event) | Handle(e: Event)

  ghost predicate Drained(s: Serial) {
    s.queue == multiset{} && s.secondaryQueue == multiset{}
  }

  // The event that comes next: an earliest one, a primary one if there is a choice.
  ghost predicate IsNext(s: Serial, e: Event) {
    if e.secondary then Earliest(e, s.secondaryQueue) && forall f :: f in s.queue ==> e.time < f.time
    else Earliest(e, s.queue) && forall f :: f in s.secondaryQueue ==> e.time <= f.time
  }

  ghost predicate Enabled(s: Serial, a: Action) {
    match a
    case Schedule(e) => s.now <= e.time
    case Handle(e) => IsNext(s, e)
  }

  ghost function Apply(s: Serial, a: Action): Serial {
    match a
    case Schedule(e) =>
      if e.secondary then s.(secondaryQueue := s.secondaryQueue + multiset{e}, scheduled := s.scheduled + multiset{e})
      else s.(queue := s.queue + multiset{e}, scheduled := s.scheduled + multiset{e})
    case Handle(e) =>
      if e.secondary then
        s.(now := e.time, secondaryQueue := s.secondaryQueue - multiset{e}, handled := s.handled + [e])
      else s.(now := e.time, queue := s.queue - multiset{e}, handled := s.handled + [e])
  }

  ghost predicate Run(run: seq<Serial>, actions: seq<Action>) {
    && |run| == |actions| + 1 && run[0] == Serial(0.0, multiset{}, multiset{}, multiset{}, [])
    && forall i :: 0 <= i < |actions| ==> Enabled(run[i], actions[i]) && run[i + 1] == Apply(run[i], actions[i])
  }

  ghost predicate Kinds(s: Serial) {
    (forall e :: e in s.queue ==> !e.secondary) && (forall e :: e in s.secondaryQueue ==> e.secondary)
  }

  ghost predicate Inv(s: Serial) {
    && Kinds(s)
    && (forall e :: e in s.queue + s.secondaryQueue ==> s.now <= e.time)
    && s.scheduled == multiset(s.handled) + s.queue + s.secondaryQueue
  }

  lemma HandleKeepsTimes(s: Serial, e: Event, f: Event)
    requires Kinds(s) && IsNext(s, e) && (f in Apply(s, Handle(e)).queue || f in Apply(s, Handle(e)).secondaryQueue)
    ensures e.time <= f.time
  {
    assert f in s.queue || f in s.secondaryQueue;
  }

  lemma HandleInv(s: Serial, e: Event)
    requires Inv(s) && IsNext(s, e)
    ensures Inv(Apply(s, Handle(e))) && s.now <= e.time
  {
    var r := Apply(s, Handle(e));
    forall f | f in r.queue + r.secondaryQueue ensures r.now <= f.time {
      HandleKeepsTimes(s, e, f);
    }
    assert Kinds(r);
    assert e in s.queue + s.secondaryQueue;
  }

  lemma StepInv(s: Serial, a: Action)
    requires Inv(s) && Enabled(s, a)
    ensures Inv(Apply(s, a)) && s.now <= Apply(s, a).now
  {
    if a.Handle? {
      HandleInv(s, a.e);
    }
  }

  lemma {:induction false} RunInv(run: seq<Serial>, actions: seq<Action>, i: nat)
    requires Run(run, actions) && i < |run|
    ensures Inv(run[i])
  {
    if i > 0 {
      RunInv(run, actions, i - 1);
      StepInv(run[i - 1], actions[i - 1]);
    }
  }

  // The event handled next is never in the past, so time never runs backwards.
  lemma TimeNeverDecreases(run: seq<Serial>, actions: seq<Action>, i: nat)
    requires Run(run, actions) && i < |actions|
    ensures run[i].now <= run[i + 1].now
    ensures actions[i].Handle? ==> run[i].now <= actions[i].e.time
  {
    RunInv(run, actions, i);
    StepInv(run[i], actions[i]);
  }

  ghost function LastTime(handled: seq<Event>): real {
    if handled == [] then 0.0 else handled[|handled| - 1].time
  }

  lemma StepTime(s: Serial, a: Action)
    requires s.now == LastTime(s.handled)
    ensures Apply(s, a).now == LastTime(Apply(s, a).handled)
    ensures a.Handle? ==> Apply(s, a).handled == s.handled + [a.e] && Apply(s, a).now == a.e.time
  {
  }

  // The time of the engine is that of the event handled last.
  lemma {:induction false} TimeIsTheLastEvents(run: seq<Serial>, actions: seq<Action>, i: nat)
    requires Run(run, actions) && i < |run|
    ensures run[i].now == LastTime(run[i].handled)
    ensures 0 < i && actions[i - 1].Handle? ==>
              run[i].handled == run[i - 1].handled + [actions[i - 1].e] && run[i].now == actions[i - 1].e.time
  {
    hide Apply, Enabled, LastTime;
    if i > 0 {
      TimeIsTheLastEvents(run, actions, i - 1);
      StepTime(run[i - 1], actions[i - 1]);
    } else {
      assert LastTime([]) == 0.0 by {
        StartTime();
      }
    }
  }

  lemma StartTime()
    ensures LastTime([]) == 0.0
  {
  }

  // A secondary event is handled only when no primary event of its time or earlier waits.
  lemma SecondaryLast(run: seq<Serial>, actions: seq<Action>, i: nat, f: Event)
    requires Run(run, actions) && i < |actions| && actions[i].Handle? && actions[i].e.secondary
    requires f in run[i].queue + run[i].secondaryQueue && !f.secondary
    ensures actions[i].e.time < f.time
  {
    RunInv(run, actions, i);
  }

  // Every scheduled event waits or was handled, never both; when nothing waits, each was
  // handled as often as it was scheduled.
  lemma ScheduledOnceHandledOnce(run: seq<Serial>, actions: seq<Action>, i: nat)
    requires Run(run, actions) && i < |run|
    ensures run[i].scheduled == multiset(run[i].handled) + run[i].queue + run[i].secondaryQueue
    ensures Drained(run[i]) ==> multiset(run[i].handled) == run[i].scheduled
  {
    RunInv(run, actions, i);
  }

  // As long as an event waits there is a next one.
  lemma SomethingIsNext(s: Serial) returns (e: Event)
    requires Inv(s) && !Drained(s)
    ensures IsNext(s, e)
  {
    if s.queue == multiset{} {
      e := HasEarliest(s.secondaryQueue);
    } else if s.secondaryQueue == multiset{} {
      e := HasEarliest(s.queue);
    } else {
      var p := HasEarliest(s.queue);
      var q := HasEarliest(s.secondaryQueue);
      e := if p.time <= q.time then p else q;
    }
  }

  lemma {:induction false} HasEarliest(m: multiset<Event>) returns (e: Event)
    requires m != multiset{}
    ensures Earliest(e, m)
    decreases |m|
  {
    e :| e in m;
    var rest := m - multiset{e};
    assert m == rest + multiset{e};
    if rest != multiset{} {
      var f := HasEarliest(rest);
      if f.time < e.time {
        e := f;
      }
    }
  }

  // ---------- the order of events ----------

  ghost predicate Disciplined(run: seq<Serial>, actions: seq<Action>)
    requires |run| == |actions| + 1
  {
    forall i :: 0 <= i < |actions| && actions[i].Schedule? ==> InTime(run[i].now, run[i].handled, actions[i].e)
  }

  lemma StepSorted(s: Serial, a: Action)
    requires Inv(s) && Enabled(s, a) && Settled(s.now, s.handled, s.queue)
    requires a.Schedule? ==> InTime(s.now, s.handled, a.e)
    ensures Settled(Apply(s, a).now, Apply(s, a).handled, Apply(s, a).queue)
  {
    hide Settled;
    var r := Apply(s, a);
    match a
    case Schedule(e) =>
      if !e.secondary {
        ScheduleSorted(s.now, s.handled, s.queue, e);
      }
    case Handle(e) =>
      assert e in s.queue + s.secondaryQueue;
      StartSorted(s.now, s.handled, s.queue, e, e.time, r.queue);
  }

  lemma StartSettled()
    ensures Settled(0.0, [], multiset{})
  {
  }

  lemma {:induction false} DisciplinedIsSorted(run: seq<Serial>, actions: seq<Action>, i: nat)
    requires Run(run, actions) && Disciplined(run, actions) && i < |run|
    ensures Settled(run[i].now, run[i].handled, run[i].queue)
  {
    hide Settled;
    if i == 0 {
      StartSettled();
    } else {
      DisciplinedIsSorted(run, actions, i - 1);
      RunInv(run, actions, i - 1);
      StepSorted(run[i - 1], actions[i - 1]);
    }
  }

  lemma {:induction false} HistoryGrows(run: seq<Serial>, actions: seq<Action>, i: nat, j: nat)
    requires Run(run, actions) && i <= j < |run|
    ensures run[i].handled <= run[j].handled && run[i].scheduled <= run[j].scheduled
    decreases j
  {
    if i < j {
      HistoryGrows(run, actions, i, j - 1);
    }
  }

  // A run that leaves nothing waiting handled its events in the order of time, primary before
  // secondary, if and only if no primary event was scheduled at a time at which a secondary
  // event had already been handled.
  lemma SortedIffDisciplined(run: seq<Serial>, actions: seq<Action>)
    requires Run(run, actions) && Drained(run[|actions|])
    ensures Sorted(run[|actions|].handled) <==> Disciplined(run, actions)
  {
    if Disciplined(run, actions) {
      DisciplinedIsSorted(run, actions, |actions|);
    } else {
      var i :| 0 <= i < |actions| && actions[i].Schedule? && !InTime(run[i].now, run[i].handled, actions[i].e);
      LateSchedule(run, actions, i);
    }
  }

  lemma LateSchedule(run: seq<Serial>, actions: seq<Action>, i: nat)
    requires Run(run, actions) && Drained(run[|actions|]) && i < |actions| && actions[i].Schedule?
    requires !InTime(run[i].now, run[i].handled, actions[i].e)
    ensures !Sorted(run[|actions|].handled)
  {
    var e, last := actions[i].e, run[|actions|];
    RunInv(run, actions, i);
    RunInv(run, actions, |actions|);
    HistoryGrows(run, actions, i, |actions|);
    HistoryGrows(run, actions, i + 1, |actions|);
    assert multiset(last.handled) == last.scheduled;
    assert run[i + 1].scheduled[e] == run[i].scheduled[e] + 1;
    assert run[i].scheduled[e] >= multiset(run[i].handled)[e];
    LateUnsorted(run[i].now, run[i].handled, e, last.handled);
  }

  // ---------- the engine ----------

  class SerialEngine {
    var time: real
    const queue: EventQueueImpl
    const secondaryQueue: EventQueueImpl
    ghost var scheduled: multiset<Event>
    ghost var handled: seq<Event>

    constructor ()
      ensures Valid() && fresh(queue) && fresh(secondaryQueue)
      ensures View() == Serial(0.0, multiset{}, multiset{}, multiset{}, [])
    {
      time := 0.0;
      queue := new EventQueueImpl();
      secondaryQueue := new EventQueueImpl();
      scheduled, handled := multiset{}, [];
    }

    ghost predicate Valid()
      reads this, queue, secondaryQueue
    {
      queue != secondaryQueue && queue.Valid() && secondaryQueue.Valid() && Inv(View())
    }

    ghost function View(): Serial
      reads this, queue, secondaryQueue
    {
      Serial(time, queue.Contents(), secondaryQueue.Contents(), scheduled, handled)
    }

    method Schedule(e: Event)
      requires Valid() && time <= e.time
      modifies this, queue, secondaryQueue
      ensures Valid() && View() == Apply(old(View()), Action.Schedule(e))
    {
      hide Inv;
      StepInv(View(), Action.Schedule(e));
      if e.secondary {
        secondaryQueue.Push(e);
      } else {
        queue.Push(e);
      }
      scheduled := scheduled + multiset{e};
      assert View() == Apply(old(View()), Action.Schedule(e));
    }

    predicate NoMoreEvent()
      requires Valid()
      reads this, queue, secondaryQueue
      ensures NoMoreEvent() <==> Drained(View())
    {
      queue.Len() == 0 && secondaryQueue.Len() == 0
    }

    // Takes the next event out of its queue.
    method NextEvent() returns (e: Event)
      requires Valid() && !NoMoreEvent()
      modifies queue, secondaryQueue
      ensures queue.Valid() && secondaryQueue.Valid() && IsNext(old(View()), e)
      ensures queue.Contents() == if e.secondary then old(queue.Contents()) else old(queue.Contents()) - multiset{e}
      ensures secondaryQueue.Contents() ==
              if e.secondary then old(secondaryQueue.Contents()) - multiset{e} else old(secondaryQueue.Contents())
    {
      if queue.Len() == 0 {
        e := secondaryQueue.Pop();
        return;
      }
      if secondaryQueue.Len() == 0 {
        e := queue.Pop();
        return;
      }
      if queue.Peek().time <= secondaryQueue.Peek().time {
        e := queue.Pop();
      } else {
        e := secondaryQueue.Pop();
      }
    }

    // Takes the next event and moves to its time.
    method Advance() returns (e: Event)
      requires Valid() && !NoMoreEvent()
      modifies this, queue, secondaryQueue
      ensures Valid() && Enabled(old(View()), Handle(e)) && old(time) <= e.time
      ensures View() == Apply(old(View()), Handle(e))
    {
      hide Inv, IsNext;
      e := NextEvent();
      StepInv(old(View()), Handle(e));
      time := e.time;
      handled := handled + [e];
      assert View() == Apply(old(View()), Handle(e));
    }

    method ScheduleAll(events: seq<Event>)
      requires Valid() && forall i :: 0 <= i < |events| ==> time <= events[i].time
      modifies this, queue, secondaryQueue
      ensures Valid() && View() == ScheduledAll(old(View()), events)
    {
      hide Inv, Apply;
      for i := 0 to |events|
        invariant Valid() && time == old(time)
        invariant View() == ScheduledAll(old(View()), events[..i])
      {
        ScheduleKeepsNow(View(), events[i]);
        Schedule(events[i]);
        assert events[..i + 1][..i] == events[..i];
      }
      assert events[..|events|] == events;
    }

    // One round of the loop of Run, with a handler that schedules the given events, none
    // before the time of the event handled.
    method RunNext(scheduleAfter: Event -> seq<Event>) returns (e: Event)
      requires Valid() && !NoMoreEvent()
      requires forall f, i :: 0 <= i < |scheduleAfter(f)| ==> f.time <= scheduleAfter(f)[i].time
      modifies this, queue, secondaryQueue
      ensures Valid() && Enabled(old(View()), Handle(e)) && old(time) <= e.time
      ensures View() == ScheduledAll(Apply(old(View()), Handle(e)), scheduleAfter(e))
      ensures time == e.time && handled == old(handled) + [e]
      ensures scheduled == old(scheduled) + multiset(scheduleAfter(e))
      ensures queue.Contents() + secondaryQueue.Contents() + multiset{e} ==
              old(queue.Contents()) + old(secondaryQueue.Contents()) + multiset(scheduleAfter(e))
    {
      hide Inv, IsNext, Apply, ScheduledAll;
      e := Advance();
      HandledIs(old(View()), e);
      ScheduledAreAll(Apply(old(View()), Handle(e)), scheduleAfter(e));
      ScheduleAll(scheduleAfter(e));
    }
  }

  lemma ScheduleKeepsNow(s: Serial, e: Event)
    ensures Apply(s, Action.Schedule(e)).now == s.now
  {
  }

  ghost function ScheduledAll(s: Serial, events: seq<Event>): Serial {
    if events == [] then s
    else Apply(ScheduledAll(s, events[..|events| - 1]), Action.Schedule(events[|events| - 1]))
  }

  lemma ScheduledMore(s: Serial, e: Event)
    ensures var r := Apply(s, Action.Schedule(e));
            && r.now == s.now && r.handled == s.handled && r.scheduled == s.scheduled + multiset{e}
            && r.queue + r.secondaryQueue == s.queue + s.secondaryQueue + multiset{e}
  {
  }

  // All events of a handler are scheduled, and nothing else changes.
  lemma {:induction false} ScheduledAreAll(s: Serial, events: seq<Event>)
    ensures var r := ScheduledAll(s, events);
            && r.now == s.now && r.handled == s.handled && r.scheduled == s.scheduled + multiset(events)
            && r.queue + r.secondaryQueue == s.queue + s.secondaryQueue + multiset(events)
  {
    hide Apply;
    if events != [] {
      var n := |events| - 1;
      ScheduledAreAll(s, events[..n]);
      ScheduledMore(ScheduledAll(s, events[..n]), events[n]);
      assert multiset(events) == multiset(events[..n]) + multiset{events[n]} by {
        assert events == events[..n] + [events[n]];
      }
    }
  }

  // The event that comes next leaves its queue, and its time is the engine's.
  lemma HandledIs(s: Serial, e: Event)
    requires IsNext(s, e)
    ensures var r := Apply(s, Handle(e));
            && r.now == e.time && r.handled == s.handled + [e] && r.scheduled == s.scheduled
            && r.queue + r.secondaryQueue + multiset{e} == s.queue + s.secondaryQueue
  {
  }
}

// The loops of the parallel engine over its queues (akita/sim/parallelengine.go): finding the
// earliest time of a group, choosing a round, and taking out the events that are due.
module ParallelDispatch {
  import opened EventQueue
  import opened ParallelEngine

  ghost function Contents(queues: seq<EventQueueImpl>): (c: seq<multiset<Event>>)
    reads queues
    ensures |c| == |queues|
  {
    seq(|queues|, i requires 0 <= i < |queues| reads queues => queues[i].Contents())
  }

  ghost predicate ValidGroup(queues: seq<EventQueueImpl>)
    reads queues
  {
    && (forall i :: 0 <= i < |queues| ==> queues[i].Valid())
    && (forall i, j :: 0 <= i < j < |queues| ==> queues[i] != queues[j])
  }

  lemma SumMore(qs: seq<multiset<Event>>, q: multiset<Event>)
    ensures Sum(qs + [q]) == Sum(qs) + q
  {
    if qs == [] {
      assert [q][1..] == [];
    } else {
      assert (qs + [q])[1..] == qs[1..] + [q];
      SumMore(qs[1..], q);
    }
  }

  lemma EarlierOf(t: real, some: multiset<Event>, horizon: real, q: multiset<Event>, first: real, r: real)
    requires IsEarliestTime(t, some, horizon) && (exists e :: e in q && e.time == first)
    requires (forall e :: e in q ==> first <= e.time) && r == if first < t then first else t
    ensures IsEarliestTime(r, some + q, horizon)
  {
  }

  // The events taken out of a queue in which nothing is in the past: all that are due.
  ghost predicate TakesDue(before: multiset<Event>, after: multiset<Event>, taken: seq<Event>, now: real) {
    && before == after + multiset(taken)
    && (forall e :: e in taken ==> e.time == now)
    && (forall e :: e in after ==> e.time > now)
  }

  class RoundEngine {
    const horizon: real
    var now: real
    var runningSecondaryEvents: bool
    const queues: seq<EventQueueImpl>
    const secondaryQueues: seq<EventQueueImpl>

    constructor (horizon: real, queues: seq<EventQueueImpl>, secondaryQueues: seq<EventQueueImpl>)
      ensures this.horizon == horizon && this.queues == queues && this.secondaryQueues == secondaryQueues
      ensures now == 0.0 && !runningSecondaryEvents
    {
      this.horizon, this.queues, this.secondaryQueues := horizon, queues, secondaryQueues;
      now, runningSecondaryEvents := 0.0, false;
    }

    method EarliestTimeInQueueGroup(group: seq<EventQueueImpl>) returns (earliest: real)
      requires ValidGroup(group)
      ensures IsEarliestTime(earliest, Sum(Contents(group)), horizon)
    {
      hide IsEarliestTime;
      earliest := horizon;
      NothingYet(horizon);
      for i := 0 to |group|
        invariant IsEarliestTime(earliest, Sum(Contents(group)[..i]), horizon)
      {
        var q := group[i];
        assert Contents(group)[..i + 1] == Contents(group)[..i] + [q.Contents()];
        SumMore(Contents(group)[..i], q.Contents());
        if q.Len() == 0 {
          assert Sum(Contents(group)[..i]) + q.Contents() == Sum(Contents(group)[..i]);
          continue;
        }
        var t := q.Peek().time;
        EarlierOf(earliest, Sum(Contents(group)[..i]), horizon, q.Contents(), t, if t < earliest then t else earliest);
        if t < earliest {
          earliest := t;
        }
      }
      assert Contents(group)[..|group|] == Contents(group);
    }

    static lemma NothingYet(horizon: real)
      ensures IsEarliestTime(horizon, Sum([]), horizon)
    {
    }

    method HasMoreIn(group: seq<EventQueueImpl>) returns (more: bool)
      requires ValidGroup(group)
      ensures more <==> Sum(Contents(group)) != multiset{}
    {
      for i := 0 to |group|
        invariant Sum(Contents(group)[..i]) == multiset{}
      {
        assert Contents(group)[..i + 1] == Contents(group)[..i] + [group[i].Contents()];
        SumMore(Contents(group)[..i], group[i].Contents());
        if group[i].Len() > 0 {
          var e := group[i].Peek();
          InSum(Contents(group), i, e);
          return true;
        }
        assert group[i].Contents() == multiset{};
      }
      assert Contents(group)[..|group|] == Contents(group);
      more := false;
    }

    method HasMoreEvents() returns (more: bool)
      requires ValidGroup(queues) && ValidGroup(secondaryQueues)
      ensures more <==> Sum(Contents(queues)) != multiset{} || Sum(Contents(secondaryQueues)) != multiset{}
    {
      more := HasMoreIn(queues);
      if !more {
        more := HasMoreIn(secondaryQueues);
      }
    }

    // Chooses the group and the time of the next round.
    method DetermineWhatToRun() returns (ghost p: real, ghost t: real)
      requires ValidGroup(queues) && ValidGroup(secondaryQueues)
      modifies this
      ensures IsEarliestTime(p, Sum(Contents(queues)), horizon)
      ensures IsEarliestTime(t, Sum(Contents(secondaryQueues)), horizon)
      ensures runningSecondaryEvents == !(p <= t) && now == if p <= t then p else t
    {
      hide IsEarliestTime, Sum;
      var primaryTime := EarliestTimeInQueueGroup(queues);
      var secondaryTime := EarliestTimeInQueueGroup(secondaryQueues);
      p, t := primaryTime, secondaryTime;
      if primaryTime <= secondaryTime {
        runningSecondaryEvents, now := false, primaryTime;
      } else {
        runningSecondaryEvents, now := true, secondaryTime;
      }
    }

    // Drains one queue of the events that are due, one worker for each. Without the premise
    // the loop panics.
    method DrainQueue(queue: EventQueueImpl) returns (workers: seq<Event>)
      requires queue.Valid() && forall e :: e in queue.Contents() ==> now <= e.time
      modifies queue
      ensures queue.Valid() && TakesDue(old(queue.Contents()), queue.Contents(), workers, now)
    {
      workers := [];
      while queue.Len() > 0 && queue.Peek().time == now
        invariant queue.Valid() && old(queue.Contents()) == queue.Contents() + multiset(workers)
        invariant forall e :: e in workers ==> e.time == now
        decreases queue.Len()
      {
        var e := queue.Pop();
        workers := workers + [e];
      }
      forall e | e in queue.Contents() ensures e.time > now {
        assert e in old(queue.Contents());
        assert queue.Peek().time <= e.time && queue.Peek() in old(queue.Contents());
      }
    }

    method DrainNth(group: seq<EventQueueImpl>, i: nat) returns (taken: seq<Event>)
      requires ValidGroup(group) && i < |group|
      requires forall e :: e in Contents(group)[i] ==> now <= e.time
      modifies group[i]
      ensures ValidGroup(group) && |Contents(group)| == |old(Contents(group))|
      ensures Contents(group) == old(Contents(group))[i := Contents(group)[i]]
      ensures TakesDue(old(Contents(group))[i], Contents(group)[i], taken, now)
    {
      taken := DrainQueue(group[i]);
      assert forall j :: 0 <= j < |group| && j != i ==> group[j].Contents() == old(group[j].Contents());
    }

    // The dispatch loop of a round, as far as the loop itself goes: the events that workers
    // schedule meanwhile come in between, as steps of the state machine.
    method RunEventsUntilConflict(group: seq<EventQueueImpl>) returns (workers: seq<seq<Event>>)
      requires ValidGroup(group)
      requires forall i, e :: 0 <= i < |group| && e in Contents(group)[i] ==> now <= e.time
      modifies group
      ensures ValidGroup(group) && AllDrained(old(Contents(group)), Contents(group), workers, |group|, now)
    {
      hide TakesDue, AllDrained;
      ghost var before := Contents(group);
      workers := [];
      NoneDrained(before, now);
      for i := 0 to |group|
        invariant ValidGroup(group) && AllDrained(before, Contents(group), workers, i, now)
      {
        UntouchedYet(before, Contents(group), workers, i, now);
        ghost var was := Contents(group);
        var taken := DrainNth(group, i);
        DrainedMore(before, was, Contents(group), workers, taken, i, now);
        workers := workers + [taken];
      }
    }
  }

  // The first i queues are drained and the others untouched.
  ghost predicate AllDrained(before: seq<multiset<Event>>, after: seq<multiset<Event>>, workers: seq<seq<Event>>,
                             i: nat, now: real)
  {
    && |before| == |after| && |workers| == i <= |before|
    && (forall j :: 0 <= j < i ==> TakesDue(before[j], after[j], workers[j], now))
    && (forall j :: i <= j < |before| ==> after[j] == before[j])
  }

  lemma NoneDrained(before: seq<multiset<Event>>, now: real)
    ensures AllDrained(before, before, [], 0, now)
  {
  }

  lemma UntouchedYet(before: seq<multiset<Event>>, after: seq<multiset<Event>>, workers: seq<seq<Event>>, i: nat,
                     now: real)
    requires AllDrained(before, after, workers, i, now) && i < |before|
    ensures |after| == |before| && after[i] == before[i]
  {
  }

  lemma DrainedMore(before: seq<multiset<Event>>, was: seq<multiset<Event>>, after: seq<multiset<Event>>,
                    workers: seq<seq<Event>>, taken: seq<Event>, i: nat, now: real)
    requires AllDrained(before, was, workers, i, now) && i < |before|
    requires |after| == |was| && after == was[i := after[i]] && TakesDue(was[i], after[i], taken, now)
    ensures AllDrained(before, after, workers + [taken], i + 1, now)
  {
    hide TakesDue;
  }
}

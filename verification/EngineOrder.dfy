// The order in which both engines start events: by time, and primary before secondary events
// of the same time (akita/sim/serialengine.go, akita/sim/parallelengine.go).
module EngineOrder {
  import opened EventQueue

  ghost predicate InOrder(a: Event, b: Event) {
    a.time < b.time || (a.time == b.time && (b.secondary || !a.secondary))
  }

  ghost predicate Sorted(events: seq<Event>) {
    forall i, j :: 0 <= i < j < |events| ==> InOrder(events[i], events[j])
  }

  // No primary event is scheduled at the current time once a secondary event of that time
  // has started.
  ghost predicate InTime(now: real, started: seq<Event>, e: Event) {
    !e.secondary && e.time == now ==> forall x :: x in started && x.time == now ==> !x.secondary
  }

  // What keeps the started events sorted: all started events lie in the past or now, and the
  // primary events of now are over once a secondary one has started.
  ghost predicate Settled(now: real, started: seq<Event>, queue: multiset<Event>) {
    && Sorted(started)
    && forall x :: x in started ==> x.time <= now && (x.secondary && x.time == now ==> NoneNow(now, queue))
  }

  ghost predicate NoneNow(now: real, queue: multiset<Event>) {
    forall e :: e in queue ==> e.secondary || e.time > now
  }

  // Starting an event that is due leaves the order intact.
  lemma StartSorted(now: real, started: seq<Event>, queue: multiset<Event>, e: Event, t: real, rest: multiset<Event>)
    requires Settled(now, started, queue) && now <= t && e.time == t && rest <= queue
    requires if e.secondary then NoneNow(t, rest) else e in queue
    ensures Settled(t, started + [e], rest)
  {
    forall i | 0 <= i < |started| ensures InOrder(started[i], e) {
      assert started[i] in started;
    }
  }

  lemma ScheduleSorted(now: real, started: seq<Event>, queue: multiset<Event>, e: Event)
    requires Settled(now, started, queue) && now <= e.time && InTime(now, started, e)
    ensures Settled(now, started, queue + multiset{e})
  {
  }

  // An event scheduled out of time, once started, breaks the order.
  lemma LateUnsorted(now: real, started: seq<Event>, e: Event, later: seq<Event>)
    requires !InTime(now, started, e) && started <= later && multiset(later)[e] > multiset(started)[e]
    ensures !Sorted(later)
  {
    var x :| x in started && x.time == now && x.secondary;
    var i :| 0 <= i < |started| && started[i] == x;
    var tail := later[|started|..];
    assert later == started + tail;
    assert e in multiset(tail);
    var j :| 0 <= j < |tail| && tail[j] == e;
    assert later[i] == x && later[|started| + j] == e;
    assert !InOrder(later[i], later[|started| + j]);
  }
}

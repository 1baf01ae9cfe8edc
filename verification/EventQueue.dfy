// Events and the two queues that hold them (akita/sim/eventqueue.go): a binary heap in a
// growing slice and a list kept sorted by insertion. Both refine a multiset of events.
module EventQueue {

  datatype Event = Event(id: nat, time: real, secondary: bool)

  ghost predicate Earliest(e: Event, events: multiset<Event>) {
    e in events && forall f :: f in events ==> e.time <= f.time
  }

  // ---------- the heap order ----------

  function Parent(i: int): int {
    (i - 1) / 2
  }

  ghost predicate IsHeap(h: seq<Event>) {
    forall i :: 0 < i < |h| ==> h[Parent(i)].time <= h[i].time
  }

  // A heap but for the event at j, which may be too early for its place.
  ghost predicate TooLowAt(h: seq<Event>, j: nat) {
    && (forall i :: 0 < i < |h| && i != j ==> h[Parent(i)].time <= h[i].time)
    && (forall i :: 0 < i < |h| && 0 < j < |h| && Parent(i) == j ==> h[Parent(j)].time <= h[i].time)
  }

  // A heap but for the event at j, which may be too late for its place.
  ghost predicate TooHighAt(h: seq<Event>, j: nat) {
    && (forall i :: 0 < i < |h| && Parent(i) != j ==> h[Parent(i)].time <= h[i].time)
    && (forall i :: 0 < i < |h| && 0 < j < |h| && Parent(i) == j ==> h[Parent(j)].time <= h[i].time)
  }

  lemma {:induction false} RootIsEarliest(h: seq<Event>, k: nat)
    requires IsHeap(h) && k < |h|
    ensures h[0].time <= h[k].time
  {
    if k > 0 {
      RootIsEarliest(h, Parent(k));
    }
  }

  lemma HeadIsEarliest(h: seq<Event>)
    requires IsHeap(h) && h != []
    ensures Earliest(h[0], multiset(h))
  {
    forall f | f in multiset(h) ensures h[0].time <= f.time {
      var k :| 0 <= k < |h| && h[k] == f;
      RootIsEarliest(h, k);
    }
  }

  function Swap(h: seq<Event>, i: nat, j: nat): (r: seq<Event>)
    requires i < |h| && j < |h|
    ensures multiset(r) == multiset(h)
  {
    h[i := h[j]][j := h[i]]
  }

  lemma SwapUp(h: seq<Event>, j: nat)
    requires 0 < j < |h| && TooLowAt(h, j) && h[j].time < h[Parent(j)].time
    ensures TooLowAt(Swap(h, Parent(j), j), Parent(j))
  {
    var p, r := Parent(j), Swap(h, Parent(j), j);
    forall i | 0 < i < |r| && i != p ensures r[Parent(i)].time <= r[i].time {
      if i != j && Parent(i) == p {
        assert h[p].time <= h[i].time;
      }
    }
  }

  // The earlier child, the left one if both have the same time.
  function EarlierChild(h: seq<Event>, i: nat): (c: nat)
    requires 2 * i + 1 < |h|
    ensures c < |h| && Parent(c) == i && forall k :: 0 < k < |h| && Parent(k) == i ==> h[c].time <= h[k].time
  {
    if 2 * i + 2 < |h| && h[2 * i + 2].time < h[2 * i + 1].time then 2 * i + 2 else 2 * i + 1
  }

  lemma SwapDown(h: seq<Event>, i: nat)
    requires 2 * i + 1 < |h| && TooHighAt(h, i) && h[EarlierChild(h, i)].time < h[i].time
    ensures TooHighAt(Swap(h, i, EarlierChild(h, i)), EarlierChild(h, i))
  {
    var c := EarlierChild(h, i);
    var r := Swap(h, i, c);
    forall k | 0 < k < |r| && Parent(k) != c ensures r[Parent(k)].time <= r[k].time {
      if Parent(k) != i && k == i {
        assert h[Parent(i)].time <= h[c].time;
      }
    }
  }

  lemma InPlace(h: seq<Event>, i: nat)
    requires i < |h| && TooHighAt(h, i)
    requires 2 * i + 1 < |h| ==> h[i].time <= h[EarlierChild(h, i)].time
    ensures IsHeap(h)
  {
    forall k | 0 < k < |h| ensures h[Parent(k)].time <= h[k].time {
      if Parent(k) == i {
        assert 2 * i + 1 < |h|;
      }
    }
  }

  // Taking the root out, with the last event in its place.
  lemma LastToRoot(h: seq<Event>)
    requires IsHeap(h) && h != []
    ensures var n := |h| - 1;
            && Swap(h, 0, n)[n] == h[0] && multiset(Swap(h, 0, n)[..n]) == multiset(h) - multiset{h[0]}
            && (n > 0 ==> TooHighAt(Swap(h, 0, n)[..n], 0))
  {
    var n := |h| - 1;
    var r := Swap(h, 0, n);
    assert r == r[..n] + [h[0]];
    assert multiset(h) == multiset(r[..n]) + multiset{h[0]};
  }

  class EventQueueImpl {
    var events: seq<Event>

    constructor ()
      ensures Valid() && Contents() == multiset{}
    {
      events := [];
    }

    ghost predicate Valid()
      reads this
    {
      IsHeap(events)
    }

    ghost function Contents(): multiset<Event>
      reads this
    {
      multiset(events)
    }

    function Len(): (n: nat)
      reads this
      ensures n == |Contents()|
    {
      |events|
    }

    function Peek(): (e: Event)
      requires Valid() && Len() > 0
      reads this
      ensures Earliest(e, Contents())
    {
      HeadIsEarliest(events);
      events[0]
    }

    method Push(e: Event)
      requires Valid()
      modifies this
      ensures Valid() && Contents() == old(Contents()) + multiset{e}
    {
      events := events + [e];
      Up(|events| - 1);
    }

    // Moves the event at j up to its place.
    method Up(start: nat)
      requires start < |events| && TooLowAt(events, start)
      modifies this
      ensures Valid() && Contents() == old(Contents())
    {
      var j: nat := start;
      while j > 0 && events[j].time < events[Parent(j)].time
        invariant j < |events| && TooLowAt(events, j)
        invariant Contents() == old(Contents())
        decreases j
      {
        SwapUp(events, j);
        events := Swap(events, Parent(j), j);
        j := Parent(j);
      }
    }

    // Takes out an earliest event, the one that Peek shows.
    method Pop() returns (e: Event)
      requires Valid() && Len() > 0
      modifies this
      ensures Valid() && e == old(Peek())
      ensures Earliest(e, old(Contents())) && Contents() == old(Contents()) - multiset{e}
    {
      var n := |events| - 1;
      HeadIsEarliest(events);
      LastToRoot(events);
      events := Swap(events, 0, n);
      e := events[n];
      events := events[..n];
      if n > 0 {
        Down();
      }
    }

    // Moves the event at the root down to its place.
    method Down()
      requires |events| > 0 && TooHighAt(events, 0)
      modifies this
      ensures Valid() && Contents() == old(Contents())
    {
      hide IsHeap, TooHighAt;
      var i := 0;
      while 2 * i + 1 < |events| && events[EarlierChild(events, i)].time < events[i].time
        invariant 0 <= i < |events| && TooHighAt(events, i)
        invariant Contents() == old(Contents())
        decreases |events| - i
      {
        SwapDown(events, i);
        var c := EarlierChild(events, i);
        events := Swap(events, i, c);
        i := c;
      }
      InPlace(events, i);
    }
  }

  // ---------- the insertion queue ----------

  ghost predicate ByTime(q: seq<Event>) {
    forall i, j :: 0 <= i < j < |q| ==> q[i].time <= q[j].time
  }

  // The first place whose event is later.
  function PlaceOf(q: seq<Event>, e: Event): (k: nat)
    ensures k <= |q| && (k < |q| ==> q[k].time > e.time)
    ensures forall i :: 0 <= i < k ==> q[i].time <= e.time
  {
    if q == [] || q[0].time > e.time then 0 else 1 + PlaceOf(q[1..], e)
  }

  function Inserted(q: seq<Event>, e: Event): seq<Event> {
    q[..PlaceOf(q, e)] + [e] + q[PlaceOf(q, e)..]
  }

  lemma InsertAt(q: seq<Event>, k: nat, e: Event)
    requires ByTime(q) && k <= |q| && (k < |q| ==> q[k].time > e.time)
    requires forall i :: 0 <= i < k ==> q[i].time <= e.time
    ensures ByTime(q[..k] + [e] + q[k..])
  {
    forall i | k <= i < |q| ensures q[i].time >= e.time {
      assert q[k].time <= q[i].time;
    }
  }

  lemma InsertKeepsOrder(q: seq<Event>, e: Event)
    requires ByTime(q)
    ensures ByTime(Inserted(q, e)) && multiset(Inserted(q, e)) == multiset(q) + multiset{e}
  {
    hide PlaceOf;
    InsertAt(q, PlaceOf(q, e), e);
    assert q == q[..PlaceOf(q, e)] + q[PlaceOf(q, e)..];
  }

  class InsertionQueue {
    var l: seq<Event>

    constructor ()
      ensures l == []
    {
      l := [];
    }

    method Push(e: Event)
      modifies this
      ensures l == Inserted(old(l), e)
    {
      var k := 0;
      while k < |l| && !(l[k].time > e.time)
        invariant k <= |l| && PlaceOf(l, e) == k + PlaceOf(l[k..], e)
      {
        assert l[k..][1..] == l[k + 1..];
        k := k + 1;
      }
      if k < |l| {
        l := l[..k] + [e] + l[k..];
      } else {
        l := l + [e];
      }
    }

    method Pop() returns (e: Event)
      requires l != []
      modifies this
      ensures [e] + l == old(l) && e == old(Peek())
    {
      e := l[0];
      l := l[1..];
    }

    function Len(): nat
      reads this
    {
      |l|
    }

    // The event that Pop takes, an earliest one if the list is in order.
    function Peek(): (e: Event)
      requires Len() > 0
      reads this
      ensures ByTime(l) ==> Earliest(e, multiset(l))
    {
      l[0]
    }
  }

  // ---------- what any run of an insertion queue returns ----------

  datatype Op = Push(e: Event) | Pop

  datatype History = History(queue: seq<Event>, pushed: seq<Event>, popped: seq<Event>)

  ghost predicate CanDo(h: History, op: Op) {
    op.Pop? ==> h.queue != []
  }

  ghost function Do(h: History, op: Op): History
    requires CanDo(h, op)
  {
    match op
    case Push(e) => History(Inserted(h.queue, e), h.pushed + [e], h.popped)
    case Pop => History(h.queue[1..], h.pushed, h.popped + [h.queue[0]])
  }

  ghost predicate IsRun(run: seq<History>, ops: seq<Op>) {
    && |run| == |ops| + 1 && run[0] == History([], [], [])
    && forall i :: 0 <= i < |ops| ==> CanDo(run[i], ops[i]) && run[i + 1] == Do(run[i], ops[i])
  }

  // The events of one time, in the order in which they stand.
  ghost function At(q: seq<Event>, t: real): seq<Event> {
    if q == [] then [] else (if q[0].time == t then [q[0]] else []) + At(q[1..], t)
  }

  lemma {:induction false} AtConcat(a: seq<Event>, b: seq<Event>, t: real)
    ensures At(a + b, t) == At(a, t) + At(b, t)
    decreases |a|
  {
    if a == [] {
      assert a + b == b;
    } else {
      AtConcat(a[1..], b, t);
      assert (a + b)[0] == a[0] && (a + b)[1..] == a[1..] + b;
    }
  }

  lemma {:induction false} NoneLater(q: seq<Event>, t: real)
    requires forall i :: 0 <= i < |q| ==> q[i].time > t
    ensures At(q, t) == []
  {
    if q != [] {
      NoneLater(q[1..], t);
    }
  }

  // Among the events of one time, a new one goes last.
  lemma InsertGoesLast(q: seq<Event>, e: Event, t: real)
    requires ByTime(q)
    ensures At(Inserted(q, e), t) == At(q, t) + At([e], t)
  {
    var a, b := q[..PlaceOf(q, e)], q[PlaceOf(q, e)..];
    assert q == a + b;
    AtConcat(a, b, t);
    AtConcat(a + [e], b, t);
    AtConcat(a, [e], t);
    if e.time == t {
      NoneLater(b, t);
    }
  }

  ghost predicate Facts(h: History, t: real) {
    && ByTime(h.queue)
    && multiset(h.pushed) == multiset(h.popped) + multiset(h.queue)
    && At(h.pushed, t) == At(h.popped, t) + At(h.queue, t)
  }

  lemma PushFacts(h: History, e: Event, t: real)
    requires Facts(h, t)
    ensures Facts(Do(h, Push(e)), t)
  {
    hide PlaceOf, Inserted, At;
    InsertKeepsOrder(h.queue, e);
    InsertGoesLast(h.queue, e, t);
    AtConcat(h.pushed, [e], t);
  }

  lemma PopFacts(h: History, t: real)
    requires Facts(h, t) && h.queue != []
    ensures Facts(Do(h, Pop), t)
  {
    hide At;
    AtConcat(h.popped, [h.queue[0]], t);
    assert h.queue == [h.queue[0]] + h.queue[1..];
    AtConcat([h.queue[0]], h.queue[1..], t);
  }

  lemma {:induction false} RunFacts(run: seq<History>, ops: seq<Op>, i: nat, t: real)
    requires IsRun(run, ops) && i < |run|
    ensures Facts(run[i], t)
  {
    if i > 0 {
      RunFacts(run, ops, i - 1, t);
      match ops[i - 1]
      case Push(e) => PushFacts(run[i - 1], e, t);
      case Pop => PopFacts(run[i - 1], t);
    }
  }

  // Events of equal time come out in the order in which they went in.
  lemma EqualTimesInPushOrder(run: seq<History>, ops: seq<Op>, i: nat, t: real)
    requires IsRun(run, ops) && i < |run|
    ensures At(run[i].popped, t) <= At(run[i].pushed, t)
    ensures run[i].queue == [] ==> At(run[i].popped, t) == At(run[i].pushed, t)
  {
    RunFacts(run, ops, i, t);
  }

  // What comes out is an earliest one of the events that went in and did not come out yet.
  lemma PopsAnEarliest(run: seq<History>, ops: seq<Op>, i: nat)
    requires IsRun(run, ops) && i < |ops| && ops[i].Pop?
    ensures var h, e := run[i], run[i].queue[0];
            && run[i + 1].popped == h.popped + [e]
            && Earliest(e, multiset(h.pushed) - multiset(h.popped))
  {
    RunFacts(run, ops, i, 0.0);
    var h := run[i];
    assert multiset(h.pushed) - multiset(h.popped) == multiset(h.queue);
  }
}

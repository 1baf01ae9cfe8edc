// What one tick of the connection does to the network: it leaves every end empty or stuck
// behind a full port that knows it is waited for, it wakes every component it touches, and
// it neither loses, duplicates nor reorders a message.
module TransportTick {
  import opened Freq
  import opened MixedRadix
  import opened Transport

  // The messages of a queue that go from one port to another.
  ghost function Flow(q: seq<Msg>, src: nat, dst: nat): seq<Msg> {
    if q == [] then []
    else if q[0].src == src && q[0].dst == dst then [q[0]] + Flow(q[1..], src, dst)
    else Flow(q[1..], src, dst)
  }

  lemma {:induction false} FlowConcat(a: seq<Msg>, b: seq<Msg>, src: nat, dst: nat)
    ensures Flow(a + b, src, dst) == Flow(a, src, dst) + Flow(b, src, dst)
  {
    if a == [] {
      assert a + b == b;
    } else {
      assert (a + b)[1..] == a[1..] + b;
      FlowConcat(a[1..], b, src, dst);
    }
  }

  // The messages under way from one port to another, oldest first.
  ghost function UnderWay(n: Net, src: nat, dst: nat): seq<Msg>
    requires src < |n.ends| == |n.ports| && dst < |n.ports|
  {
    Flow(n.ports[dst].buf, src, dst) + Flow(n.ends[src].buf, src, dst)
  }

  // An end with nothing to send, or whose head faces a full port that will call back.
  ghost predicate Blocked(n: Net, e: nat) {
    e < |n.ends| &&
    (n.ends[e].buf == [] || (n.ends[e].buf[0].dst < |n.ports| && Stuck(n.ports[n.ends[e].buf[0].dst])))
  }

  ghost predicate Stuck(p: Port) {
    p.Full() && p.busy
  }

  ghost function Later(a: Time, b: Time): Time {
    if a >= b then a else b
  }

  // From n to r the component was woken: a tick is queued for the next tick of its clock, or
  // for a later time that its scheduler had been asked for already.
  ghost predicate Woken(c: Config, n: Net, r: Net, id: nat) {
    && id < |n.compNext| == |r.compNext| == |c.clocks|
    && r.compNext[id] == Later(n.compNext[id], c.clocks[id](n.now))
    && Event(r.compNext[id], Comp(id)) in r.primary
  }

  // From n to r each scheduler was asked for the next tick of its clock, or for nothing.
  ghost predicate AskedNext(c: Config, n: Net, r: Net) {
    && |n.compNext| == |r.compNext| == |c.clocks|
    && forall id :: 0 <= id < |n.compNext| ==>
         r.compNext[id] == n.compNext[id] || r.compNext[id] == Later(n.compNext[id], c.clocks[id](n.now))
  }

  // The scheduler of a component remembers a future tick only if that tick is queued.
  ghost predicate CompScheduled(n: Net) {
    forall id :: 0 <= id < |n.compNext| && n.compNext[id] > n.now ==>
      Event(n.compNext[id], Comp(id)) in n.primary
  }

  // Buffers respect their capacities, and a busy flag means that the buffer is full.
  ghost predicate Bounded(n: Net) {
    && (forall e :: 0 <= e < |n.ends| ==> |n.ends[e].buf| <= n.ends[e].cap && (n.ends[e].busy ==> n.ends[e].Full()))
    && (forall p :: 0 <= p < |n.ports| ==>
          |n.ports[p].buf| <= n.ports[p].cap && (n.ports[p].busy ==> n.ports[p].Full()))
  }

  // What deliveries preserve, and what they may only add to.
  ghost predicate Delivered(c: Config, n: Net, r: Net)
    requires Shape(c, n) && Shape(c, r)
  {
    && r == n.(primary := r.primary, compNext := r.compNext, ends := r.ends, ports := r.ports)
    && n.primary <= r.primary && AskedNext(c, n, r)
    && (forall ev :: ev in r.primary && ev !in n.primary ==> ev.time > n.now && ev.who != Conn)
    && (forall p :: 0 <= p < |n.ports| ==> PortGrew(c, n, r, p))
    && (forall e :: 0 <= e < |n.ends| ==> EndShrank(c, n, r, e))
    && (forall s, d :: 0 <= s < |n.ends| && 0 <= d < |n.ports| ==> UnderWay(r, s, d) == UnderWay(n, s, d))
  }

  ghost predicate PortGrew(c: Config, n: Net, r: Net, p: nat)
    requires p < |n.ports| == |r.ports| == |c.owner|
  {
    && r.ports[p].cap == n.ports[p].cap
    && n.ports[p].buf <= r.ports[p].buf
    && (n.ports[p].busy ==> r.ports[p].busy)
    && (r.ports[p].buf != n.ports[p].buf ==> Woken(c, n, r, c.owner[p]))
  }

  ghost predicate EndShrank(c: Config, n: Net, r: Net, e: nat)
    requires e < |n.ends| == |r.ends| == |c.owner|
  {
    && r.ends[e].cap == n.ends[e].cap
    && |r.ends[e].buf| <= |n.ends[e].buf|
    && (|r.ends[e].buf| < |n.ends[e].buf| ==> !r.ends[e].busy && (n.ends[e].busy ==> Woken(c, n, r, c.owner[e])))
    && (|r.ends[e].buf| == |n.ends[e].buf| ==> r.ends[e] == n.ends[e])
  }

  // Being woken composes with being asked for the same tick before or after.
  lemma WokenTrans(c: Config, a: Net, b: Net, d: Net, id: nat)
    requires a.now == b.now && AskedNext(c, a, b) && AskedNext(c, b, d) && b.primary <= d.primary
    ensures Woken(c, a, b, id) || Woken(c, b, d, id) ==> Woken(c, a, d, id)
  {
  }

  lemma AskedTrans(c: Config, a: Net, b: Net, d: Net)
    requires a.now == b.now && AskedNext(c, a, b) && AskedNext(c, b, d)
    ensures AskedNext(c, a, d)
  {
  }

  lemma DeliveredTrans(c: Config, a: Net, b: Net, d: Net)
    requires Shape(c, a) && Shape(c, b) && Shape(c, d) && Delivered(c, a, b) && Delivered(c, b, d)
    ensures Delivered(c, a, d)
  {
    hide Woken, AskedNext, UnderWay;
    AskedTrans(c, a, b, d);
    forall p | 0 <= p < |a.ports|
      ensures PortGrew(c, a, d, p)
    {
      assert PortGrew(c, a, b, p) && PortGrew(c, b, d, p);
      WokenTrans(c, a, b, d, c.owner[p]);
    }
    forall e | 0 <= e < |a.ends|
      ensures EndShrank(c, a, d, e)
    {
      assert EndShrank(c, a, b, e) && EndShrank(c, b, d, e);
      WokenTrans(c, a, b, d, c.owner[e]);
    }
  }

  lemma TickLaterWakes(c: Config, n: Net, id: nat)
    requires Shape(c, n) && CompScheduled(n) && id < |n.compNext|
    ensures var r := CompTickLater(c, n, id);
            CompScheduled(r) && Woken(c, n, r, id) && AskedNext(c, n, r) && n.primary <= r.primary &&
            forall ev :: ev in r.primary && ev !in n.primary ==> ev.time > n.now && ev.who != Conn
  {
    var t := c.clocks[id](n.now);
    assert n.now < t;
    var r := CompTickLater(c, n, id);
    assert Event(r.compNext[id], Comp(id)) in r.primary;
  }

  lemma DeliverUnderWay(c: Config, n: Net, e: nat, s: nat, d: nat)
    requires Shape(c, n) && e < |n.ends| && n.ends[e].buf != [] && !HeadFull(n, e)
    requires s < |n.ends| && d < |n.ports|
    ensures UnderWay(Deliver(c, n, e), s, d) == UnderWay(n, s, d)
  {
    var m := n.ends[e].buf[0];
    var r := Deliver(c, n, e);
    assert m.src == e;
    FlowConcat(n.ports[d].buf, [m], s, d);
    assert [m][1..] == [];
    if s == e && d == m.dst {
      assert r.ports[d].buf == n.ports[d].buf + [m];
      assert r.ends[s].buf == n.ends[s].buf[1..];
    } else {
      assert Flow(r.ports[d].buf, s, d) == Flow(n.ports[d].buf, s, d);
    }
  }

  // Ticks were only added, all of them later than now, and the schedulers know of them.
  ghost predicate OnlyWoke(c: Config, n: Net, r: Net) {
    && r.now == n.now && CompScheduled(r) && n.primary <= r.primary && AskedNext(c, n, r)
    && (forall ev :: ev in r.primary && ev !in n.primary ==> ev.time > n.now && ev.who != Conn)
  }

  lemma RecvWakes(c: Config, n: Net, m: Msg)
    requires Shape(c, n) && CompScheduled(n) && m.dst < |n.ports| && !n.ports[m.dst].Full()
    ensures OnlyWoke(c, n, Recv(c, n, m)) && Woken(c, n, Recv(c, n, m), c.owner[m.dst])
  {
    var q := n.ports[m.dst];
    var a := n.(ports := n.ports[m.dst := q.(buf := q.buf + [m])]);
    assert CompScheduled(a);
    TickLaterWakes(c, a, c.owner[m.dst]);
  }

  lemma ReleaseWakes(c: Config, n: Net, e: nat)
    requires Shape(c, n) && CompScheduled(n) && e < |n.ends| && n.ends[e].buf != []
    ensures OnlyWoke(c, n, Release(c, n, e)) && (n.ends[e].busy ==> Woken(c, n, Release(c, n, e), c.owner[e]))
  {
    var d := n.(ends := n.ends[e := n.ends[e].(buf := n.ends[e].buf[1..], busy := false)]);
    assert CompScheduled(d);
    if n.ends[e].busy {
      assert Shape(c, d);
      TickLaterWakes(c, d, c.owner[e]);
    }
  }

  // Delivering wakes the receiver, and the sender if it had been refused.
  lemma DeliverWakes(c: Config, n: Net, e: nat)
    requires Shape(c, n) && CompScheduled(n)
    requires e < |n.ends| && n.ends[e].buf != [] && !HeadFull(n, e)
    ensures var r := Deliver(c, n, e);
            && OnlyWoke(c, n, r)
            && Woken(c, n, r, c.owner[n.ends[e].buf[0].dst])
            && (n.ends[e].busy ==> Woken(c, n, r, c.owner[e]))
  {
    hide Woken, AskedNext, CompScheduled;
    var m := n.ends[e].buf[0];
    RecvWakes(c, n, m);
    var b := Recv(c, n, m);
    ReleaseWakes(c, b, e);
    AskedTrans(c, n, b, Release(c, b, e));
    WokenTrans(c, n, b, Release(c, b, e), c.owner[m.dst]);
    WokenTrans(c, n, b, Release(c, b, e), c.owner[e]);
  }

  lemma DeliverFacts(c: Config, n: Net, e: nat)
    requires Shape(c, n) && CompScheduled(n) && Bounded(n)
    requires e < |n.ends| && n.ends[e].buf != [] && !HeadFull(n, e)
    ensures var r := Deliver(c, n, e); Delivered(c, n, r) && CompScheduled(r) && Bounded(r)
  {
    var r := Deliver(c, n, e);
    DeliverWakes(c, n, e);
    DeliverBounded(c, n, e);
    DeliverPlaces(c, n, e);
    forall s, t | 0 <= s < |n.ends| && 0 <= t < |n.ports|
      ensures UnderWay(r, s, t) == UnderWay(n, s, t)
    {
      DeliverUnderWay(c, n, e, s, t);
    }
    forall p | 0 <= p < |n.ports|
      ensures PortGrew(c, n, r, p)
    {
    }
    forall x | 0 <= x < |n.ends|
      ensures EndShrank(c, n, r, x)
    {
    }
  }

  // The only port and the only end that a delivery changes, and how.
  lemma DeliverPlaces(c: Config, n: Net, e: nat)
    requires Shape(c, n) && e < |n.ends| && n.ends[e].buf != [] && !HeadFull(n, e)
    ensures var r, m := Deliver(c, n, e), n.ends[e].buf[0];
            && r.now == n.now && r.secondary == n.secondary && r.connNext == n.connNext && r.turn == n.turn
            && r.ports == n.ports[m.dst := n.ports[m.dst].(buf := n.ports[m.dst].buf + [m])]
            && r.ends == n.ends[e := n.ends[e].(buf := n.ends[e].buf[1..], busy := false)]
  {
  }

  lemma DeliverBounded(c: Config, n: Net, e: nat)
    requires Shape(c, n) && Bounded(n)
    requires e < |n.ends| && n.ends[e].buf != [] && !HeadFull(n, e)
    ensures Bounded(Deliver(c, n, e))
  {
  }

  // Forwarding drains an end until it is empty or its head is stuck, and no other end.
  ghost predicate Forwarded(c: Config, n: Net, e: nat, r: Net)
    requires Shape(c, n) && Shape(c, r) && e < |n.ends|
  {
    && Delivered(c, n, r) && CompScheduled(r) && Bounded(r) && Blocked(r, e)
    && forall x :: 0 <= x < |n.ends| && x != e ==> r.ends[x] == n.ends[x]
  }

  lemma ForwardStops(c: Config, n: Net, e: nat)
    requires Shape(c, n) && CompScheduled(n) && Bounded(n) && e < |n.ends|
    requires n.ends[e].buf == [] || HeadFull(n, e)
    ensures Forwarded(c, n, e, Forward(c, n, e))
  {
  }

  lemma ForwardGoesOn(c: Config, n: Net, e: nat)
    requires Shape(c, n) && CompScheduled(n) && Bounded(n) && e < |n.ends|
    requires n.ends[e].buf != [] && !HeadFull(n, e)
    requires Forwarded(c, Deliver(c, n, e), e, Forward(c, Deliver(c, n, e), e))
    ensures Forwarded(c, n, e, Forward(c, n, e))
  {
    var m := Deliver(c, n, e);
    DeliverFacts(c, n, e);
    DeliveredTrans(c, n, m, Forward(c, m, e));
  }

  lemma {:induction false} ForwardFacts(c: Config, n: Net, e: nat)
    requires Shape(c, n) && CompScheduled(n) && Bounded(n) && e < |n.ends|
    ensures Forwarded(c, n, e, Forward(c, n, e))
    decreases |n.ends[e].buf|
  {
    if n.ends[e].buf == [] || HeadFull(n, e) {
      ForwardStops(c, n, e);
    } else {
      DeliverFacts(c, n, e);
      ForwardFacts(c, Deliver(c, n, e), e);
      ForwardGoesOn(c, n, e);
    }
  }

  // Serving one end leaves the blocked ones blocked.
  lemma BlockedStays(c: Config, n: Net, r: Net, e: nat)
    requires Shape(c, n) && Shape(c, r) && Delivered(c, n, r) && Bounded(r)
    requires Blocked(n, e) && r.ends[e] == n.ends[e]
    ensures Blocked(r, e)
  {
    if n.ends[e].buf != [] {
      assert PortGrew(c, n, r, n.ends[e].buf[0].dst);
    }
  }

  ghost predicate ServedBefore(turn: nat, ports: nat, i: nat, e: nat)
    requires turn < ports && i <= ports
  {
    exists k :: 0 <= k < i && Served(turn, ports, k) == e
  }

  // The ends served in the first i places of a tick are blocked.
  ghost predicate ServedBlocked(n: Net, i: nat)
    requires n.turn < |n.ports| && i <= |n.ports|
  {
    forall e :: 0 <= e < |n.ports| && ServedBefore(n.turn, |n.ports|, i, e) ==> Blocked(n, e)
  }

  lemma ServedEarlier(turn: nat, ports: nat, i: nat, e: nat)
    requires turn < ports && i < ports && ServedBefore(turn, ports, i + 1, e) && Served(turn, ports, i) != e
    ensures ServedBefore(turn, ports, i, e)
  {
    var k :| 0 <= k < i + 1 && Served(turn, ports, k) == e;
    assert k < i;
  }

  // The network r came from n by deliveries, and the first i ends served are blocked.
  ghost predicate ServedUpTo(c: Config, n: Net, r: Net, i: nat)
    requires Shape(c, n) && Shape(c, r) && r.turn == n.turn && 0 < |n.ports| && i <= |n.ports|
  {
    && Delivered(c, n, r) && CompScheduled(r) && Bounded(r) && ServedBlocked(r, i)
  }

  lemma ServeOne(c: Config, n: Net, r: Net, i: nat)
    requires Shape(c, n) && Shape(c, r) && r.turn == n.turn && i < |n.ports| && ServedUpTo(c, n, r, i)
    ensures ServedUpTo(c, n, Forward(c, r, Served(n.turn, |n.ports|, i)), i + 1)
  {
    var x := Served(n.turn, |n.ports|, i);
    var m := Forward(c, r, x);
    ForwardFacts(c, r, x);
    forall e | 0 <= e < |r.ports| && ServedBefore(r.turn, |r.ports|, i + 1, e)
      ensures Blocked(m, e)
    {
      if e != x {
        ServedEarlier(r.turn, |r.ports|, i, e);
        BlockedStays(c, r, m, e);
      }
    }
    DeliveredTrans(c, n, r, m);
  }

  ghost predicate ServesOk(c: Config, n: Net, i: nat)
    requires Shape(c, n) && i <= |n.ports| && 0 < |n.ports|
  {
    ServedUpTo(c, n, Serve(c, n, i), i)
  }

  lemma ServeNone(c: Config, n: Net)
    requires Shape(c, n) && CompScheduled(n) && Bounded(n) && 0 < |n.ports|
    ensures ServesOk(c, n, 0)
  {
  }

  lemma ServeNext(c: Config, n: Net, i: nat)
    requires Shape(c, n) && i < |n.ports| && ServesOk(c, n, i)
    ensures ServesOk(c, n, i + 1)
  {
    ServeOne(c, n, Serve(c, n, i), i);
  }

  lemma {:induction false} ServeFacts(c: Config, n: Net, i: nat)
    requires Shape(c, n) && i < |n.ports| && ServesOk(c, n, 0)
    ensures ServesOk(c, n, i + 1)
  {
    if i > 0 {
      ServeFacts(c, n, i - 1);
    }
    ServeNext(c, n, i);
  }

  // The i-th port from the turn on, once around.
  function FromTurn(turn: nat, ports: nat, i: nat): (e: nat)
    requires turn < ports
    ensures e < ports
  {
    (turn + i) % ports
  }

  // In the course of a tick every port has its turn, from the turn on, and it has it once.
  lemma ServedOnce(turn: nat, ports: nat, e: nat)
    requires turn < ports && e < ports
    ensures ServedBefore(turn, ports, ports, e)
    ensures forall i, j :: 0 <= i < j < ports ==> Served(turn, ports, i) != Served(turn, ports, j)
    ensures forall i :: 0 <= i < ports ==> Served(turn, ports, i) == FromTurn(turn, ports, i)
  {
    var i := if e >= turn then e - turn else e + ports - turn;
    assert Served(turn, ports, i) == e;
    forall i | 0 <= i < ports ensures Served(turn, ports, i) == FromTurn(turn, ports, i) {
      ServedFrom(turn, ports, i);
    }
  }

  lemma ServedFrom(turn: nat, ports: nat, i: nat)
    requires turn < ports && i < ports
    ensures Served(turn, ports, i) == FromTurn(turn, ports, i)
  {
    DivMod(if turn + i < ports then 0 else 1, if turn + i < ports then turn + i else turn + i - ports, ports);
  }

  lemma ServeBlocks(c: Config, n: Net)
    requires Shape(c, n) && CompScheduled(n) && Bounded(n) && |n.ports| > 0
    ensures var s := Serve(c, n, |n.ports|);
            Delivered(c, n, s) && CompScheduled(s) && Bounded(s) && forall e :: 0 <= e < |n.ports| ==> Blocked(s, e)
  {
    ServeNone(c, n);
    ServeFacts(c, n, |n.ports| - 1);
    forall e | 0 <= e < |n.ports|
      ensures ServedBefore(n.turn, |n.ports|, |n.ports|, e)
    {
      ServedOnce(n.turn, |n.ports|, e);
    }
  }

  // ---------- who comes first ----------

  // No message of an end goes to a port.
  ghost predicate NothingFor(n: Net, e: nat, d: nat)
    requires e < |n.ends|
  {
    forall m :: m in n.ends[e].buf ==> m.dst != d
  }

  // Forwarding an end leaves the ports alone that none of its messages goes to.
  lemma {:induction false} ForwardElsewhere(c: Config, n: Net, e: nat, d: nat)
    requires Shape(c, n) && e < |n.ends| && d < |n.ports| && NothingFor(n, e, d)
    ensures Forward(c, n, e).ports[d] == n.ports[d]
    decreases |n.ends[e].buf|
  {
    if n.ends[e].buf != [] {
      assert n.ends[e].buf[0] in n.ends[e].buf;
      if !HeadFull(n, e) {
        DeliverPlaces(c, n, e);
        ForwardElsewhere(c, Deliver(c, n, e), e, d);
      }
    }
  }

  // The ends before place k hold nothing for port d.
  ghost predicate NothingBefore(n: Net, k: nat, d: nat)
    requires n.turn < |n.ports| == |n.ends|
  {
    forall j :: 0 <= j < k ==> NothingFor(n, FromTurn(n.turn, |n.ports|, j), d)
  }

  // Up to place k port d and the ends from k on stay as they are.
  lemma {:induction false} ServeElsewhere(c: Config, n: Net, k: nat, d: nat)
    requires Shape(c, n) && 0 < |n.ports| && k < |n.ports| && d < |n.ports| && NothingBefore(n, k, d)
    ensures var r := Serve(c, n, k);
            && r.ports[d] == n.ports[d]
            && |r.ends| == |n.ends|
            && forall j :: k <= j < |n.ports| ==>
                 r.ends[Served(n.turn, |n.ports|, j)] == n.ends[Served(n.turn, |n.ports|, j)]
  {
    hide Shape, Forward, FromTurn, Served;
    SizesOf(c, n);
    SizesOf(c, Serve(c, n, k));
    if k > 0 {
      ServeElsewhere(c, n, k - 1, d);
      var s, e := Serve(c, n, k - 1), Served(n.turn, |n.ports|, k - 1);
      ServedFrom(n.turn, |n.ports|, k - 1);
      assert NothingFor(n, FromTurn(n.turn, |n.ports|, k - 1), d);
      SizesOf(c, s);
      ForwardElsewhere(c, s, e, d);
      ForwardShrinks(c, s, e);
      ServedOnce(n.turn, |n.ports|, e);
    }
  }

  lemma SizesOf(c: Config, n: Net)
    requires Shape(c, n)
    ensures |n.ends| == |n.ports| == |c.owner| && (|n.ports| > 0 ==> n.turn < |n.ports|)
  {
  }

  lemma ForwardsHead(c: Config, n: Net, e: nat, d: nat)
    requires Shape(c, n) && CompScheduled(n) && Bounded(n) && e < |n.ends| && d < |n.ports|
    requires n.ends[e].buf != [] && n.ends[e].buf[0].dst == d && !n.ports[d].Full()
    ensures n.ports[d].buf + [n.ends[e].buf[0]] <= Forward(c, n, e).ports[d].buf
  {
    var m := Deliver(c, n, e);
    DeliverPlaces(c, n, e);
    DeliverFacts(c, n, e);
    ForwardFacts(c, m, e);
    assert PortGrew(c, m, Forward(c, m, e), d);
  }

  lemma ForwardKeeps(c: Config, n: Net, e: nat, d: nat)
    requires Shape(c, n) && CompScheduled(n) && Bounded(n) && e < |n.ends| && d < |n.ports|
    ensures var r := Forward(c, n, e); CompScheduled(r) && Bounded(r) && n.ports[d].buf <= r.ports[d].buf
  {
    hide Bounded, CompScheduled, UnderWay, AskedNext, Woken, Forward;
    ForwardFacts(c, n, e);
    assert PortGrew(c, n, Forward(c, n, e), d);
  }

  lemma {:induction false} ServeStates(c: Config, n: Net, i: nat)
    requires Shape(c, n) && CompScheduled(n) && Bounded(n) && i <= |n.ports|
    ensures CompScheduled(Serve(c, n, i)) && Bounded(Serve(c, n, i))
  {
    hide Bounded, CompScheduled, Forward;
    if i > 0 {
      ServeStates(c, n, i - 1);
      ForwardKeeps(c, Serve(c, n, i - 1), Served(n.turn, |n.ports|, i - 1), 0);
    }
  }

  lemma {:induction false} PortsKeep(c: Config, n: Net, k: nat, i: nat, d: nat)
    requires Shape(c, n) && CompScheduled(n) && Bounded(n) && k <= i <= |n.ports| && d < |n.ports|
    ensures Serve(c, n, k).ports[d].buf <= Serve(c, n, i).ports[d].buf
    decreases i
  {
    hide Bounded, CompScheduled, Forward;
    if k < i {
      PortsKeep(c, n, k, i - 1, d);
      ServeStates(c, n, i - 1);
      ForwardKeeps(c, Serve(c, n, i - 1), Served(n.turn, |n.ports|, i - 1), d);
    }
  }

  lemma TickPlaces(c: Config, n: Net)
    requires Shape(c, n) && |n.ports| > 0
    ensures Tick(c, n).ports == Serve(c, n, |n.ports|).ports && Tick(c, n).ends == Serve(c, n, |n.ports|).ends
  {
    hide Serve;
  }

  // Of the ends with messages for a port that has room, the first one from the turn on goes
  // first: if the message at its head is for that port, that is the next one it gets.
  lemma FirstFromTheTurn(c: Config, n: Net, k: nat, d: nat)
    requires Shape(c, n) && CompScheduled(n) && Bounded(n) && k < |n.ports| && d < |n.ports|
    requires var e := FromTurn(n.turn, |n.ports|, k);
             n.ends[e].buf != [] && n.ends[e].buf[0].dst == d && !n.ports[d].Full()
    requires NothingBefore(n, k, d)
    ensures n.ports[d].buf + [n.ends[FromTurn(n.turn, |n.ports|, k)].buf[0]] <= Tick(c, n).ports[d].buf
  {
    hide FromTurn, Served, Bounded, CompScheduled, Tick, Serve, Forward, NothingBefore;
    var e := FromTurn(n.turn, |n.ports|, k);
    ServedFrom(n.turn, |n.ports|, k);
    ServeElsewhere(c, n, k, d);
    ServeStates(c, n, k);
    ForwardsHead(c, Serve(c, n, k), e, d);
    ServeUnfolds(c, n, k);
    PortsKeep(c, n, k + 1, |n.ports|, d);
    TickPlaces(c, n);
  }

  // If that port has room for one, no message of any other end for it moves.
  lemma OthersWait(c: Config, n: Net, k: nat, d: nat, f: nat)
    requires Shape(c, n) && CompScheduled(n) && Bounded(n) && k < |n.ports| && d < |n.ports|
    requires var e := FromTurn(n.turn, |n.ports|, k);
             n.ends[e].buf != [] && n.ends[e].buf[0].dst == d && |n.ports[d].buf| + 1 == n.ports[d].cap
    requires NothingBefore(n, k, d) && f < |n.ends| && f != FromTurn(n.turn, |n.ports|, k)
    ensures Flow(Tick(c, n).ends[f].buf, f, d) == Flow(n.ends[f].buf, f, d)
    ensures Tick(c, n).ports[d].buf == n.ports[d].buf + [n.ends[FromTurn(n.turn, |n.ports|, k)].buf[0]]
  {
    hide FromTurn, Flow, Tick, Serve, NothingBefore, CompScheduled, AskedNext, Woken;
    var e := FromTurn(n.turn, |n.ports|, k);
    var m := n.ends[e].buf[0];
    assert m in n.ends[e].buf && m.src == e;
    FirstFromTheTurn(c, n, k, d);
    ServeBlocks(c, n);
    TickPlaces(c, n);
    var r := Serve(c, n, |n.ports|);
    assert UnderWay(r, f, d) == UnderWay(n, f, d);
    assert PortGrew(c, n, r, d);
    assert r.ports[d].buf == n.ports[d].buf + [m];
    FlowConcat(n.ports[d].buf, [m], f, d);
    NotOfEnd(m, f, d);
    Tail(Flow(n.ports[d].buf, f, d), Flow(r.ends[f].buf, f, d), Flow(n.ends[f].buf, f, d));
  }

  lemma Tail(a: seq<Msg>, b: seq<Msg>, b': seq<Msg>)
    requires a + [] + b == a + b'
    ensures b == b'
  {
    assert (a + [] + b)[|a|..] == b && (a + b')[|a|..] == b';
  }

  lemma NotOfEnd(m: Msg, f: nat, d: nat)
    requires m.src != f
    ensures Flow([m], f, d) == []
  {
    assert [m][1..] == [];
  }
}

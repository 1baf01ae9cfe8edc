// The message transport as a state machine: a DirectConnection, the ports plugged into
// it, their owners' tick schedulers and the queues of the engine that drives them
// (akita/sim/directconnection.go, port.go, ticker.go, buffer.go, bufferedsender.go).
// A port is known by the position at which it was plugged in.
module Transport {
  import opened Freq

  datatype Msg = Msg(id: nat, src: nat, dst: nat)

  // The receiving side of a port: its bounded buffer and its portBusy flag.
  datatype Port = Port(buf: seq<Msg>, cap: nat, busy: bool) {
    predicate Full() { |buf| >= cap }
  }

  // The sending side of a port: the buffer the connection keeps for it and its busy flag.
  datatype End = End(buf: seq<Msg>, cap: nat, busy: bool) {
    predicate Full() { |buf| >= cap }
  }

  datatype Handler = Conn | Comp(id: nat)

  datatype Event = Event(time: Time, who: Handler)

  // Who owns each port, and the clocks of the connection and of the components.
  datatype Config = Config(owner: seq<nat>, connClock: Time -> Time, clocks: seq<Time -> Time>) {
    ghost predicate Valid() {
      && (forall p :: 0 <= p < |owner| ==> owner[p] < |clocks|)
      && Advances(connClock)
      && (forall i :: 0 <= i < |clocks| ==> Advances(clocks[i]))
    }
  }

  datatype Net = Net(
    now: Time,
    primary: multiset<Event>,
    secondary: multiset<Event>,
    connNext: Time,
    compNext: seq<Time>,
    ends: seq<End>,
    ports: seq<Port>,
    turn: nat)

  // The shape of a network: every message waits at its source's end for another port.
  ghost predicate Shape(c: Config, n: Net) {
    && c.Valid()
    && |n.ends| == |n.ports| == |c.owner|
    && |n.compNext| == |c.clocks|
    && (|n.ports| > 0 ==> n.turn < |n.ports|)
    && forall e :: 0 <= e < |n.ends| ==> Routed(n.ends[e].buf, e, |n.ports|)
  }

  ghost predicate Routed(q: seq<Msg>, src: nat, ports: nat) {
    forall m :: m in q ==> m.src == src < ports && m.dst < ports && m.dst != src
  }

  // ---------- tick schedulers ----------

  ghost function ConnTickNow(n: Net, t: Time): Net {
    if n.connNext >= t then n
    else n.(connNext := t, secondary := n.secondary + multiset{Event(t, Conn)})
  }

  ghost function ConnTickLater(c: Config, n: Net): Net {
    ConnTickNow(n, c.connClock(n.now))
  }

  ghost function CompTickAt(n: Net, id: nat, t: Time): Net
    requires id < |n.compNext|
  {
    if n.compNext[id] >= t then n
    else n.(compNext := n.compNext[id := t], primary := n.primary + multiset{Event(t, Comp(id))})
  }

  ghost function CompTickLater(c: Config, n: Net, id: nat): Net
    requires id < |n.compNext| == |c.clocks|
  {
    CompTickAt(n, id, c.clocks[id](n.now))
  }

  // The times for which a scheduler asks the engine, of all times it is asked for.
  ghost function Issued(next: Time, asked: seq<Time>): seq<Time>
    decreases |asked|
  {
    if asked == [] then []
    else if next >= asked[0] then Issued(next, asked[1..])
    else [asked[0]] + Issued(asked[0], asked[1..])
  }

  // A component's scheduler asked for one time after the other, and the connection's.
  ghost function CompTickAll(n: Net, id: nat, asked: seq<Time>): (r: Net)
    requires id < |n.compNext|
    decreases |asked|
  {
    if asked == [] then n else CompTickAll(CompTickAt(n, id, asked[0]), id, asked[1..])
  }

  ghost function ConnTickAll(n: Net, asked: seq<Time>): Net
    decreases |asked|
  {
    if asked == [] then n else ConnTickAll(ConnTickNow(n, asked[0]), asked[1..])
  }

  ghost function TickEvents(times: seq<Time>, who: Handler): multiset<Event>
    decreases |times|
  {
    if times == [] then multiset{} else multiset{Event(times[0], who)} + TickEvents(times[1..], who)
  }

  ghost function LastOf(next: Time, times: seq<Time>): Time {
    if times == [] then next else times[|times| - 1]
  }

  // Whatever a scheduler is asked for, the engine gets one event for each of the issued times,
  // and nothing else; what the scheduler remembers is the last one.
  lemma {:induction false} IssuedIsScheduled(n: Net, id: nat, asked: seq<Time>)
    requires id < |n.compNext|
    ensures var issued := Issued(n.compNext[id], asked);
            CompTickAll(n, id, asked) ==
            n.(compNext := n.compNext[id := LastOf(n.compNext[id], issued)],
               primary := n.primary + TickEvents(issued, Comp(id)))
    decreases |asked|
  {
    if asked != [] {
      var m := CompTickAt(n, id, asked[0]);
      IssuedIsScheduled(m, id, asked[1..]);
      if n.compNext[id] < asked[0] {
        var rest := Issued(asked[0], asked[1..]);
        assert ([asked[0]] + rest)[1..] == rest;
        assert m.compNext[id := LastOf(asked[0], rest)] == n.compNext[id := LastOf(asked[0], rest)];
      }
    }
  }

  lemma {:induction false} ConnIssuedIsScheduled(n: Net, asked: seq<Time>)
    ensures var issued := Issued(n.connNext, asked);
            ConnTickAll(n, asked) ==
            n.(connNext := LastOf(n.connNext, issued), secondary := n.secondary + TickEvents(issued, Conn))
    decreases |asked|
  {
    if asked != [] {
      ConnIssuedIsScheduled(ConnTickNow(n, asked[0]), asked[1..]);
      var rest := Issued(asked[0], asked[1..]);
      assert ([asked[0]] + rest)[1..] == rest;
    }
  }

  // Whatever a scheduler is asked for, in any order, the times it issues strictly increase, so
  // no component is ticked twice at one time by its scheduler.
  lemma {:induction false} IssuedIncrease(next: Time, asked: seq<Time>, i: nat, j: nat)
    requires i < j < |Issued(next, asked)|
    ensures next < Issued(next, asked)[i] < Issued(next, asked)[j]
    decreases |asked|
  {
    if next >= asked[0] {
      IssuedIncrease(next, asked[1..], i, j);
    } else if i > 0 {
      IssuedIncrease(asked[0], asked[1..], i - 1, j - 1);
    } else {
      IssuedAfter(asked[0], asked[1..], j - 1);
    }
  }

  lemma {:induction false} IssuedAfter(next: Time, asked: seq<Time>, j: nat)
    requires j < |Issued(next, asked)|
    ensures next < Issued(next, asked)[j]
    decreases |asked|
  {
    if next >= asked[0] {
      IssuedAfter(next, asked[1..], j);
    } else if j > 0 {
      IssuedAfter(asked[0], asked[1..], j - 1);
    }
  }

  // ---------- components calling ports ----------

  // Sending either refuses and marks the end busy, or buffers and asks for a tick now.
  ghost function Send(n: Net, m: Msg): Net
    requires m.src < |n.ends|
  {
    var e := n.ends[m.src];
    if e.Full() then n.(ends := n.ends[m.src := e.(busy := true)])
    else ConnTickNow(n.(ends := n.ends[m.src := e.(buf := e.buf + [m])]), n.now)
  }

  ghost function CanSend(n: Net, p: nat): Net
    requires p < |n.ends|
  {
    var e := n.ends[p];
    if e.Full() then n.(ends := n.ends[p := e.(busy := true)]) else n
  }

  ghost function Retrieve(n: Net, p: nat): Net
    requires p < |n.ports|
  {
    var q := n.ports[p];
    if q.buf == [] then n
    else
      var m := n.(ports := n.ports[p := q.(buf := q.buf[1..], busy := false)]);
      if q.busy then ConnTickNow(m, n.now) else m
  }

  // ---------- the connection's tick ----------

  ghost function Recv(c: Config, n: Net, m: Msg): (r: Net)
    requires Shape(c, n) && m.dst < |n.ports|
    ensures Shape(c, r)
  {
    var q := n.ports[m.dst];
    if q.Full() then n.(ports := n.ports[m.dst := q.(busy := true)])
    else CompTickLater(c, n.(ports := n.ports[m.dst := q.(buf := q.buf + [m])]), c.owner[m.dst])
  }

  // Takes the head of an end off its buffer and tells a component that was refused.
  ghost function Release(c: Config, n: Net, e: nat): (r: Net)
    requires Shape(c, n) && e < |n.ends| && n.ends[e].buf != []
    ensures Shape(c, r)
    ensures |r.ends[e].buf| == |n.ends[e].buf| - 1
  {
    var end := n.ends[e];
    var m := n.(ends := n.ends[e := end.(buf := end.buf[1..], busy := false)]);
    if end.busy then CompTickLater(c, m, c.owner[e]) else m
  }

  // Delivering the head of an end to a port with room.
  ghost function Deliver(c: Config, n: Net, e: nat): (r: Net)
    requires Shape(c, n) && e < |n.ends| && n.ends[e].buf != []
    ensures Shape(c, r) && |r.ends[e].buf| == |n.ends[e].buf| - 1
  {
    Release(c, Recv(c, n, n.ends[e].buf[0]), e)
  }

  ghost predicate HeadFull(n: Net, e: nat)
    requires e < |n.ends| && n.ends[e].buf != [] && n.ends[e].buf[0].dst < |n.ports|
  {
    n.ports[n.ends[e].buf[0].dst].Full()
  }

  ghost function Forward(c: Config, n: Net, e: nat): (r: Net)
    requires Shape(c, n) && e < |n.ends|
    ensures Shape(c, r) && r.turn == n.turn
    decreases |n.ends[e].buf|
  {
    if n.ends[e].buf == [] then n
    else if HeadFull(n, e) then Recv(c, n, n.ends[e].buf[0])
    else Forward(c, Deliver(c, n, e), e)
  }

  // Forwarding one end leaves the other ends alone.
  lemma {:induction false} ForwardShrinks(c: Config, n: Net, e: nat)
    requires Shape(c, n) && e < |n.ends|
    ensures var r := Forward(c, n, e);
            r.now == n.now && forall x :: 0 <= x < |n.ends| ==>
              |r.ends[x].buf| <= |n.ends[x].buf| && (x != e ==> r.ends[x] == n.ends[x])
    decreases |n.ends[e].buf|
  {
    if n.ends[e].buf != [] && !HeadFull(n, e) {
      ForwardShrinks(c, Deliver(c, n, e), e);
    }
  }

  // The port served in the i-th place of a tick: once around the ports, from the turn on.
  ghost function Served(turn: nat, ports: nat, i: nat): (e: nat)
    requires turn < ports && i < ports
    ensures e < ports
  {
    if i < ports - turn then turn + i else i - (ports - turn)
  }

  // The network after the first i ports were served.
  ghost function Serve(c: Config, n: Net, i: nat): (r: Net)
    requires Shape(c, n) && i <= |n.ports|
    ensures Shape(c, r) && r.turn == n.turn
  {
    if i == 0 then n else Forward(c, Serve(c, n, i - 1), Served(n.turn, |n.ports|, i - 1))
  }

  ghost predicate Progressed(n: Net, n': Net)
    requires |n.ends| == |n'.ends|
  {
    exists e :: 0 <= e < |n.ends| && |n'.ends[e].buf| < |n.ends[e].buf|
  }

  // Handling the connection's tick event.
  ghost function Tick(c: Config, n: Net): (r: Net)
    requires Shape(c, n) && |n.ports| > 0
    ensures Shape(c, r)
  {
    var s := Serve(c, n, |n.ports|);
    var t := s.(turn := if n.turn + 1 == |n.ports| then 0 else n.turn + 1);
    if Progressed(n, s) then ConnTickLater(c, t) else t
  }

  lemma ServeStarts(c: Config, n: Net)
    requires Shape(c, n)
    ensures Serve(c, n, 0) == n && !ProgressBefore(c, n, 0)
  {
  }

  lemma ServeUnfolds(c: Config, n: Net, i: nat)
    requires Shape(c, n) && i < |n.ports|
    ensures Serve(c, n, i + 1) == Forward(c, Serve(c, n, i), Served(n.turn, |n.ports|, i))
  {
  }

  // Whether serving the port in the i-th place of a tick forwards a message.
  ghost predicate ProgressAt(c: Config, n: Net, i: nat)
    requires Shape(c, n) && i < |n.ports|
  {
    var e := Served(n.turn, |n.ports|, i);
    |Serve(c, n, i + 1).ends[e].buf| < |Serve(c, n, i).ends[e].buf|
  }

  ghost predicate ProgressBefore(c: Config, n: Net, i: nat)
    requires Shape(c, n) && i <= |n.ports|
  {
    i > 0 && (ProgressAt(c, n, i - 1) || ProgressBefore(c, n, i - 1))
  }

  lemma {:induction false} ServeKeepsTime(c: Config, n: Net, i: nat)
    requires Shape(c, n) && i <= |n.ports|
    ensures Serve(c, n, i).now == n.now
  {
    if i > 0 {
      ServeKeepsTime(c, n, i - 1);
      ForwardShrinks(c, Serve(c, n, i - 1), Served(n.turn, |n.ports|, i - 1));
    }
  }

  ghost predicate Shrunk(n: Net, r: Net)
    requires |n.ends| == |r.ends|
  {
    forall x :: 0 <= x < |n.ends| ==> |r.ends[x].buf| <= |n.ends[x].buf|
  }

  // Some port made progress exactly when some end's buffer is shorter than it was.
  ghost predicate ProgressShrinks(c: Config, n: Net, i: nat)
    requires Shape(c, n) && i <= |n.ports|
  {
    Shrunk(n, Serve(c, n, i)) && ProgressBefore(c, n, i) == Progressed(n, Serve(c, n, i))
  }

  lemma ProgressStep(c: Config, n: Net, i: nat)
    requires Shape(c, n) && i < |n.ports| && ProgressShrinks(c, n, i)
    ensures ProgressShrinks(c, n, i + 1)
  {
    var e := Served(n.turn, |n.ports|, i);
    var r := Serve(c, n, i);
    ServeUnfolds(c, n, i);
    ForwardShrinks(c, r, e);
    ProgressAdds(n, r, Forward(c, r, e), e);
  }

  lemma {:induction false} ProgressIsShrinking(c: Config, n: Net, i: nat)
    requires Shape(c, n) && i < |n.ports|
    ensures ProgressShrinks(c, n, i + 1)
  {
    ServeStarts(c, n);
    if i > 0 {
      ProgressIsShrinking(c, n, i - 1);
    }
    ProgressStep(c, n, i);
  }

  // A tick in the connection's own terms: serve all, pass the turn, tick again on progress.
  lemma TickUnfolds(c: Config, n: Net)
    requires Shape(c, n) && |n.ports| > 0
    ensures var s := Serve(c, n, |n.ports|);
            var t := s.(turn := if n.turn + 1 == |n.ports| then 0 else n.turn + 1);
            Tick(c, n) == if ProgressBefore(c, n, |n.ports|) then ConnTickLater(c, t) else t
  {
    var last := |n.ports| - 1;
    ProgressIsShrinking(c, n, last);
    assert ProgressShrinks(c, n, last + 1);
  }

  // Forwarding one more end makes progress on the whole if it does on that end.
  lemma ProgressAdds(n: Net, r: Net, r': Net, e: nat)
    requires |n.ends| == |r.ends| == |r'.ends| && e < |n.ends| && Shrunk(n, r) && Shrunk(r, r')
    requires forall x :: 0 <= x < |r.ends| && x != e ==> r'.ends[x] == r.ends[x]
    ensures Shrunk(n, r') && Progressed(n, r') == (|r'.ends[e].buf| < |r.ends[e].buf| || Progressed(n, r))
  {
    if Progressed(n, r) {
      var x :| 0 <= x < |n.ends| && |r.ends[x].buf| < |n.ends[x].buf|;
      assert |r'.ends[x].buf| < |n.ends[x].buf|;
    }
  }
}

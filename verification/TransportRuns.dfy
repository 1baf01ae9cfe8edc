// Whole simulation runs over the transport. The engine picks events as the serial engine
// does; components act in the handlers of their events, at the engine's time; the connection
// ticks in secondary events. Every action of every component may be refused, at any time.
module TransportRuns {
  import opened Freq
  import opened Transport
  import opened TransportTick

  // What the engine is doing: picking the next event, or running the handler of a primary or
  // of another secondary event than the connection's tick.
  datatype Mode = Picking | InPrimary | InSecondary

  // A BufferedSender in front of a port. A port without one has a sender of capacity 0.
  datatype Sender = Sender(buf: seq<Msg>, cap: nat)

  // The network, the senders, and the history of each port: the messages its component
  // handed over and the ones it took, in order; and the times at which the connection ticked.
  datatype Sys = Sys(
    net: Net,
    mode: Mode,
    senders: seq<Sender>,
    handed: seq<seq<Msg>>,
    taken: seq<seq<Msg>>,
    ticked: set<Time>)

  datatype Action =
    | StartPrimary(ev: Event)
    | StartSecondary(ev: Event)
    | EndHandler
    | SendDirect(m: Msg)
    | AskCanSend(p: nat)
    | Take(p: nat)
    | Push(p: nat, m: Msg)
    | SenderTick(p: nat)
    | Schedule(ev: Event, secondary: bool)
    | TickAt(id: nat, t: Time)
    | RunConn(ev: Event)

  // No queued event comes before this one; a primary event wins a tie.
  ghost predicate FirstPrimary(n: Net, ev: Event) {
    && ev in n.primary
    && (forall p :: p in n.primary ==> ev.time <= p.time)
    && (forall q :: q in n.secondary ==> ev.time <= q.time)
  }

  ghost predicate FirstSecondary(n: Net, ev: Event) {
    && ev in n.secondary
    && (forall p :: p in n.primary ==> ev.time < p.time)
    && (forall q :: q in n.secondary ==> ev.time <= q.time)
  }

  ghost predicate Sized(c: Config, s: Sys) {
    && Shape(c, s.net) && |s.senders| == |s.handed| == |s.taken| == |c.owner|
    && forall p :: 0 <= p < |s.senders| ==> Routed(s.senders[p].buf, p, |s.senders|)
  }

  // When an action may happen. Ports are used by the handlers of components only; events are
  // scheduled, and ticks asked for, by any handler and from outside, for now or later.
  ghost predicate Enabled(c: Config, s: Sys, a: Action)
    requires Sized(c, s)
  {
    var n := s.net;
    var ports := |n.ports|;
    var handling := s.mode != Picking;
    match a
    case StartPrimary(ev) => !handling && FirstPrimary(n, ev)
    case StartSecondary(ev) => !handling && ev.who != Conn && FirstSecondary(n, ev)
    case EndHandler => handling
    case SendDirect(m) => handling && Routed([m], m.src, ports) && s.senders[m.src].cap == 0
    case AskCanSend(p) => handling && p < ports
    case Take(p) => handling && p < ports
    case Push(p, m) => handling && p < ports && Routed([m], p, ports) && |s.senders[p].buf| < s.senders[p].cap
    case SenderTick(p) => handling && p < ports
    case Schedule(ev, _) => ev.who != Conn && n.now <= ev.time
    case TickAt(id, t) => id < |n.compNext| && n.now <= t
    case RunConn(ev) => !handling && ports > 0 && ev.who == Conn && FirstSecondary(n, ev)
  }

  ghost predicate Accepted(n: Net, m: Msg)
    requires m.src < |n.ends|
  {
    !n.ends[m.src].Full()
  }

  ghost function Apply(c: Config, s: Sys, a: Action): Sys
    requires Sized(c, s) && Enabled(c, s, a)
  {
    var n := s.net;
    match a
    case StartPrimary(ev) => s.(net := n.(now := ev.time, primary := n.primary - multiset{ev}), mode := InPrimary)
    case StartSecondary(ev) =>
      s.(net := n.(now := ev.time, secondary := n.secondary - multiset{ev}), mode := InSecondary)
    case EndHandler => s.(mode := Picking)
    case SendDirect(m) =>
      var r := s.(net := Send(n, m));
      if Accepted(n, m) then r.(handed := s.handed[m.src := s.handed[m.src] + [m]]) else r
    case AskCanSend(p) => s.(net := CanSend(n, p))
    case Take(p) =>
      var r := s.(net := Retrieve(n, p));
      if n.ports[p].buf == [] then r else r.(taken := s.taken[p := s.taken[p] + [n.ports[p].buf[0]]])
    case Push(p, m) =>
      s.(senders := s.senders[p := s.senders[p].(buf := s.senders[p].buf + [m])],
         handed := s.handed[p := s.handed[p] + [m]])
    case SenderTick(p) =>
      var q := s.senders[p].buf;
      if q == [] then s
      else if !Accepted(n, q[0]) then s.(net := Send(n, q[0]))
      else s.(net := Send(n, q[0]), senders := s.senders[p := s.senders[p].(buf := q[1..])])
    case Schedule(ev, secondary) =>
      if secondary then s.(net := n.(secondary := n.secondary + multiset{ev}))
      else s.(net := n.(primary := n.primary + multiset{ev}))
    case TickAt(id, t) => s.(net := CompTickAt(n, id, t))
    case RunConn(ev) =>
      s.(net := Tick(c, n.(now := ev.time, secondary := n.secondary - multiset{ev})), ticked := s.ticked + {ev.time})
  }

  // Everything is empty, and only components have events queued.
  ghost predicate Init(c: Config, s: Sys) {
    && Sized(c, s) && s.mode == Picking && s.ticked == {}
    && (forall e :: 0 <= e < |s.net.ends| ==> s.net.ends[e].buf == [] && !s.net.ends[e].busy)
    && (forall p :: 0 <= p < |s.net.ports| ==>
          s.net.ports[p].buf == [] && !s.net.ports[p].busy &&
          s.senders[p].buf == [] && s.handed[p] == [] && s.taken[p] == [])
    && s.net.connNext < s.net.now && CompScheduled(s.net)
    && (forall ev :: ev in s.net.primary || ev in s.net.secondary ==> ev.who != Conn && s.net.now <= ev.time)
  }

  // A run: each state follows from the one before by an enabled action.
  ghost predicate Run(c: Config, run: seq<Sys>, actions: seq<Action>) {
    && |run| == |actions| + 1 && Init(c, run[0])
    && forall i :: 0 <= i < |actions| ==>
         Sized(c, run[i]) && Enabled(c, run[i], actions[i]) && run[i + 1] == Apply(c, run[i], actions[i])
  }

  // ---------- the invariant ----------

  ghost predicate Pending(n: Net) {
    exists t :: Event(t, Conn) in n.secondary
  }

  ghost predicate NothingInThePast(n: Net) {
    && (forall ev :: ev in n.primary ==> n.now <= ev.time)
    && (forall ev :: ev in n.secondary ==> n.now <= ev.time)
  }

  // The connection's scheduler remembers a time from now on only if that tick is queued, or is
  // the one for now and was handled. No time is ever ticked twice.
  ghost predicate ConnScheduled(s: Sys) {
    var n := s.net;
    && (forall ev :: ev in n.primary ==> ev.who != Conn)
    && (forall t :: Event(t, Conn) in n.secondary ==>
          t <= n.connNext && n.secondary[Event(t, Conn)] == 1 && t !in s.ticked)
    && (forall t :: t in s.ticked ==> t <= n.connNext && t <= n.now)
    && (n.connNext > n.now ==> Event(n.connNext, Conn) in n.secondary)
    && (n.connNext == n.now ==> Event(n.now, Conn) in n.secondary || n.now in s.ticked)
  }

  ghost predicate SendersOk(s: Sys) {
    forall p :: 0 <= p < |s.senders| ==> |s.senders[p].buf| <= s.senders[p].cap
  }

  // From a port to another, what was handed over is what was taken, followed by what the
  // receiver, the connection and the sender still hold, in this order.
  ghost predicate Conserved(c: Config, s: Sys)
    requires Sized(c, s)
  {
    forall a, b :: 0 <= a < |c.owner| && 0 <= b < |c.owner| ==> InOrder(c, s, a, b)
  }

  ghost predicate InOrder(c: Config, s: Sys, a: nat, b: nat)
    requires Sized(c, s) && a < |c.owner| && b < |c.owner|
  {
    Flow(s.handed[a], a, b) == Flow(s.taken[b], a, b) + UnderWay(s.net, a, b) + Flow(s.senders[a].buf, a, b)
  }

  ghost predicate Inv(c: Config, s: Sys) {
    && Sized(c, s) && Bounded(s.net) && CompScheduled(s.net)
    && NothingInThePast(s.net) && ConnScheduled(s) && SendersOk(s) && Conserved(c, s)
  }

  lemma InitInv(c: Config, s: Sys)
    requires Init(c, s)
    ensures Inv(c, s)
  {
    forall a, b | 0 <= a < |c.owner| && 0 <= b < |c.owner|
      ensures InOrder(c, s, a, b)
    {
      assert s.handed[a] == s.taken[b] == [];
    }
  }

  // ---------- preservation, one kind of action at a time ----------

  // An action that only moves events and the time keeps what is said about the buffers.
  lemma SamePlaces(c: Config, s: Sys, r: Sys)
    requires Inv(c, s)
    requires r.net.ends == s.net.ends && r.net.ports == s.net.ports && r.net.turn == s.net.turn
    requires |r.net.compNext| == |s.net.compNext|
    requires r.senders == s.senders && r.handed == s.handed && r.taken == s.taken
    ensures Sized(c, r) && Bounded(r.net) && SendersOk(r) && Conserved(c, r)
  {
    assert Sized(c, r);
    forall x, y | 0 <= x < |c.owner| && 0 <= y < |c.owner|
      ensures InOrder(c, r, x, y)
    {
      assert InOrder(c, s, x, y);
    }
  }

  lemma StartPrimaryStep(c: Config, s: Sys, ev: Event)
    requires Inv(c, s) && Enabled(c, s, StartPrimary(ev))
    ensures Inv(c, Apply(c, s, StartPrimary(ev)))
  {
    var r := Apply(c, s, StartPrimary(ev));
    SamePlaces(c, s, r);
    forall id | 0 <= id < |r.net.compNext| && r.net.compNext[id] > r.net.now
      ensures Event(r.net.compNext[id], Comp(id)) in r.net.primary
    {
      assert Event(s.net.compNext[id], Comp(id)) in s.net.primary;
    }
  }

  lemma EndHandlerStep(c: Config, s: Sys)
    requires Inv(c, s) && Enabled(c, s, EndHandler)
    ensures Inv(c, Apply(c, s, EndHandler))
  {
    SamePlaces(c, s, Apply(c, s, EndHandler));
  }

  lemma ScheduleStep(c: Config, s: Sys, ev: Event, secondary: bool)
    requires Inv(c, s) && Enabled(c, s, Schedule(ev, secondary))
    ensures Inv(c, Apply(c, s, Schedule(ev, secondary)))
  {
    SamePlaces(c, s, Apply(c, s, Schedule(ev, secondary)));
  }

  lemma TickAtStep(c: Config, s: Sys, id: nat, t: Time)
    requires Inv(c, s) && Enabled(c, s, TickAt(id, t))
    ensures Inv(c, Apply(c, s, TickAt(id, t)))
  {
    SamePlaces(c, s, Apply(c, s, TickAt(id, t)));
  }

  lemma StartSecondaryStep(c: Config, s: Sys, ev: Event)
    requires Inv(c, s) && Enabled(c, s, StartSecondary(ev))
    ensures Inv(c, Apply(c, s, StartSecondary(ev)))
  {
    var r := Apply(c, s, StartSecondary(ev));
    SamePlaces(c, s, r);
    forall id | 0 <= id < |r.net.compNext| && r.net.compNext[id] > r.net.now
      ensures Event(r.net.compNext[id], Comp(id)) in r.net.primary
    {
      assert Event(s.net.compNext[id], Comp(id)) in s.net.primary;
    }
  }

  // Asking for a tick now keeps the connection's scheduler in order, and a tick is queued
  // then, unless the one for now was handled already.
  lemma TickNowPends(s: Sys)
    requires ConnScheduled(s) && NothingInThePast(s.net)
    ensures var r := s.(net := ConnTickNow(s.net, s.net.now));
            && ConnScheduled(r) && NothingInThePast(r.net)
            && (Pending(r.net) <==> s.net.now !in s.ticked || Pending(s.net))
  {
    var n := s.net;
    if n.connNext >= n.now {
      assert n.now !in s.ticked ==> Event(n.connNext, Conn) in n.secondary;
    } else {
      assert Event(n.now, Conn) in ConnTickNow(n, n.now).secondary;
    }
  }

  // The parts of the invariant about events do not look at the buffers.
  lemma SameEvents(s: Sys, r: Sys)
    requires r.net == s.net.(ends := r.net.ends, ports := r.net.ports)
    requires r.ticked == s.ticked
    ensures ConnScheduled(s) ==> ConnScheduled(r)
    ensures CompScheduled(s.net) ==> CompScheduled(r.net)
    ensures NothingInThePast(s.net) ==> NothingInThePast(r.net)
  {
  }

  lemma AskCanSendStep(c: Config, s: Sys, p: nat)
    requires Inv(c, s) && Enabled(c, s, AskCanSend(p))
    ensures Inv(c, Apply(c, s, AskCanSend(p)))
  {
    var r := Apply(c, s, AskCanSend(p));
    BusyStep(c, s, r, p);
  }

  // Refusing to send marks the end busy, and that is all.
  lemma BusyStep(c: Config, s: Sys, r: Sys, p: nat)
    requires Inv(c, s) && p < |s.net.ends|
    requires r == s || (s.net.ends[p].Full() &&
               r == s.(net := s.net.(ends := s.net.ends[p := s.net.ends[p].(busy := true)])))
    ensures Inv(c, r)
  {
    SameEvents(s, r);
    forall e | 0 <= e < |r.net.ends|
      ensures r.net.ends[e].buf == s.net.ends[e].buf
    {
    }
    forall x, y | 0 <= x < |c.owner| && 0 <= y < |c.owner|
      ensures InOrder(c, r, x, y)
    {
      assert InOrder(c, s, x, y);
    }
  }

  // Buffering a message in the connection.
  lemma SendNet(c: Config, s: Sys, m: Msg)
    requires Inv(c, s) && Routed([m], m.src, |s.net.ports|) && Accepted(s.net, m)
    ensures var r := s.(net := Send(s.net, m));
            && Sized(c, r) && Bounded(r.net) && CompScheduled(r.net) && NothingInThePast(r.net)
            && ConnScheduled(r) && r.net.ports == s.net.ports
            && r.net.ends == s.net.ends[m.src := s.net.ends[m.src].(buf := s.net.ends[m.src].buf + [m])]
  {
    var e := s.net.ends[m.src];
    assert m in [m];
    var q := s.(net := s.net.(ends := s.net.ends[m.src := e.(buf := e.buf + [m])]));
    SameEvents(s, q);
    TickNowPends(q);
  }

  lemma NoFlow(a: nat, b: nat)
    ensures Flow([], a, b) == []
  {
  }

  // Handing a message over and buffering it in the connection keeps the order.
  lemma SendInOrder(c: Config, s: Sys, r: Sys, m: Msg, x: nat, y: nat)
    requires Sized(c, s) && Sized(c, r) && x < |c.owner| && y < |c.owner| && InOrder(c, s, x, y)
    requires m.src < |c.owner| && s.senders[m.src].buf == []
    requires r.handed == s.handed[m.src := s.handed[m.src] + [m]]
    requires r.net.ends[x].buf == if x == m.src then s.net.ends[x].buf + [m] else s.net.ends[x].buf
    requires r.taken == s.taken && r.senders == s.senders && r.net.ports == s.net.ports
    ensures InOrder(c, r, x, y)
  {
    hide Routed, Flow, UnderWay, InOrder, Advances;
    InOrderFlat(c, s, x, y);
    InOrderFlat(c, r, x, y);
    if x == m.src {
      NoFlow(x, y);
      FlowConcat(s.handed[x], [m], x, y);
      FlowConcat(s.net.ends[x].buf, [m], x, y);
    }
  }

  lemma SendDirectStep(c: Config, s: Sys, m: Msg)
    requires Inv(c, s) && Enabled(c, s, SendDirect(m))
    ensures Inv(c, Apply(c, s, SendDirect(m)))
  {
    assert m in [m];
    if Accepted(s.net, m) {
      SendNet(c, s, m);
      forall x, y | 0 <= x < |c.owner| && 0 <= y < |c.owner|
        ensures InOrder(c, Apply(c, s, SendDirect(m)), x, y)
      {
        SendInOrder(c, s, Apply(c, s, SendDirect(m)), m, x, y);
      }
    } else {
      BusyStep(c, s, Apply(c, s, SendDirect(m)), m.src);
    }
  }

  lemma PushInOrder(c: Config, s: Sys, p: nat, m: Msg, x: nat, y: nat)
    requires Sized(c, s) && Enabled(c, s, Push(p, m)) && Sized(c, Apply(c, s, Push(p, m)))
    requires x < |c.owner| && y < |c.owner| && InOrder(c, s, x, y)
    ensures InOrder(c, Apply(c, s, Push(p, m)), x, y)
  {
    hide Flow, Routed;
    FlowConcat(s.handed[x], [m], x, y);
    FlowConcat(s.senders[x].buf, [m], x, y);
  }

  lemma PushStep(c: Config, s: Sys, p: nat, m: Msg)
    requires Inv(c, s) && Enabled(c, s, Push(p, m))
    ensures Inv(c, Apply(c, s, Push(p, m)))
  {
    hide Bounded, CompScheduled, NothingInThePast, Flow;
    var r := Apply(c, s, Push(p, m));
    SameEvents(s, r);
    forall x, y | 0 <= x < |c.owner| && 0 <= y < |c.owner|
      ensures InOrder(c, r, x, y)
    {
      assert InOrder(c, s, x, y);
      PushInOrder(c, s, p, m, x, y);
    }
  }

  lemma SenderTickStep(c: Config, s: Sys, p: nat)
    requires Inv(c, s) && Enabled(c, s, SenderTick(p))
    ensures Inv(c, Apply(c, s, SenderTick(p)))
  {
    var q := s.senders[p].buf;
    if q != [] {
      assert q[0] in q;
      if Accepted(s.net, q[0]) {
        SendNet(c, s, q[0]);
        forall x, y | 0 <= x < |c.owner| && 0 <= y < |c.owner|
          ensures InOrder(c, Apply(c, s, SenderTick(p)), x, y)
        {
          SenderTickInOrder(c, s, p, x, y);
        }
      } else {
        BusyStep(c, s, Apply(c, s, SenderTick(p)), p);
      }
    }
  }

  lemma MoveLeft(a: seq<Msg>, b: seq<Msg>, h: seq<Msg>, t: seq<Msg>)
    ensures a + b + (h + t) == a + (b + h) + t
  {
  }

  lemma TakeLeft(a: seq<Msg>, h: seq<Msg>, t: seq<Msg>)
    ensures a + (h + t) == a + h + t
  {
  }

  // The four places of InOrder, bracketed to the left.
  lemma InOrderFlat(c: Config, s: Sys, a: nat, b: nat)
    requires Sized(c, s) && a < |c.owner| && b < |c.owner|
    ensures InOrder(c, s, a, b) <==>
            Flow(s.handed[a], a, b) ==
            Flow(s.taken[b], a, b) + Flow(s.net.ports[b].buf, a, b) + Flow(s.net.ends[a].buf, a, b) +
            Flow(s.senders[a].buf, a, b)
  {
    assert Flow(s.taken[b], a, b) + UnderWay(s.net, a, b) ==
           Flow(s.taken[b], a, b) + Flow(s.net.ports[b].buf, a, b) + Flow(s.net.ends[a].buf, a, b);
  }

  // Moving a message from the sender to the end of the connection's buffer keeps the order.
  lemma SenderTickInOrder(c: Config, s: Sys, p: nat, x: nat, y: nat)
    requires Sized(c, s) && Enabled(c, s, SenderTick(p))
    requires s.senders[p].buf != [] && Accepted(s.net, s.senders[p].buf[0])
    requires Sized(c, Apply(c, s, SenderTick(p)))
    requires x < |c.owner| && y < |c.owner| && InOrder(c, s, x, y)
    ensures InOrder(c, Apply(c, s, SenderTick(p)), x, y)
  {
    var q := s.senders[p].buf;
    if x == p {
      assert q[0] in q;
      assert q == [q[0]] + q[1..];
      FlowConcat(s.net.ends[x].buf, [q[0]], x, y);
      FlowConcat([q[0]], q[1..], x, y);
      MoveLeft(Flow(s.taken[y], x, y) + Flow(s.net.ports[y].buf, x, y), Flow(s.net.ends[x].buf, x, y),
               Flow([q[0]], x, y), Flow(q[1..], x, y));
      InOrderFlat(c, s, x, y);
      InOrderFlat(c, Apply(c, s, SenderTick(p)), x, y);
    }
  }

  // Taking the head of a port's buffer, and calling back the connection if it waits.
  lemma TakeNet(c: Config, s: Sys, p: nat)
    requires Inv(c, s) && p < |s.net.ports| && s.net.ports[p].buf != []
    ensures var r := s.(net := Retrieve(s.net, p));
            && Sized(c, r) && Bounded(r.net) && CompScheduled(r.net) && NothingInThePast(r.net)
            && ConnScheduled(r)
  {
    var q := s.net.ports[p];
    var m := s.(net := s.net.(ports := s.net.ports[p := q.(buf := q.buf[1..], busy := false)]));
    SameEvents(s, m);
    if q.busy {
      TickNowPends(m);
    }
  }

  lemma TakeStep(c: Config, s: Sys, p: nat)
    requires Inv(c, s) && Enabled(c, s, Take(p))
    ensures Inv(c, Apply(c, s, Take(p)))
  {
    if s.net.ports[p].buf != [] {
      var r := Apply(c, s, Take(p));
      TakeNet(c, s, p);
      TakePlaces(c, s, p);
      forall x, y | 0 <= x < |c.owner| && 0 <= y < |c.owner|
        ensures InOrder(c, r, x, y)
      {
        TakeInOrder(c, s, r, p, x, y);
      }
    }
  }

  // Moving the head of a port's buffer to what was taken keeps the order.
  lemma TakeInOrder(c: Config, s: Sys, r: Sys, p: nat, x: nat, y: nat)
    requires Sized(c, s) && Sized(c, r) && x < |c.owner| && y < |c.owner| && InOrder(c, s, x, y)
    requires p < |c.owner| && s.net.ports[p].buf != []
    requires r.net.ends == s.net.ends && r.senders == s.senders && r.handed == s.handed
    requires r.net.ports[y].buf == if y == p then s.net.ports[p].buf[1..] else s.net.ports[y].buf
    requires r.taken[y] == if y == p then s.taken[p] + [s.net.ports[p].buf[0]] else s.taken[y]
    ensures InOrder(c, r, x, y)
  {
    if y == p {
      var q := s.net.ports[p].buf;
      assert q == [q[0]] + q[1..];
      FlowConcat(s.taken[y], [q[0]], x, y);
      FlowConcat([q[0]], q[1..], x, y);
      TakeLeft(Flow(s.taken[y], x, y), Flow([q[0]], x, y), Flow(q[1..], x, y));
      InOrderFlat(c, s, x, y);
      InOrderFlat(c, r, x, y);
    }
  }

  lemma TakePlaces(c: Config, s: Sys, p: nat)
    requires Sized(c, s) && Enabled(c, s, Take(p)) && s.net.ports[p].buf != []
    ensures var q, r := s.net.ports[p].buf, Apply(c, s, Take(p));
            && r.net.ends == s.net.ends && r.senders == s.senders && r.handed == s.handed
            && |r.net.ports| == |s.net.ports| && |r.taken| == |s.taken|
            && (forall y :: 0 <= y < |r.net.ports| ==>
                  r.net.ports[y].buf == if y == p then q[1..] else s.net.ports[y].buf)
            && (forall y :: 0 <= y < |r.taken| ==> r.taken[y] == if y == p then s.taken[p] + [q[0]] else s.taken[y])
  {
  }

  // The network in which the connection handles a tick event.
  ghost function AtTick(n: Net, ev: Event): Net {
    n.(now := ev.time, secondary := n.secondary - multiset{ev})
  }

  lemma AtTickOk(c: Config, s: Sys, ev: Event)
    requires Inv(c, s) && Enabled(c, s, RunConn(ev))
    ensures var n := AtTick(s.net, ev); Shape(c, n) && CompScheduled(n) && Bounded(n)
    ensures ev.time !in s.ticked
  {
    var n := AtTick(s.net, ev);
    forall id | 0 <= id < |n.compNext| && n.compNext[id] > n.now
      ensures Event(n.compNext[id], Comp(id)) in n.primary
    {
      assert Event(s.net.compNext[id], Comp(id)) in s.net.primary;
    }
    assert ev == Event(ev.time, Conn);
  }

  lemma RunConnEvents(c: Config, s: Sys, ev: Event)
    requires Inv(c, s) && Enabled(c, s, RunConn(ev))
    ensures var r := Apply(c, s, RunConn(ev)); CompScheduled(r.net) && NothingInThePast(r.net) && ConnScheduled(r)
  {
    AtTickOk(c, s, ev);
    var n, r := AtTick(s.net, ev), Apply(c, s, RunConn(ev));
    ServeBlocks(c, n);
    var v := Serve(c, n, |n.ports|);
    TickTail(c, s, ev, v, r);
  }

  // Handling the tick event, with the ports served, leaves the connection's scheduler in order.
  lemma TickHandled(s: Sys, ev: Event, v: Net)
    requires ConnScheduled(s) && NothingInThePast(s.net)
    requires ev.who == Conn && FirstSecondary(s.net, ev)
    requires v.now == ev.time && v.secondary == s.net.secondary - multiset{ev} && v.connNext == s.net.connNext
    requires forall p :: p in v.primary ==> p.who != Conn && v.now < p.time
    ensures var r := s.(net := v, ticked := s.ticked + {ev.time}); NothingInThePast(v) && ConnScheduled(r)
  {
    assert ev == Event(ev.time, Conn);
  }

  // Asking for a later tick keeps it so.
  lemma LaterTick(c: Config, s: Sys)
    requires c.Valid() && ConnScheduled(s) && NothingInThePast(s.net)
    ensures var r := s.(net := ConnTickLater(c, s.net)); NothingInThePast(r.net) && ConnScheduled(r)
  {
    assert s.net.now < c.connClock(s.net.now);
  }

  // After serving all ports, the connection may ask for one later tick.
  lemma TickTail(c: Config, s: Sys, ev: Event, v: Net, r: Sys)
    requires c.Valid() && ConnScheduled(s) && NothingInThePast(s.net) && CompScheduled(v)
    requires ev.who == Conn && FirstSecondary(s.net, ev)
    requires v.now == ev.time && v.secondary == s.net.secondary - multiset{ev} && v.connNext == s.net.connNext
    requires forall p :: p in v.primary ==> p.who != Conn && v.now < p.time
    requires r == s.(net := r.net, ticked := s.ticked + {ev.time})
    requires r.net == v.(turn := r.net.turn) || r.net == ConnTickLater(c, v.(turn := r.net.turn))
    ensures CompScheduled(r.net) && NothingInThePast(r.net) && ConnScheduled(r)
  {
    hide ConnScheduled, NothingInThePast, FirstSecondary;
    var t := v.(turn := r.net.turn);
    TickHandled(s, ev, t);
    if r.net != t {
      LaterTick(c, s.(net := t, ticked := s.ticked + {ev.time}));
    }
  }

  lemma RunConnPlaces(c: Config, s: Sys, ev: Event)
    requires Inv(c, s) && Enabled(c, s, RunConn(ev))
    ensures var r := Apply(c, s, RunConn(ev));
            && Sized(c, r) && Bounded(r.net) && SendersOk(r) && Conserved(c, r)
            && forall e :: 0 <= e < |r.net.ends| ==> Blocked(r.net, e)
  {
    AtTickOk(c, s, ev);
    var n, r := AtTick(s.net, ev), Apply(c, s, RunConn(ev));
    ServeBlocks(c, n);
    var v := Serve(c, n, |n.ports|);
    assert r.net.ends == v.ends && r.net.ports == v.ports;
    forall e | 0 <= e < |r.net.ends|
      ensures Blocked(r.net, e)
    {
      assert Blocked(v, e);
    }
    forall x, y | 0 <= x < |c.owner| && 0 <= y < |c.owner|
      ensures InOrder(c, r, x, y)
    {
      assert InOrder(c, s, x, y);
      assert UnderWay(v, x, y) == UnderWay(n, x, y);
    }
  }

  lemma RunConnStep(c: Config, s: Sys, ev: Event)
    requires Inv(c, s) && Enabled(c, s, RunConn(ev))
    ensures Inv(c, Apply(c, s, RunConn(ev)))
  {
    RunConnEvents(c, s, ev);
    RunConnPlaces(c, s, ev);
  }

  lemma StepInv(c: Config, s: Sys, a: Action)
    requires Inv(c, s) && Enabled(c, s, a)
    ensures Inv(c, Apply(c, s, a))
  {
    match a
    case StartPrimary(ev) => StartPrimaryStep(c, s, ev);
    case StartSecondary(ev) => StartSecondaryStep(c, s, ev);
    case EndHandler => EndHandlerStep(c, s);
    case SendDirect(m) => SendDirectStep(c, s, m);
    case AskCanSend(p) => AskCanSendStep(c, s, p);
    case Take(p) => TakeStep(c, s, p);
    case Push(p, m) => PushStep(c, s, p, m);
    case SenderTick(p) => SenderTickStep(c, s, p);
    case Schedule(ev, secondary) => ScheduleStep(c, s, ev, secondary);
    case TickAt(id, t) => TickAtStep(c, s, id, t);
    case RunConn(ev) => RunConnStep(c, s, ev);
  }

  lemma {:induction false} RunInv(c: Config, run: seq<Sys>, actions: seq<Action>, i: nat)
    requires Run(c, run, actions) && i < |run|
    ensures Inv(c, run[i])
  {
    if i == 0 {
      InitInv(c, run[0]);
    } else {
      RunInv(c, run, actions, i - 1);
      StepInv(c, run[i - 1], actions[i - 1]);
    }
  }

  // ---------- what holds of every run ----------

  // The messages taken from one port by another are, in order, the first ones handed over.
  lemma TakenInOrder(c: Config, run: seq<Sys>, actions: seq<Action>, i: nat, a: nat, b: nat)
    requires Run(c, run, actions) && i < |run| && a < |c.owner| && b < |c.owner|
    requires |run[i].handed| == |run[i].taken| == |c.owner|
    ensures Flow(run[i].taken[b], a, b) <= Flow(run[i].handed[a], a, b)
  {
    RunInv(c, run, actions, i);
    assert InOrder(c, run[i], a, b);
    InOrderFlat(c, run[i], a, b);
  }

  // No buffer ever holds more than its capacity.
  lemma CapacitiesHold(c: Config, run: seq<Sys>, actions: seq<Action>, i: nat, p: nat)
    requires Run(c, run, actions) && i < |run|
    ensures p < |run[i].net.ports| ==> |run[i].net.ports[p].buf| <= run[i].net.ports[p].cap
    ensures p < |run[i].net.ends| ==> |run[i].net.ends[p].buf| <= run[i].net.ends[p].cap
    ensures p < |run[i].senders| ==> |run[i].senders[p].buf| <= run[i].senders[p].cap
  {
    RunInv(c, run, actions, i);
  }

  // The connection never ticks twice at one time, and time never runs backwards.
  lemma TicksAreFresh(c: Config, run: seq<Sys>, actions: seq<Action>, i: nat)
    requires Run(c, run, actions) && i < |actions|
    ensures run[i].net.now <= run[i + 1].net.now
    ensures actions[i].RunConn? ==> actions[i].ev.time !in run[i].ticked && actions[i].ev.time in run[i + 1].ticked
  {
    RunInv(c, run, actions, i);
    if actions[i].RunConn? {
      TickIsFresh(c, run[i], actions[i].ev);
    }
  }

  lemma TickIsFresh(c: Config, s: Sys, ev: Event)
    requires Inv(c, s) && Enabled(c, s, RunConn(ev))
    ensures var r := Apply(c, s, RunConn(ev)); r.net.now == ev.time && ev.time !in s.ticked && ev.time in r.ticked
  {
    AtTickOk(c, s, ev);
    ServeBlocks(c, AtTick(s.net, ev));
  }

  // Only the connection's tick puts messages into ports, and it wakes their owners.
  ghost predicate WokenAt(c: Config, s: Sys, r: Sys, p: nat)
    requires Sized(c, s) && Sized(c, r) && p < |c.owner|
  {
    && (|r.net.ports[p].buf| > |s.net.ports[p].buf| ==> Woken(c, s.net.(now := r.net.now), r.net, c.owner[p]))
    && (s.net.ends[p].busy && !r.net.ends[p].busy ==> Woken(c, s.net.(now := r.net.now), r.net, c.owner[p]))
  }

  lemma TickWakes(c: Config, s: Sys, ev: Event, p: nat)
    requires Inv(c, s) && Enabled(c, s, RunConn(ev)) && p < |c.owner|
    ensures Sized(c, Apply(c, s, RunConn(ev))) && WokenAt(c, s, Apply(c, s, RunConn(ev)), p)
    ensures var r := Apply(c, s, RunConn(ev));
            && |r.net.ends[p].buf| <= |s.net.ends[p].buf|
            && (|r.net.ends[p].buf| == |s.net.ends[p].buf| ==> r.net.ends[p] == s.net.ends[p])
            && (|r.net.ends[p].buf| < |s.net.ends[p].buf| ==> !r.net.ends[p].busy)
  {
    hide Conserved, ConnScheduled, NothingInThePast, SendersOk, UnderWay, FirstSecondary;
    var n, r := AtTick(s.net, ev), Apply(c, s, RunConn(ev));
    AtTickOk(c, s, ev);
    ServeBlocks(c, n);
    var v := Serve(c, n, |n.ports|);
    assert v.primary == r.net.primary && v.now == r.net.now && v.compNext == r.net.compNext;
    assert PortGrew(c, n, v, p) && EndShrank(c, n, v, p);
  }

  lemma OthersDoNotDeliver(c: Config, s: Sys, a: Action, p: nat)
    requires Inv(c, s) && Enabled(c, s, a) && !a.RunConn? && p < |c.owner| && Sized(c, Apply(c, s, a))
    ensures var r := Apply(c, s, a);
            |r.net.ports[p].buf| <= |s.net.ports[p].buf| && (s.net.ends[p].busy ==> r.net.ends[p].busy)
  {
    hide Bounded, CompScheduled, NothingInThePast, ConnScheduled, SendersOk, Conserved, FirstPrimary, FirstSecondary;
  }

  // Whenever a port gets a message its owner has a tick queued for later, and so has the
  // owner of an end that stops refusing.
  lemma ComponentsAreWoken(c: Config, run: seq<Sys>, actions: seq<Action>, i: nat, p: nat)
    requires Run(c, run, actions) && i < |actions| && p < |c.owner|
    ensures Sized(c, run[i]) && Sized(c, run[i + 1]) && WokenAt(c, run[i], run[i + 1], p)
  {
    RunInv(c, run, actions, i);
    RunInv(c, run, actions, i + 1);
    if actions[i].RunConn? {
      TickWakes(c, run[i], actions[i].ev, p);
    } else {
      OthersDoNotDeliver(c, run[i], actions[i], p);
    }
  }
}

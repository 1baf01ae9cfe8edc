// Who hears from the connection, and in which order, over whole runs: refused senders, the
// connection itself, and the ports around the turn (akita/sim/directconnection.go, port.go).
module TransportTurns {
  import opened Freq
  import opened MixedRadix
  import opened Transport
  import opened TransportTick
  import opened TransportRuns

  // ---------- refused senders ----------

  // The owner of port p asks for room, or tries to send, while its end is full.
  ghost predicate Refuses(c: Config, s: Sys, a: Action, p: nat)
    requires Sized(c, s) && Enabled(c, s, a) && p < |s.net.ends|
  {
    s.net.ends[p].Full() &&
    match a
    case AskCanSend(q) => q == p
    case SendDirect(m) => m.src == p
    case SenderTick(q) => q == p && s.senders[q].buf != []
    case _ => false
  }

  // The end of port p gets no shorter from state j to state i.
  ghost predicate NoShorter(run: seq<Sys>, j: nat, i: nat, p: nat) {
    j <= i < |run| &&
    (forall k :: j <= k <= i ==> p < |run[k].net.ends|) &&
    forall k :: j <= k < i ==> Longer(run, k, p)
  }

  ghost predicate Longer(run: seq<Sys>, k: nat, p: nat) {
    k + 1 < |run| && p < |run[k].net.ends| && p < |run[k + 1].net.ends| &&
    |run[k].net.ends[p].buf| <= |run[k + 1].net.ends[p].buf|
  }

  lemma RefusalIsSeen(c: Config, s: Sys, a: Action, p: nat)
    requires Inv(c, s) && Enabled(c, s, a) && p < |s.net.ends| && Refuses(c, s, a, p)
    ensures Sized(c, Apply(c, s, a)) && Apply(c, s, a).net.ends[p].busy
  {
    hide Bounded, CompScheduled, NothingInThePast, ConnScheduled, SendersOk, Conserved;
    StepInv(c, s, a);
    if a.SenderTick? {
      assert s.senders[p].buf[0] in s.senders[p].buf;
    }
  }

  lemma BusyStays(c: Config, s: Sys, a: Action, p: nat)
    requires Inv(c, s) && Enabled(c, s, a) && p < |c.owner| && s.net.ends[p].busy
    ensures Sized(c, Apply(c, s, a))
    ensures |s.net.ends[p].buf| <= |Apply(c, s, a).net.ends[p].buf| ==> Apply(c, s, a).net.ends[p].busy
  {
    hide Bounded, CompScheduled, NothingInThePast, ConnScheduled, SendersOk, Conserved, Apply, Enabled;
    StepInv(c, s, a);
    if a.RunConn? {
      TickWakes(c, s, a.ev, p);
    } else {
      OthersDoNotDeliver(c, s, a, p);
    }
  }

  lemma {:induction false} StillBusy(c: Config, run: seq<Sys>, actions: seq<Action>, j: nat, i: nat, p: nat)
    requires Run(c, run, actions) && j < i < |run| && p < |c.owner|
    requires p < |run[j].net.ends| && Refuses(c, run[j], actions[j], p) && NoShorter(run, j + 1, i, p)
    ensures p < |run[i].net.ends| && run[i].net.ends[p].busy
    decreases i
  {
    hide Inv, Apply, Enabled, Refuses;
    if i == j + 1 {
      RunInv(c, run, actions, j);
      RefusalIsSeen(c, run[j], actions[j], p);
    } else {
      assert NoShorter(run, j + 1, i - 1, p);
      StillBusy(c, run, actions, j, i - 1, p);
      RunInv(c, run, actions, i - 1);
      BusyStays(c, run[i - 1], actions[i - 1], p);
      assert Longer(run, i - 1, p);
    }
  }

  // A sender that was refused is woken as soon as its end gets shorter, which only a tick of
  // the connection does: a tick is queued for the next tick of its clock, or for a later time
  // that it had asked for already.
  lemma RefusedAreWoken(c: Config, run: seq<Sys>, actions: seq<Action>, j: nat, i: nat, p: nat)
    requires Run(c, run, actions) && j < i < |actions| && p < |c.owner|
    requires p < |run[j].net.ends| && Refuses(c, run[j], actions[j], p) && NoShorter(run, j + 1, i, p)
    requires p < |run[i + 1].net.ends| && |run[i + 1].net.ends[p].buf| < |run[i].net.ends[p].buf|
    ensures actions[i].RunConn?
    ensures Woken(c, run[i].net.(now := run[i + 1].net.now), run[i + 1].net, c.owner[p])
  {
    hide Inv, Apply, Enabled, Refuses, NoShorter, Woken;
    StillBusy(c, run, actions, j, i, p);
    RunInv(c, run, actions, i);
    if actions[i].RunConn? {
      TickWakes(c, run[i], actions[i].ev, p);
    } else {
      OnlyTicksShorten(c, run[i], actions[i], p);
      assert false;
    }
  }

  lemma OnlyTicksShorten(c: Config, s: Sys, a: Action, p: nat)
    requires Inv(c, s) && Enabled(c, s, a) && !a.RunConn? && p < |c.owner|
    ensures Sized(c, Apply(c, s, a)) && |s.net.ends[p].buf| <= |Apply(c, s, a).net.ends[p].buf|
  {
    hide Bounded, CompScheduled, NothingInThePast, ConnScheduled, SendersOk, Conserved, FirstPrimary, FirstSecondary;
    StepInv(c, s, a);
  }

  // ---------- the connection ticks again ----------

  // After a tick that made some end shorter the connection has another tick queued, for the
  // next tick of its clock or for a later time that it had asked for; after any other tick it
  // has none but those that were queued before.
  lemma TicksAgain(c: Config, run: seq<Sys>, actions: seq<Action>, i: nat)
    requires Run(c, run, actions) && i < |actions| && actions[i].RunConn?
    requires |run[i].net.ends| == |run[i + 1].net.ends|
    ensures var n, r, t := run[i].net, run[i + 1].net, actions[i].ev.time;
            var next := Later(n.connNext, c.connClock(t));
            if exists e :: 0 <= e < |n.ends| && |r.ends[e].buf| < |n.ends[e].buf|
            then r.connNext == next && Event(next, Conn) in r.secondary
            else r.connNext == n.connNext && r.secondary == n.secondary - multiset{actions[i].ev}
  {
    hide Inv, Enabled, FirstSecondary;
    RunInv(c, run, actions, i);
    RunInv(c, run, actions, i + 1);
    TickAgain(c, run[i], actions[i].ev);
  }

  lemma TickAgain(c: Config, s: Sys, ev: Event)
    requires Inv(c, s) && Enabled(c, s, RunConn(ev)) && Inv(c, Apply(c, s, RunConn(ev)))
    ensures var n, r := s.net, Apply(c, s, RunConn(ev)).net;
            var next := Later(n.connNext, c.connClock(ev.time));
            && |r.ends| == |n.ends|
            && if exists e :: 0 <= e < |n.ends| && |r.ends[e].buf| < |n.ends[e].buf|
               then r.connNext == next && Event(next, Conn) in r.secondary
               else r.connNext == n.connNext && r.secondary == n.secondary - multiset{ev}
  {
    hide Conserved, SendersOk, CompScheduled, UnderWay, Bounded, NothingInThePast, FirstSecondary, Serve;
    hide AskedNext, Woken, PortGrew, EndShrank, Blocked;
    var n := AtTick(s.net, ev);
    AtTickOk(c, s, ev);
    ServeBlocks(c, n);
    var v := Serve(c, n, |n.ports|);
    assert n.now < c.connClock(n.now);
  }

  // ---------- the turn ----------

  // How many ticks of the connection there are among the actions from i up to j.
  ghost function Ticks(actions: seq<Action>, i: nat, j: nat): nat
    requires i <= j <= |actions|
    decreases j
  {
    if i == j then 0 else Ticks(actions, i, j - 1) + if actions[j - 1].RunConn? then 1 else 0
  }

  // How many of them begin with port p.
  ghost function TicksFrom(run: seq<Sys>, actions: seq<Action>, i: nat, j: nat, p: nat): nat
    requires i <= j <= |actions| < |run|
    decreases j
  {
    if i == j then 0
    else TicksFrom(run, actions, i, j - 1, p) + if actions[j - 1].RunConn? && run[j - 1].net.turn == p then 1 else 0
  }

  lemma TurnStep(c: Config, s: Sys, a: Action)
    requires Inv(c, s) && Enabled(c, s, a)
    ensures var n, r := s.net, Apply(c, s, a).net;
            && |r.ports| == |n.ports|
            && (a.RunConn? ==> n.turn < |n.ports| && r.turn == FromTurn(n.turn, |n.ports|, 1))
            && (!a.RunConn? ==> r.turn == n.turn)
  {
    hide Bounded, CompScheduled, NothingInThePast, ConnScheduled, SendersOk, Conserved, Serve, FromTurn;
    hide Forward, Recv, Release, Progressed;
    if a.RunConn? {
      TickTurn(c, AtTick(s.net, a.ev));
    }
  }

  lemma TickTurn(c: Config, n: Net)
    requires Shape(c, n) && |n.ports| > 0
    ensures |Tick(c, n).ports| == |n.ports| && Tick(c, n).turn == FromTurn(n.turn, |n.ports|, 1)
  {
    hide FromTurn, Serve;
    OneOn(n.turn, |n.ports|);
  }

  lemma OneOn(t: nat, ports: nat)
    requires t < ports
    ensures FromTurn(t, ports, 1) == if t + 1 == ports then 0 else t + 1
  {
    DivMod(if t + 1 == ports then 1 else 0, if t + 1 == ports then 0 else t + 1, ports);
  }

  lemma NextTurn(t: nat, ports: nat, k: nat)
    requires t < ports
    ensures FromTurn(FromTurn(t, ports, k), ports, 1) == FromTurn(t, ports, k + 1)
  {
    OneOn(FromTurn(t, ports, k), ports);
    RemainderOn(t + k, ports);
  }

  lemma RemainderOn(x: nat, d: nat)
    requires d > 0
    ensures (x + 1) % d == if x % d + 1 == d then 0 else x % d + 1
  {
    var q, r := x / d, x % d;
    assert x == q * d + r;
    if r + 1 == d {
      assert (q + 1) * d == q * d + d;
      DivMod(q + 1, 0, d);
    } else {
      DivMod(q, r + 1, d);
    }
  }

  // The turn goes around by one port with each tick of the connection.
  lemma {:induction false} TurnGoesAround(c: Config, run: seq<Sys>, actions: seq<Action>, i: nat, j: nat)
    requires Run(c, run, actions) && i <= j <= |actions| && |run[i].net.ports| > 0
    ensures |run[j].net.ports| == |run[i].net.ports| && run[i].net.turn < |run[i].net.ports|
    ensures run[j].net.turn == FromTurn(run[i].net.turn, |run[i].net.ports|, Ticks(actions, i, j))
    decreases j
  {
    hide Apply, Enabled, FromTurn, Inv, Init;
    RunInv(c, run, actions, i);
    TurnInRange(c, run[i]);
    var t, ports := run[i].net.turn, |run[i].net.ports|;
    if i == j {
      Same(t, ports);
    } else {
      TurnGoesAround(c, run, actions, i, j - 1);
      RunInv(c, run, actions, j - 1);
      TurnStep(c, run[j - 1], actions[j - 1]);
      NextTurn(t, ports, Ticks(actions, i, j - 1));
    }
  }

  lemma TurnInRange(c: Config, s: Sys)
    requires Inv(c, s)
    ensures |s.net.ports| > 0 ==> s.net.turn < |s.net.ports|
  {
  }

  lemma Same(t: nat, ports: nat)
    requires t < ports
    ensures FromTurn(t, ports, 0) == t
  {
  }

  // How far port p is from the turn.
  function Distance(t: nat, ports: nat, p: nat): (d: nat)
    requires t < ports && p < ports
    ensures d < ports
  {
    if p >= t then p - t else p + ports - t
  }

  lemma AtDistance(t: nat, ports: nat, p: nat, k: nat)
    requires t < ports && p < ports && k < ports
    ensures FromTurn(t, ports, k) == p <==> k == Distance(t, ports, p)
  {
    ServedFrom(t, ports, k);
  }

  lemma {:induction false} FirstSoFar(c: Config, run: seq<Sys>, actions: seq<Action>, i: nat, j: nat, p: nat)
    requires Run(c, run, actions) && i <= j <= |actions|
    requires p < |run[i].net.ports| && run[i].net.turn < |run[i].net.ports|
    requires Ticks(actions, i, j) <= |run[i].net.ports|
    ensures TicksFrom(run, actions, i, j, p) ==
            if Distance(run[i].net.turn, |run[i].net.ports|, p) < Ticks(actions, i, j) then 1 else 0
    decreases j
  {
    hide Apply, Enabled, FromTurn, Distance;
    if i < j {
      FirstSoFar(c, run, actions, i, j - 1, p);
      if actions[j - 1].RunConn? {
        TurnGoesAround(c, run, actions, i, j - 1);
        AtDistance(run[i].net.turn, |run[i].net.ports|, p, Ticks(actions, i, j - 1));
      }
    }
  }

  // Of as many ticks in a row as there are ports, each port is the first one in one.
  lemma FirstOnceInARound(c: Config, run: seq<Sys>, actions: seq<Action>, i: nat, j: nat, p: nat)
    requires Run(c, run, actions) && i <= j <= |actions| && p < |run[i].net.ports|
    requires Ticks(actions, i, j) == |run[i].net.ports|
    ensures TicksFrom(run, actions, i, j, p) == 1
  {
    hide Apply, Enabled;
    TurnGoesAround(c, run, actions, i, i);
    FirstSoFar(c, run, actions, i, j, p);
  }

  // When port p is the first one in a tick and the message at the head of its end is for a port
  // with room, that message moves, whoever else sends there.
  lemma TurnMoves(c: Config, run: seq<Sys>, actions: seq<Action>, i: nat, p: nat, d: nat)
    requires Run(c, run, actions) && i < |actions| && actions[i].RunConn? && run[i].net.turn == p
    requires p < |run[i].net.ends| && d < |run[i].net.ports| && d < |run[i + 1].net.ports|
    requires run[i].net.ends[p].buf != [] && run[i].net.ends[p].buf[0].dst == d && !run[i].net.ports[d].Full()
    ensures run[i].net.ports[d].buf + [run[i].net.ends[p].buf[0]] <= run[i + 1].net.ports[d].buf
  {
    hide Conserved, SendersOk, ConnScheduled, NothingInThePast, FirstSecondary, Tick, Bounded, CompScheduled;
    RunInv(c, run, actions, i);
    var n := AtTick(run[i].net, actions[i].ev);
    AtTickOk(c, run[i], actions[i].ev);
    Same(n.turn, |n.ports|);
    FirstFromTheTurn(c, n, 0, d);
  }

  // ---------- nobody else is called ----------

  // From n to r no port of the component got a message, and no end of it that had refused one
  // got shorter.
  ghost predicate Untouched(c: Config, n: Net, r: Net, id: nat)
    requires |n.ends| == |r.ends| == |n.ports| == |r.ports| == |c.owner|
  {
    forall p :: 0 <= p < |c.owner| && c.owner[p] == id ==> PlaceUntouched(n, r, p)
  }

  ghost predicate PlaceUntouched(n: Net, r: Net, p: nat)
    requires p < |n.ends| == |r.ends| == |n.ports| == |r.ports|
  {
    && |r.ports[p].buf| <= |n.ports[p].buf|
    && (n.ends[p].busy ==> |n.ends[p].buf| <= |r.ends[p].buf|)
  }

  // The component is not called: its scheduler and its events are as before.
  ghost predicate NotCalled(n: Net, r: Net, id: nat) {
    && id < |n.compNext| == |r.compNext| && r.compNext[id] == n.compNext[id]
    && forall t :: r.primary[Event(t, Comp(id))] == n.primary[Event(t, Comp(id))]
  }

  lemma DeliverCalls(c: Config, n: Net, e: nat, id: nat)
    requires Shape(c, n) && e < |n.ends| && n.ends[e].buf != [] && !HeadFull(n, e) && id < |n.compNext|
    ensures Untouched(c, n, Deliver(c, n, e), id) ==> NotCalled(n, Deliver(c, n, e), id)
  {
    hide Routed, Advances;
    DeliverPlaces(c, n, e);
    var r := Deliver(c, n, e);
    HeadRouted(c, n, e);
    var d := n.ends[e].buf[0].dst;
    if Untouched(c, n, r, id) {
      assert !PlaceUntouched(n, r, d);
      assert n.ends[e].busy ==> !PlaceUntouched(n, r, e);
    }
  }

  lemma HeadRouted(c: Config, n: Net, e: nat)
    requires Shape(c, n) && e < |n.ends| && n.ends[e].buf != []
    ensures n.ends[e].buf[0].dst < |n.ports|
  {
    assert n.ends[e].buf[0] in n.ends[e].buf;
  }

  lemma UntouchedParts(c: Config, a: Net, b: Net, d: Net, id: nat)
    requires Shape(c, a) && Shape(c, b) && Shape(c, d) && Delivered(c, a, b) && Delivered(c, b, d)
    requires Untouched(c, a, d, id)
    ensures Untouched(c, a, b, id) && Untouched(c, b, d, id)
  {
    hide Woken, AskedNext, UnderWay, Shape;
    SizesOf(c, a);
    SizesOf(c, b);
    SizesOf(c, d);
    forall p | 0 <= p < |c.owner| && c.owner[p] == id ensures PlaceUntouched(a, b, p) && PlaceUntouched(b, d, p) {
      assert PlaceUntouched(a, d, p);
      assert PortGrew(c, a, b, p) && PortGrew(c, b, d, p) && EndShrank(c, a, b, p) && EndShrank(c, b, d, p);
    }
  }

  lemma {:induction false} ForwardCalls(c: Config, n: Net, e: nat, id: nat)
    requires Shape(c, n) && CompScheduled(n) && Bounded(n) && e < |n.ends| && id < |n.compNext|
    requires Untouched(c, n, Forward(c, n, e), id)
    ensures NotCalled(n, Forward(c, n, e), id)
    decreases |n.ends[e].buf|
  {
    hide Bounded, CompScheduled, Delivered, Untouched, Recv, Deliver;
    if n.ends[e].buf == [] {
    } else if HeadFull(n, e) {
      RefusedCalls(c, n, n.ends[e].buf[0], id);
    } else {
      var m := Deliver(c, n, e);
      DeliverFacts(c, n, e);
      ForwardFacts(c, m, e);
      UntouchedParts(c, n, m, Forward(c, m, e), id);
      DeliverCalls(c, n, e, id);
      ForwardCalls(c, m, e, id);
    }
  }

  lemma RefusedCalls(c: Config, n: Net, m: Msg, id: nat)
    requires Shape(c, n) && m.dst < |n.ports| && n.ports[m.dst].Full() && id < |n.compNext|
    ensures NotCalled(n, Recv(c, n, m), id)
  {
  }

  lemma {:induction false} ServeCalls(c: Config, n: Net, i: nat, id: nat)
    requires Shape(c, n) && CompScheduled(n) && Bounded(n) && i <= |n.ports| && 0 < |n.ports| && id < |n.compNext|
    requires Untouched(c, n, Serve(c, n, i), id)
    ensures NotCalled(n, Serve(c, n, i), id)
  {
    hide Bounded, CompScheduled, Delivered, Untouched, Forward, Served, ServedBlocked, Shape;
    if i > 0 {
      ServeNone(c, n);
      if i > 1 {
        ServeFacts(c, n, i - 2);
      }
      var r := Serve(c, n, i - 1);
      assert ServesOk(c, n, i - 1);
      SizesOf(c, r);
      SizesOf(c, n);
      var e := Served(n.turn, |n.ports|, i - 1);
      ForwardFacts(c, r, e);
      UntouchedParts(c, n, r, Forward(c, r, e), id);
      ServeCalls(c, n, i - 1, id);
      ForwardCalls(c, r, e, id);
    }
  }

  // A tick of the connection calls no component but those that it has something to tell: a
  // port of theirs got a message, or an end of theirs that had refused one has room again.
  lemma OnlyTheTouchedAreCalled(c: Config, run: seq<Sys>, actions: seq<Action>, i: nat, id: nat)
    requires Run(c, run, actions) && i < |actions| && actions[i].RunConn? && id < |c.clocks|
    ensures var n, r := run[i].net, run[i + 1].net;
            && |n.ends| == |r.ends| == |n.ports| == |r.ports| == |c.owner|
            && (Untouched(c, n, r, id) ==> NotCalled(n, r, id))
  {
    hide Inv, FirstSecondary, NotCalled, Untouched, Serve, Bounded, CompScheduled;
    RunInv(c, run, actions, i);
    RunInv(c, run, actions, i + 1);
    var s, ev := run[i], actions[i].ev;
    InvSized(c, s);
    InvSized(c, run[i + 1]);
    AtTickOk(c, s, ev);
    var n := AtTick(s.net, ev);
    TickPlaces(c, n);
    var v := Serve(c, n, |n.ports|);
    if Untouched(c, s.net, run[i + 1].net, id) {
      SamePlaced(c, s.net, run[i + 1].net, n, v, id);
      ServeCalls(c, n, |n.ports|, id);
      SameCalled(n, v, s.net, run[i + 1].net, id);
    }
  }

  lemma InvSized(c: Config, s: Sys)
    requires Inv(c, s)
    ensures Shape(c, s.net) && |s.net.ends| == |s.net.ports| == |c.owner| && |s.net.compNext| == |c.clocks|
  {
    hide Bounded, CompScheduled, NothingInThePast, ConnScheduled, SendersOk, Conserved;
  }

  lemma SamePlaced(c: Config, n: Net, r: Net, n': Net, r': Net, id: nat)
    requires |n.ends| == |r.ends| == |n.ports| == |r.ports| == |c.owner|
    requires n'.ends == n.ends && n'.ports == n.ports && r'.ends == r.ends && r'.ports == r.ports
    ensures Untouched(c, n, r, id) ==> Untouched(c, n', r', id)
  {
  }

  lemma SameCalled(n: Net, r: Net, n': Net, r': Net, id: nat)
    requires NotCalled(n, r, id)
    requires n'.compNext == n.compNext && r'.compNext == r.compNext
    requires n'.primary == n.primary && r'.primary == r.primary
    ensures NotCalled(n', r', id)
  {
  }

  // The actions with which a component uses its ports and its sender.
  predicate UsesPort(a: Action) {
    a.SendDirect? || a.AskCanSend? || a.Take? || a.Push? || a.SenderTick?
  }

  // A component that uses its ports has the connection tick now exactly if an end got a message
  // or a port that had refused one has room again, unless the connection asked for a tick now or
  // later already; and it calls no component.
  lemma AsksIff(c: Config, run: seq<Sys>, actions: seq<Action>, i: nat)
    requires Run(c, run, actions) && i < |actions| && UsesPort(actions[i])
    ensures var n, r := run[i].net, run[i + 1].net;
            && |n.ends| == |r.ends| && |n.ports| == |r.ports|
            && r.now == n.now && r.primary == n.primary && r.compNext == n.compNext
            && if n.connNext < n.now && Asks(n, r)
               then r.connNext == n.now && r.secondary == n.secondary + multiset{Event(n.now, Conn)}
               else r.connNext == n.connNext && r.secondary == n.secondary
  {
    hide Inv;
    RunInv(c, run, actions, i);
    InvSized(c, run[i]);
    AsksStep(c, run[i], actions[i]);
  }

  ghost predicate Asks(n: Net, r: Net)
    requires |n.ends| == |r.ends| && |n.ports| == |r.ports|
  {
    || (exists e :: 0 <= e < |n.ends| && |n.ends[e].buf| < |r.ends[e].buf|)
    || (exists p :: 0 <= p < |n.ports| && n.ports[p].busy && |r.ports[p].buf| < |n.ports[p].buf|)
  }

  lemma AsksStep(c: Config, s: Sys, a: Action)
    requires Sized(c, s) && Enabled(c, s, a) && UsesPort(a)
    ensures var n, r := s.net, Apply(c, s, a).net;
            && |n.ends| == |r.ends| && |n.ports| == |r.ports|
            && r.now == n.now && r.primary == n.primary && r.compNext == n.compNext
            && if n.connNext < n.now && Asks(n, r)
               then r.connNext == n.now && r.secondary == n.secondary + multiset{Event(n.now, Conn)}
               else r.connNext == n.connNext && r.secondary == n.secondary
  {
    hide Advances, FirstPrimary, FirstSecondary;
    var n, r := s.net, Apply(c, s, a).net;
    match a
    case SendDirect(m) => assert Accepted(n, m) ==> |n.ends[m.src].buf| < |r.ends[m.src].buf|;
    case SenderTick(p) =>
      if s.senders[p].buf != [] {
        var m := s.senders[p].buf[0];
        assert m in s.senders[p].buf;
        assert Accepted(n, m) ==> |n.ends[m.src].buf| < |r.ends[m.src].buf|;
      }
    case Take(p) => assert n.ports[p].buf != [] ==> |r.ports[p].buf| < |n.ports[p].buf|;
    case _ =>
  }
}

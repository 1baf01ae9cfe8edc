// When the connection sleeps although a message could move: exactly after a request for a tick
// that its scheduler suppresses because the tick for that time was handled already
// (akita/sim/ticker.go, directconnection.go).
module TransportWakeUps {
  import opened Freq
  import opened Transport
  import opened TransportTick
  import opened TransportRuns

  // A tick of the connection is queued, or every message that waits in the connection faces a
  // full port that will call back when it has room.
  ghost predicate Wakeful(n: Net) {
    Pending(n) || forall e :: 0 <= e < |n.ends| ==> Blocked(n, e)
  }

  // ---------- requests that are dropped ----------

  // A message that is sent now could move at once.
  ghost predicate Moves(n: Net, m: Msg)
    requires m.src < |n.ends| && m.dst < |n.ports|
  {
    n.ends[m.src].buf == [] && !Stuck(n.ports[m.dst])
  }

  ghost predicate Faces(n: Net, e: nat, p: nat)
    requires e < |n.ends|
  {
    n.ends[e].buf != [] && n.ends[e].buf[0].dst == p
  }

  // A component asks the connection for a tick now, since a message could move.
  ghost predicate NeedsTick(c: Config, s: Sys, a: Action)
    requires Sized(c, s) && Enabled(c, s, a)
  {
    var n := s.net;
    match a
    case SendDirect(m) => m.dst < |n.ports| && Accepted(n, m) && Moves(n, m)
    case SenderTick(p) =>
      s.senders[p].buf != [] &&
      var m := s.senders[p].buf[0];
      m in s.senders[p].buf && Accepted(n, m) && Moves(n, m)
    case Take(p) => n.ports[p].buf != [] && n.ports[p].busy && exists e :: 0 <= e < |n.ends| && Faces(n, e, p)
    case _ => false
  }

  // The tick for now was handled, no other one is queued, and a message comes to need one.
  ghost predicate Drops(c: Config, s: Sys, a: Action)
    requires Sized(c, s) && Enabled(c, s, a)
  {
    s.net.now in s.ticked && !Pending(s.net) && NeedsTick(c, s, a)
  }

  lemma SendWakes(s: Sys, m: Msg)
    requires ConnScheduled(s) && NothingInThePast(s.net) && Wakeful(s.net)
    requires m.src < |s.net.ends| && m.dst < |s.net.ports| && Accepted(s.net, m)
    ensures Wakeful(Send(s.net, m)) <==> !(s.net.now in s.ticked && !Pending(s.net) && Moves(s.net, m))
  {
    var n := s.net;
    var q := n.(ends := n.ends[m.src := n.ends[m.src].(buf := n.ends[m.src].buf + [m])]);
    TickNowPends(s.(net := q));
    var r := Send(n, m);
    if !Pending(r) {
      forall e | 0 <= e < |n.ends| && e != m.src ensures Blocked(r, e) {
        assert Blocked(n, e);
      }
      assert Blocked(n, m.src);
      assert Blocked(r, m.src) <==> !Moves(n, m);
    }
  }

  lemma TakeWakes(s: Sys, p: nat)
    requires ConnScheduled(s) && NothingInThePast(s.net) && Wakeful(s.net)
    requires p < |s.net.ports| && s.net.ports[p].buf != [] && |s.net.ports[p].buf| <= s.net.ports[p].cap
    ensures Wakeful(Retrieve(s.net, p)) <==>
            !(s.net.now in s.ticked && !Pending(s.net) && s.net.ports[p].busy &&
              exists e :: 0 <= e < |s.net.ends| && Faces(s.net, e, p))
  {
    var n := s.net;
    var q := n.ports[p];
    var m := n.(ports := n.ports[p := q.(buf := q.buf[1..], busy := false)]);
    TickNowPends(s.(net := m));
    var r := Retrieve(n, p);
    if !Pending(n) {
      forall e | 0 <= e < |n.ends| ensures Blocked(r, e) <==> !Faces(n, e, p) {
        assert Blocked(n, e);
      }
      if !q.busy {
        forall e | 0 <= e < |n.ends| ensures !Faces(n, e, p) {
          assert Blocked(n, e);
        }
      }
    }
  }

  // An action that leaves the buffers, the busy flags of ports and the queued ticks of the
  // connection alone.
  lemma StaysWakeful(n: Net, r: Net)
    requires Wakeful(n) && r.ports == n.ports && |r.ends| == |n.ends|
    requires forall e :: 0 <= e < |n.ends| ==> r.ends[e].buf == n.ends[e].buf
    requires forall t :: Event(t, Conn) in n.secondary ==> Event(t, Conn) in r.secondary
    ensures Wakeful(r)
  {
    if !Pending(n) {
      forall e | 0 <= e < |r.ends| ensures Blocked(r, e) {
        assert Blocked(n, e);
      }
    }
  }

  // The connection stays wakeful in a step if and only if the step drops no request.
  lemma StepWakesIff(c: Config, s: Sys, a: Action)
    requires Inv(c, s) && Enabled(c, s, a) && Wakeful(s.net)
    ensures Wakeful(Apply(c, s, a).net) <==> !Drops(c, s, a)
  {
    hide Wakeful, Enabled, Apply, Inv, Drops;
    match a
    case SendDirect(m) => SendDirectWakes(c, s, m);
    case SenderTick(p) => SenderTickWakes(c, s, p);
    case Take(p) => TakeStepWakes(c, s, p);
    case RunConn(ev) => RunConnWakes(c, s, ev);
    case _ => OtherWakes(c, s, a);
  }

  // The actions by which no message moves.
  ghost predicate MovesNothing(a: Action) {
    !a.SendDirect? && !a.SenderTick? && !a.Take? && !a.RunConn?
  }

  lemma KeepsMessages(c: Config, s: Sys, a: Action)
    requires Sized(c, s) && Enabled(c, s, a) && MovesNothing(a)
    ensures var n, r := s.net, Apply(c, s, a).net;
            && r.ports == n.ports && |r.ends| == |n.ends|
            && (forall e :: 0 <= e < |n.ends| ==> r.ends[e].buf == n.ends[e].buf)
            && forall t :: Event(t, Conn) in n.secondary ==> Event(t, Conn) in r.secondary
  {
    hide Routed, Advances;
  }

  lemma OtherWakes(c: Config, s: Sys, a: Action)
    requires Inv(c, s) && Enabled(c, s, a) && Wakeful(s.net) && MovesNothing(a)
    ensures Wakeful(Apply(c, s, a).net) && !Drops(c, s, a)
  {
    hide Wakeful, Enabled, Apply, Sized, Inv;
    InvIsSized(c, s);
    KeepsMessages(c, s, a);
    StaysWakeful(s.net, Apply(c, s, a).net);
  }

  lemma InvIsSized(c: Config, s: Sys)
    requires Inv(c, s)
    ensures Sized(c, s)
  {
  }

  lemma RunConnWakes(c: Config, s: Sys, ev: Event)
    requires Inv(c, s) && Enabled(c, s, RunConn(ev))
    ensures Wakeful(Apply(c, s, RunConn(ev)).net) && !Drops(c, s, RunConn(ev))
  {
    hide Inv, Enabled, Apply;
    RunConnPlaces(c, s, ev);
  }

  lemma SendDirectWakes(c: Config, s: Sys, m: Msg)
    requires Inv(c, s) && Enabled(c, s, SendDirect(m)) && Wakeful(s.net)
    ensures Wakeful(Apply(c, s, SendDirect(m)).net) <==> !Drops(c, s, SendDirect(m))
  {
    hide Wakeful, ConnScheduled, NothingInThePast, Moves, Conserved;
    assert m in [m];
    if Accepted(s.net, m) {
      SendWakes(s, m);
    } else {
      StaysWakeful(s.net, Apply(c, s, SendDirect(m)).net);
    }
  }

  lemma TakeStepWakes(c: Config, s: Sys, p: nat)
    requires Inv(c, s) && Enabled(c, s, Take(p)) && Wakeful(s.net)
    ensures Wakeful(Apply(c, s, Take(p)).net) <==> !Drops(c, s, Take(p))
  {
    hide Wakeful, ConnScheduled, NothingInThePast, Conserved;
    if s.net.ports[p].buf != [] {
      TakeWakes(s, p);
    }
  }

  lemma SenderTickWakes(c: Config, s: Sys, p: nat)
    requires Inv(c, s) && Enabled(c, s, SenderTick(p)) && Wakeful(s.net)
    ensures Wakeful(Apply(c, s, SenderTick(p)).net) <==> !Drops(c, s, SenderTick(p))
  {
    hide Wakeful, ConnScheduled, NothingInThePast, Moves, Conserved;
    if s.senders[p].buf != [] {
      var m := s.senders[p].buf[0];
      assert m in s.senders[p].buf;
      if Accepted(s.net, m) {
        SendWakes(s, m);
      } else {
        StaysWakeful(s.net, Apply(c, s, SenderTick(p)).net);
      }
    }
  }

  lemma {:induction false} RunWakeful(c: Config, run: seq<Sys>, actions: seq<Action>, i: nat)
    requires Run(c, run, actions) && i < |run|
    requires forall j :: 0 <= j < i ==> !Drops(c, run[j], actions[j])
    ensures Wakeful(run[i].net)
  {
    hide Enabled, Apply, Wakeful, Drops, Inv, Sized;
    if i == 0 {
      InitWakeful(c, run[0]);
    } else {
      RunWakeful(c, run, actions, i - 1);
      RunInv(c, run, actions, i - 1);
      StepWakesIff(c, run[i - 1], actions[i - 1]);
    }
  }

  lemma InitWakeful(c: Config, s: Sys)
    requires Init(c, s)
    ensures Wakeful(s.net)
  {
  }

  // In a run the connection is wakeful all the time exactly if no request is dropped.
  lemma WakefulIff(c: Config, run: seq<Sys>, actions: seq<Action>)
    requires Run(c, run, actions)
    ensures (forall i :: 0 <= i < |run| ==> Wakeful(run[i].net)) <==>
            (forall j :: 0 <= j < |actions| ==> !Drops(c, run[j], actions[j]))
  {
    hide Enabled, Apply, Wakeful, Drops, Inv, Sized;
    if forall j :: 0 <= j < |actions| ==> !Drops(c, run[j], actions[j]) {
      forall i | 0 <= i < |run| ensures Wakeful(run[i].net) {
        RunWakeful(c, run, actions, i);
      }
    } else {
      var j :| 0 <= j < |actions| && Drops(c, run[j], actions[j]);
      RunInv(c, run, actions, j);
      if Wakeful(run[j].net) {
        StepWakesIff(c, run[j], actions[j]);
        assert !Wakeful(run[j + 1].net);
      }
    }
  }

  // ---------- runs that drop nothing ----------

  // Components use their ports in primary events only; and once the connection has ticked at a
  // time, nobody but the handler of a primary event schedules a primary event for that time.
  ghost predicate Behaved(s: Sys, a: Action) {
    var n := s.net;
    match a
    case SendDirect(_) => s.mode == InPrimary
    case SenderTick(_) => s.mode == InPrimary
    case Take(_) => s.mode == InPrimary
    case Schedule(ev, secondary) => s.mode == InPrimary || secondary || n.now < ev.time || n.now !in s.ticked
    case TickAt(_, t) => s.mode == InPrimary || n.now < t || n.now !in s.ticked
    case _ => true
  }

  // Once the connection has ticked at a time, no primary event is handled or queued for it.
  ghost predicate Settled(s: Sys) {
    s.net.now in s.ticked ==> s.mode != InPrimary && forall ev :: ev in s.net.primary ==> s.net.now < ev.time
  }

  lemma StepSettled(c: Config, s: Sys, a: Action)
    requires Inv(c, s) && Settled(s) && Enabled(c, s, a) && Behaved(s, a)
    ensures Settled(Apply(c, s, a)) && !Drops(c, s, a)
  {
    hide Inv, Enabled, Apply, Settled, Drops, Behaved;
    match a
    case RunConn(ev) => TickSettled(c, s, ev);
    case StartPrimary(ev) => StartSettled(c, s, ev);
    case SendDirect(m) => UseSettled(c, s, a);
    case Take(p) => UseSettled(c, s, a);
    case SenderTick(p) => UseSettled(c, s, a);
    case _ => OtherSettled(c, s, a);
  }

  lemma StartSettled(c: Config, s: Sys, ev: Event)
    requires Inv(c, s) && Settled(s) && Enabled(c, s, StartPrimary(ev))
    ensures Settled(Apply(c, s, StartPrimary(ev))) && !Drops(c, s, StartPrimary(ev))
  {
    hide Bounded, CompScheduled, Conserved, SendersOk, Sized;
  }

  // What a handler does with a port asks for a secondary event at most.
  lemma UseSettled(c: Config, s: Sys, a: Action)
    requires Inv(c, s) && Settled(s) && Enabled(c, s, a) && Behaved(s, a)
    requires a.SendDirect? || a.Take? || a.SenderTick?
    ensures Settled(Apply(c, s, a)) && !Drops(c, s, a)
  {
    hide Bounded, CompScheduled, Conserved, SendersOk, ConnScheduled, NothingInThePast, NeedsTick, Moves;
  }

  lemma OtherSettled(c: Config, s: Sys, a: Action)
    requires Inv(c, s) && Settled(s) && Enabled(c, s, a) && Behaved(s, a)
    requires !a.RunConn? && !a.StartPrimary? && !a.SendDirect? && !a.Take? && !a.SenderTick?
    ensures Settled(Apply(c, s, a)) && !Drops(c, s, a)
  {
    hide Bounded, CompScheduled, Conserved, SendersOk, Sized;
  }

  lemma TickSettled(c: Config, s: Sys, ev: Event)
    requires Inv(c, s) && Enabled(c, s, RunConn(ev))
    ensures Settled(Apply(c, s, RunConn(ev))) && !Drops(c, s, RunConn(ev))
  {
    hide Bounded, CompScheduled, Conserved, SendersOk, ConnScheduled, NothingInThePast;
    AtTickOk(c, s, ev);
    ServeBlocks(c, AtTick(s.net, ev));
  }

  lemma {:induction false} RunSettled(c: Config, run: seq<Sys>, actions: seq<Action>, i: nat)
    requires Run(c, run, actions) && i < |run|
    requires forall j :: 0 <= j < i ==> Behaved(run[j], actions[j])
    ensures Settled(run[i])
  {
    if i > 0 {
      hide Enabled, Apply, Inv, Sized, Settled, Behaved;
      RunSettled(c, run, actions, i - 1);
      RunInv(c, run, actions, i - 1);
      StepSettled(c, run[i - 1], actions[i - 1]);
    }
  }

  // Behaved runs drop no request.
  lemma BehavedDropsNothing(c: Config, run: seq<Sys>, actions: seq<Action>, j: nat)
    requires Run(c, run, actions) && j < |actions|
    requires forall k :: 0 <= k <= j ==> Behaved(run[k], actions[k])
    ensures !Drops(c, run[j], actions[j])
  {
    hide Enabled, Apply, Inv, Sized, Settled, Behaved, Drops;
    RunSettled(c, run, actions, j);
    RunInv(c, run, actions, j);
    StepSettled(c, run[j], actions[j]);
  }

  // ---------- what holds of every run that drops nothing ----------

  // In every state a tick of the connection is queued, or every message that waits in the
  // connection faces a full port that will call back when it has room.
  lemma WakeUpsAreNeverLost(c: Config, run: seq<Sys>, actions: seq<Action>, i: nat, e: nat)
    requires Run(c, run, actions) && i < |run|
    requires forall j :: 0 <= j < i ==> !Drops(c, run[j], actions[j])
    requires e < |run[i].net.ends| && run[i].net.ends[e].buf != []
    requires forall t :: Event(t, Conn) !in run[i].net.secondary
    ensures var n := run[i].net; var d := n.ends[e].buf[0].dst;
            d < |n.ports| && |n.ports[d].buf| == n.ports[d].cap && n.ports[d].busy
  {
    hide Run, Drops;
    RunWakeful(c, run, actions, i);
    RunInv(c, run, actions, i);
    assert Blocked(run[i].net, e);
  }

  // When the event queues run dry and no port is full, the connection holds nothing, and
  // each message a component handed over is taken or waits in the receiver's buffer or in a
  // sender nobody ticks.
  lemma DryQueuesDeliverAll(c: Config, run: seq<Sys>, actions: seq<Action>, i: nat, a: nat, b: nat)
    requires Run(c, run, actions) && i < |run|
    requires forall j :: 0 <= j < i ==> !Drops(c, run[j], actions[j])
    requires run[i].net.primary == run[i].net.secondary == multiset{}
    requires forall p :: 0 <= p < |run[i].net.ports| ==> !run[i].net.ports[p].Full()
    requires a < |c.owner| && b < |c.owner|
    requires |run[i].senders| == |run[i].handed| == |run[i].taken| == |run[i].net.ports| == |c.owner|
    ensures forall e :: 0 <= e < |run[i].net.ends| ==> run[i].net.ends[e].buf == []
    ensures forall e :: 0 <= e < |run[i].net.ends| && run[i].net.ends[e].busy ==> run[i].net.ends[e].cap == 0
    ensures Flow(run[i].handed[a], a, b) ==
            Flow(run[i].taken[b], a, b) + Flow(run[i].net.ports[b].buf, a, b) + Flow(run[i].senders[a].buf, a, b)
  {
    hide Run, Drops, Flow;
    RunWakeful(c, run, actions, i);
    RunInv(c, run, actions, i);
    forall e | 0 <= e < |run[i].net.ends|
      ensures run[i].net.ends[e].buf == []
    {
      assert Blocked(run[i].net, e);
    }
    InOrderFlat(c, run[i], a, b);
    assert InOrder(c, run[i], a, b);
    NoFlow(a, b);
  }

  // ---------- a run that loses a wake-up ----------

  // Two components with a port each, on clocks of one tick per second.
  ghost function TwoPorts(): Config {
    Config([0, 1], t => t + 1.0, [t => t + 1.0, t => t + 1.0])
  }

  // The first component's end holds `out`, the second one's port `in`.
  ghost function With(now: Time, primary: multiset<Event>, secondary: multiset<Event>, connNext: Time, woken: Time,
                      out: seq<Msg>, arrived: seq<Msg>, turn: nat, mode: Mode, handed: seq<Msg>, ticked: set<Time>)
    : (s: Sys)
    requires (forall m :: m in out ==> m.src == 0 && m.dst == 1) && turn < 2
    ensures Sized(TwoPorts(), s)
  {
    Sys(Net(now, primary, secondary, connNext, [0.0, woken],
            [End(out, 1, false), End([], 1, false)], [Port([], 2, false), Port(arrived, 2, false)], turn),
        mode, [Sender([], 0), Sender([], 0)], [handed, []], [[], []], ticked)
  }

  const FIRST := Msg(0, 0, 1)
  const SECOND := Msg(1, 0, 1)

  const OTHER := multiset{Event(2.0, Comp(1))}
  const TICK := multiset{Event(2.0, Conn)}
  const AGAIN := multiset{Event(2.0, Comp(0))}

  // The first component sends a message at time 1, which arrives. At time 2 the connection
  // ticks in vain. Then the handler of a secondary event at time 2 schedules the first
  // component for time 2 again, which sends a second message.
  ghost function LosingAction(i: nat): Action {
    match i
    case 0 => StartPrimary(Event(1.0, Comp(0)))
    case 1 => SendDirect(FIRST)
    case 2 => EndHandler
    case 3 => RunConn(Event(1.0, Conn))
    case 4 => StartPrimary(Event(2.0, Comp(1)))
    case 5 => EndHandler
    case 6 => RunConn(Event(2.0, Conn))
    case 7 => StartSecondary(Event(2.0, Comp(1)))
    case 8 => Schedule(Event(2.0, Comp(0)), false)
    case 9 => EndHandler
    case 10 => StartPrimary(Event(2.0, Comp(0)))
    case 11 => SendDirect(SECOND)
    case _ => EndHandler
  }

  ghost function LosingState(i: nat): (s: Sys)
    ensures Sized(TwoPorts(), s)
  {
    var none := multiset{};
    match i
    case 0 => With(0.0, multiset{Event(1.0, Comp(0))}, OTHER, -1.0, 0.0, [], [], 0, Picking, [], {})
    case 1 => With(1.0, none, OTHER, -1.0, 0.0, [], [], 0, InPrimary, [], {})
    case 2 => With(1.0, none, OTHER + multiset{Event(1.0, Conn)}, 1.0, 0.0, [FIRST], [], 0, InPrimary, [FIRST], {})
    case 3 => With(1.0, none, OTHER + multiset{Event(1.0, Conn)}, 1.0, 0.0, [FIRST], [], 0, Picking, [FIRST], {})
    case 4 => With(1.0, OTHER, OTHER + TICK, 2.0, 2.0, [], [FIRST], 1, Picking, [FIRST], {1.0})
    case 5 => With(2.0, none, OTHER + TICK, 2.0, 2.0, [], [FIRST], 1, InPrimary, [FIRST], {1.0})
    case 6 => With(2.0, none, OTHER + TICK, 2.0, 2.0, [], [FIRST], 1, Picking, [FIRST], {1.0})
    case 7 => With(2.0, none, OTHER, 2.0, 2.0, [], [FIRST], 0, Picking, [FIRST], {1.0, 2.0})
    case 8 => With(2.0, none, none, 2.0, 2.0, [], [FIRST], 0, InSecondary, [FIRST], {1.0, 2.0})
    case 9 => With(2.0, AGAIN, none, 2.0, 2.0, [], [FIRST], 0, InSecondary, [FIRST], {1.0, 2.0})
    case 10 => With(2.0, AGAIN, none, 2.0, 2.0, [], [FIRST], 0, Picking, [FIRST], {1.0, 2.0})
    case 11 => With(2.0, none, none, 2.0, 2.0, [], [FIRST], 0, InPrimary, [FIRST], {1.0, 2.0})
    case 12 => With(2.0, none, none, 2.0, 2.0, [SECOND], [FIRST], 0, InPrimary, [FIRST, SECOND], {1.0, 2.0})
    case _ => With(2.0, none, none, 2.0, 2.0, [SECOND], [FIRST], 0, Picking, [FIRST, SECOND], {1.0, 2.0})
  }

  ghost predicate Step(i: nat) {
    var c, s, a := TwoPorts(), LosingState(i), LosingAction(i);
    Sized(c, s) && Enabled(c, s, a) && LosingState(i + 1) == Apply(c, s, a)
  }

  lemma SendStep(now: Time, primary: multiset<Event>, secondary: multiset<Event>, connNext: Time, woken: Time,
                 arrived: seq<Msg>, mode: Mode, handed: seq<Msg>, ticked: set<Time>, m: Msg)
    requires mode != Picking && m.src == 0 && m.dst == 1
    ensures var c := TwoPorts();
            var s := With(now, primary, secondary, connNext, woken, [], arrived, 0, mode, handed, ticked);
            var late := connNext >= now;
            && Sized(c, s) && Enabled(c, s, SendDirect(m))
            && Apply(c, s, SendDirect(m)) ==
               With(now, primary, if late then secondary else secondary + multiset{Event(now, Conn)},
                    if late then connNext else now, woken, [m], arrived, 0, mode, handed + [m], ticked)
  {
    var s := With(now, primary, secondary, connNext, woken, [], arrived, 0, mode, handed, ticked);
    var e := s.net.ends[0];
    var e' := e.(buf := e.buf + [m]);
    assert e' == End([m], 1, false);
    assert s.net.ends[0 := e'] == [e', End([], 1, false)];
    assert s.handed[0 := s.handed[0] + [m]] == [handed + [m], []];
    assert Enabled(TwoPorts(), s, SendDirect(m)) by {
      assert forall x :: x in [m] ==> x == m;
    }
    var n := s.net.(ends := [e', End([], 1, false)]);
    assert Send(s.net, m) == ConnTickNow(n, now);
    assert Accepted(s.net, m);
  }

  // A tick with nothing to forward.
  lemma IdleTick(c: Config, n: Net)
    requires Shape(c, n) && |n.ports| == 2 && n.turn == 1 && n.ends[0].buf == [] && n.ends[1].buf == []
    ensures Tick(c, n) == n.(turn := 0)
  {
    hide Shape;
    assert Serve(c, n, 0) == n && Served(n.turn, 2, 0) == 1 && Served(n.turn, 2, 1) == 0;
    assert Serve(c, n, 1) == n;
    assert Serve(c, n, 2) == n;
  }

  // A tick that forwards the one message there is.
  lemma OneDelivery(c: Config, n: Net)
    requires Shape(c, n) && |n.ports| == 2 && n.turn == 0 && |n.ends[0].buf| == 1 && n.ends[1].buf == []
    requires !HeadFull(n, 0)
    ensures Tick(c, n) == ConnTickLater(c, Deliver(c, n, 0).(turn := 1))
  {
    var d := Deliver(c, n, 0);
    hide Shape, Recv, Release;
    assert Forward(c, n, 0) == Forward(c, d, 0) == d;
    DeliverOthers(c, n);
    assert Serve(c, n, 0) == n && Served(n.turn, 2, 0) == 0 && Served(n.turn, 2, 1) == 1;
    assert Serve(c, n, 1) == d;
    assert Serve(c, n, 2) == d;
    assert |d.ends[0].buf| < |n.ends[0].buf|;
  }

  lemma DeliverOthers(c: Config, n: Net)
    requires Shape(c, n) && |n.ports| == 2 && n.ends[0].buf != [] && n.ends[1].buf == []
    ensures var d := Deliver(c, n, 0); |d.ports| == 2 && |d.ends| == 2 && d.ends[1].buf == [] && d.turn == n.turn
  {
  }

  lemma LosingSends()
    ensures Step(1) && Step(11)
  {
    hide Sized, Enabled, Apply;
    SendStep(1.0, multiset{}, OTHER, -1.0, 0.0, [], InPrimary, [], {}, FIRST);
    SendStep(2.0, multiset{}, multiset{}, 2.0, 2.0, [FIRST], InPrimary, [FIRST], {1.0, 2.0}, SECOND);
    assert [] + [FIRST] == [FIRST] && [FIRST] + [SECOND] == [FIRST, SECOND];
  }

  lemma LosingStart0()
    ensures Step(0)
  {
    hide Sized, Send, Retrieve, CanSend, Tick, CompTickAt, Routed;
  }

  lemma LosingEnd2()
    ensures Step(2)
  {
    hide Sized, Send, Retrieve, CanSend, Tick, CompTickAt, Routed;
  }

  lemma LosingStart4()
    ensures Step(4)
  {
    hide Sized, Send, Retrieve, CanSend, Tick, CompTickAt, Routed;
  }

  lemma LosingEnd5()
    ensures Step(5)
  {
    hide Sized, Send, Retrieve, CanSend, Tick, CompTickAt, Routed;
  }

  lemma LosingStart7()
    ensures Step(7)
  {
    hide Sized, Send, Retrieve, CanSend, Tick, CompTickAt, Routed;
  }

  lemma LosingSchedule8()
    ensures Step(8)
  {
    hide Sized, Send, Retrieve, CanSend, Tick, CompTickAt, Routed;
  }

  lemma LosingEnd9()
    ensures Step(9)
  {
    hide Sized, Send, Retrieve, CanSend, Tick, CompTickAt, Routed;
  }

  lemma LosingStart10()
    ensures Step(10)
  {
    hide Sized, Send, Retrieve, CanSend, Tick, CompTickAt, Routed;
  }

  lemma LosingEnd12()
    ensures Step(12)
  {
    hide Sized, Send, Retrieve, CanSend, Tick, CompTickAt, Routed;
  }

  lemma LosingTick()
    ensures Step(3)
  {
    hide Sized, Send, Retrieve, CanSend, Tick, CompTickAt, Routed, Shape, Deliver, HeadFull;
    var c, s := TwoPorts(), LosingState(3);
    var n := AtTick(s.net, Event(1.0, Conn));
    LosingShape(3, Event(1.0, Conn));
    RoomAhead(Event(1.0, Conn));
    OneDelivery(c, n);
    Delivery(n);
    assert n.secondary == OTHER;
  }

  lemma LosingShape(i: nat, ev: Event)
    ensures var n := AtTick(LosingState(i).net, ev); Shape(TwoPorts(), n) && |n.ports| == 2
  {
    hide With;
  }

  lemma RoomAhead(ev: Event)
    ensures !HeadFull(AtTick(LosingState(3).net, ev), 0)
  {
  }

  lemma Delivery(n: Net)
    requires Shape(TwoPorts(), n) && n.now == 1.0 && n.compNext == [0.0, 0.0] && n.primary == multiset{}
    requires n.ends == [End([FIRST], 1, false), End([], 1, false)]
    requires n.ports == [Port([], 2, false), Port([], 2, false)]
    ensures Deliver(TwoPorts(), n, 0) ==
            n.(compNext := [0.0, 2.0], primary := multiset{Event(2.0, Comp(1))},
               ends := [End([], 1, false), End([], 1, false)], ports := [Port([], 2, false), Port([FIRST], 2, false)])
  {
    var q := n.ports[1].(buf := n.ports[1].buf + [FIRST]);
    assert q == Port([FIRST], 2, false);
    assert n.ports[1 := q] == [Port([], 2, false), Port([FIRST], 2, false)];
    assert n.compNext[1 := 2.0] == [0.0, 2.0];
    var r := Recv(TwoPorts(), n, FIRST);
    var e := r.ends[0].(buf := r.ends[0].buf[1..], busy := false);
    assert e == End([], 1, false);
    assert r.ends[0 := e] == [End([], 1, false), End([], 1, false)];
  }

  lemma LosingIdle()
    ensures Step(6)
  {
    hide Sized, Send, Retrieve, CanSend, Tick, CompTickAt, Routed, Shape;
    var c, s := TwoPorts(), LosingState(6);
    var n := AtTick(s.net, Event(2.0, Conn));
    LosingShape(6, Event(2.0, Conn));
    IdleTick(c, n);
    assert n.secondary == OTHER;
  }

  lemma AllSteps(i: nat)
    requires i < 13
    ensures Step(i)
  {
    hide *;
    match i
    case 0 => LosingStart0();
    case 1 => LosingSends();
    case 2 => LosingEnd2();
    case 3 => LosingTick();
    case 4 => LosingStart4();
    case 5 => LosingEnd5();
    case 6 => LosingIdle();
    case 7 => LosingStart7();
    case 8 => LosingSchedule8();
    case 9 => LosingEnd9();
    case 10 => LosingStart10();
    case 11 => LosingSends();
    case 12 => LosingEnd12();
  }

  ghost function LosingRun(): seq<Sys> {
    seq(14, (i: nat) => LosingState(i))
  }

  ghost function LosingActions(): seq<Action> {
    seq(13, (i: nat) => LosingAction(i))
  }

  // The whole run: the only action that is not behaved is that event's scheduling of a primary
  // one for the same time. In the end no event is left and a message waits in the connection
  // although the port that it is for has room.
  lemma WakeUpIsLost()
    ensures Run(TwoPorts(), LosingRun(), LosingActions())
    ensures forall j :: 0 <= j < 13 ==> (Behaved(LosingRun()[j], LosingActions()[j]) <==> j != 8)
    ensures Drops(TwoPorts(), LosingRun()[11], LosingActions()[11])
    ensures var n := LosingRun()[13].net;
            && n.primary == n.secondary == multiset{} && n.ends[0].buf == [SECOND]
            && SECOND.dst == 1 && |n.ports[1].buf| < n.ports[1].cap
  {
    hide *;
    LosingIsRun();
    LosingAt(0);
    forall j | 0 <= j < 13 ensures Behaved(LosingRun()[j], LosingActions()[j]) <==> j != 8 {
      LosingAt(j);
      LosingBehaved(j);
    }
    LosingAt(11);
    LosingDrops();
    LosingAt(13);
    LosingEnd();
  }

  lemma LosingAt(i: nat)
    requires i <= 13
    ensures |LosingRun()| == 14 && LosingRun()[i] == LosingState(i)
    ensures |LosingActions()| == 13 && (i < 13 ==> LosingActions()[i] == LosingAction(i))
  {
    hide LosingState, LosingAction;
  }

  lemma LosingIsRun()
    ensures Run(TwoPorts(), LosingRun(), LosingActions())
  {
    hide With, Sized, Enabled, Apply, Init, TwoPorts, LosingState, LosingAction, LosingRun, LosingActions;
    var c, run, actions := TwoPorts(), LosingRun(), LosingActions();
    LosingAt(0);
    LosingInit();
    forall i | 0 <= i < |actions|
      ensures Sized(c, run[i]) && Enabled(c, run[i], actions[i]) && run[i + 1] == Apply(c, run[i], actions[i])
    {
      AllSteps(i);
      LosingAt(i);
      LosingAt(i + 1);
    }
  }

  lemma LosingEnd()
    ensures var n := LosingState(13).net;
            && n.primary == n.secondary == multiset{} && n.ends[0].buf == [SECOND]
            && SECOND.dst == 1 && |n.ports[1].buf| < n.ports[1].cap
  {
  }

  lemma LosingInit()
    ensures Init(TwoPorts(), LosingState(0))
  {
    hide Sized;
  }

  lemma LosingBehaved(j: nat)
    requires j < 13
    ensures Behaved(LosingState(j), LosingAction(j)) <==> j != 8
  {
  }

  lemma LosingDrops()
    ensures Step(11) && Drops(TwoPorts(), LosingState(11), LosingAction(11))
  {
    AllSteps(11);
    hide Sized, Enabled, Apply;
  }
}

// The objects of the transport, updated in place, and their agreement with its state
// machine: buffers, tick schedulers, ports and the direct connection
// (akita/sim/buffer.go, bufferedsender.go, ticker.go, port.go, directconnection.go).
module Connection {
  import opened Freq
  import opened Transport

  // A bounded first-in first-out queue.
  class Buffer<T> {
    const capacity: nat
    var elements: seq<T>

    constructor (capacity: nat)
      ensures this.capacity == capacity && elements == []
    {
      this.capacity := capacity;
      elements := [];
    }

    predicate CanPush()
      reads this
    {
      |elements| < capacity
    }

    // Pushing onto a full buffer panics.
    method Push(e: T)
      requires CanPush()
      modifies this
      ensures elements == old(elements) + [e]
    {
      elements := elements + [e];
    }

    // Nothing is popped off an empty buffer.
    method Pop() returns (e: seq<T>)
      modifies this
      ensures old(elements) == e + elements && |e| == if old(elements) == [] then 0 else 1
    {
      if |elements| == 0 {
        return [];
      }
      e := [elements[0]];
      elements := elements[1..];
    }

    method Clear()
      modifies this
      ensures elements == []
    {
      elements := [];
    }
  }

  // The part of the engine that its clients see: the time and what is queued.
  class Engine {
    var now: Time
    var primary: multiset<Event>
    var secondary: multiset<Event>

    // Scheduling in the past panics.
    method Schedule(ev: Event, isSecondary: bool)
      requires now <= ev.time
      modifies this`primary, this`secondary
      ensures primary == if isSecondary then old(primary) else old(primary) + multiset{ev}
      ensures secondary == if isSecondary then old(secondary) + multiset{ev} else old(secondary)
    {
      if isSecondary {
        secondary := secondary + multiset{ev};
        return;
      }
      primary := primary + multiset{ev};
    }
  }

  class TickScheduler {
    const handler: Handler
    const clock: Time -> Time
    const engine: Engine
    const secondary: bool
    var nextTickTime: Time

    constructor (handler: Handler, engine: Engine, clock: Time -> Time, secondary: bool)
      ensures nextTickTime == -1.0
      ensures this.handler == handler && this.engine == engine && this.clock == clock && this.secondary == secondary
    {
      this.handler, this.engine, this.clock, this.secondary := handler, engine, clock, secondary;
      nextTickTime := -1.0;
    }

    // What a request for a tick at a given time does.
    twostate predicate Requested(t: Time)
      reads this, engine
    {
      var suppressed := old(nextTickTime) >= t;
      && nextTickTime == (if suppressed then old(nextTickTime) else t)
      && engine.primary == (if suppressed || secondary then old(engine.primary)
                            else old(engine.primary) + multiset{Event(t, handler)})
      && engine.secondary == (if suppressed || !secondary then old(engine.secondary)
                              else old(engine.secondary) + multiset{Event(t, handler)})
    }

    // A tick at a time not later than the latest tick requested is suppressed, so that the
    // times at which one component ticks strictly increase.
    method TickNow(now: Time)
      requires engine.now <= now
      modifies this, engine`primary, engine`secondary
      ensures Requested(now)
    {
      if nextTickTime >= now {
        return;
      }
      nextTickTime := now;
      engine.Schedule(Event(now, handler), secondary);
    }

    method TickLater(now: Time)
      requires engine.now <= now && Advances(clock)
      modifies this, engine`primary, engine`secondary
      ensures Requested(clock(now))
    {
      assert now < clock(now);
      var time := clock(now);
      if nextTickTime >= time {
        return;
      }
      nextTickTime := time;
      engine.Schedule(Event(time, handler), secondary);
    }
  }

  class LimitNumMsgPort {
    const comp: TickScheduler
    // The scheduler of the connection: calling the connection back asks it for a tick.
    const conn: TickScheduler
    const buf: Buffer<Msg>
    var portBusy: bool

    constructor (comp: TickScheduler, conn: TickScheduler, capacity: nat)
      ensures this.comp == comp && this.conn == conn && !portBusy
      ensures fresh(buf) && buf.capacity == capacity && buf.elements == []
    {
      this.comp, this.conn := comp, conn;
      buf := new Buffer<Msg>(capacity);
      portBusy := false;
    }

    ghost function View(): Port
      reads this, buf
    {
      Port(buf.elements, buf.capacity, portBusy)
    }

    // Delivers a message, or remembers that somebody waits for room.
    method Recv(msg: Msg, recvTime: Time) returns (ok: bool)
      requires comp.engine.now <= recvTime && Advances(comp.clock)
      modifies this, buf, comp, comp.engine`primary, comp.engine`secondary
      ensures ok == (old(|buf.elements|) < buf.capacity)
      ensures View() == if ok then old(View()).(buf := old(View()).buf + [msg]) else old(View()).(busy := true)
      ensures !ok ==> unchanged(comp) && unchanged(comp.engine)
      ensures ok ==> comp.Requested(comp.clock(recvTime))
    {
      if !buf.CanPush() {
        portBusy := true;
        return false;
      }
      buf.Push(msg);
      comp.TickLater(recvTime);
      return true;
    }

    // Takes the first message, and calls the connection back if it waits for room.
    method Retrieve(now: Time) returns (msg: seq<Msg>)
      requires conn.engine.now <= now
      modifies this, buf, conn, conn.engine`primary, conn.engine`secondary
      ensures old(View().buf) == msg + View().buf && |msg| == if old(View().buf) == [] then 0 else 1
      ensures View().cap == old(View().cap)
      ensures View().busy == (old(View().busy) && msg == [])
      ensures msg == [] || !old(View().busy) ==> unchanged(conn) && unchanged(conn.engine)
      ensures msg != [] && old(View().busy) ==> conn.Requested(now)
    {
      msg := buf.Pop();
      if msg == [] {
        return;
      }
      if portBusy {
        portBusy := false;
        conn.TickNow(now);
      }
    }

    method Peek() returns (msg: seq<Msg>)
      ensures msg == if View().buf == [] then [] else [View().buf[0]]
    {
      if |buf.elements| == 0 {
        return [];
      }
      return [buf.elements[0]];
    }
  }

  // The buffer the connection keeps for the sending side of a port.
  class ConnectionEnd {
    const port: LimitNumMsgPort
    const bufSize: nat
    var buf: seq<Msg>
    var busy: bool

    constructor (port: LimitNumMsgPort, bufSize: nat)
      ensures this.port == port && this.bufSize == bufSize && buf == [] && !busy
    {
      this.port, this.bufSize := port, bufSize;
      buf, busy := [], false;
    }

    ghost function View(): End
      reads this
    {
      End(buf, bufSize, busy)
    }
  }

  class DirectConnection {
    const engine: Engine
    const ticker: TickScheduler
    const ports: seq<LimitNumMsgPort>
    const ends: seq<ConnectionEnd>
    var nextPortID: nat
    // The schedulers of the components that own the ports, and who owns what.
    ghost const comps: seq<TickScheduler>
    ghost const config: Config

    ghost predicate Valid()
      reads this
    {
      Wired() && (nextPortID == 0 || nextPortID < |ports|)
    }

    // The objects are distinct and refer to each other as they should.
    ghost predicate Wired() {
      && config.Valid() && |ports| == |ends| == |config.owner| && |comps| == |config.clocks|
      && ticker.engine == engine && ticker.secondary && ticker.handler == Conn && ticker.clock == config.connClock
      && (forall i :: 0 <= i < |comps| ==> CompOk(comps[i], i, ticker, config))
      && (forall p :: 0 <= p < |ports| ==>
            ports[p].comp == comps[config.owner[p]] && ports[p].conn == ticker && ends[p].port == ports[p])
      && (forall i, j :: 0 <= i < j < |comps| ==> comps[i] != comps[j])
      && (forall p, q :: 0 <= p < q < |ports| ==>
            ports[p] != ports[q] && ports[p].buf != ports[q].buf && ends[p] != ends[q])
    }

    static ghost predicate CompOk(comp: TickScheduler, i: nat, ticker: TickScheduler, config: Config)
      requires i < |config.clocks|
    {
      && comp.engine == ticker.engine && !comp.secondary && comp.handler == Comp(i)
      && comp.clock == config.clocks[i] && comp != ticker
    }

    // Connects the ports, each of which belongs to one of the components.
    constructor (ticker: TickScheduler, ports: seq<LimitNumMsgPort>, bufSizes: seq<nat>,
                 ghost comps: seq<TickScheduler>, ghost config: Config)
      requires config.Valid() && |ports| == |bufSizes| == |config.owner| && |comps| == |config.clocks|
      requires ticker.secondary && ticker.handler == Conn && ticker.clock == config.connClock
      requires forall i :: 0 <= i < |comps| ==> CompOk(comps[i], i, ticker, config)
      requires forall p :: 0 <= p < |ports| ==> ports[p].comp == comps[config.owner[p]] && ports[p].conn == ticker
      requires forall i, j :: 0 <= i < j < |comps| ==> comps[i] != comps[j]
      requires forall p, q :: 0 <= p < q < |ports| ==> ports[p] != ports[q] && ports[p].buf != ports[q].buf
      ensures Valid() && nextPortID == 0
      ensures this.ticker == ticker && this.ports == ports && this.comps == comps && this.config == config
      ensures forall p :: 0 <= p < |ports| ==> fresh(ends[p]) && ends[p].View() == End([], bufSizes[p], false)
    {
      var plugged: seq<ConnectionEnd> := [];
      while |plugged| < |ports|
        invariant |plugged| <= |ports|
        invariant forall p :: 0 <= p < |plugged| ==>
                    fresh(plugged[p]) && plugged[p].port == ports[p] && plugged[p].View() == End([], bufSizes[p], false)
        invariant forall p, q :: 0 <= p < q < |plugged| ==> plugged[p] != plugged[q]
      {
        var end := new ConnectionEnd(ports[|plugged|], bufSizes[|plugged|]);
        plugged := plugged + [end];
      }
      this.engine, this.ticker, this.ports, this.ends := ticker.engine, ticker, ports, plugged;
      this.comps, this.config := comps, config;
      nextPortID := 0;
    }

    // The objects that make up the network.
    ghost function Objects(): set<object> {
      {this, engine, ticker} + (set c | c in comps) + (set e | e in ends) + (set p | p in ports) +
      (set p | p in ports :: p.buf)
    }

    // Delivering touches only objects of the network, and not the connection itself.
    lemma InObjects(p: nat)
      requires Wired() && p < |ports|
      ensures ends[p].port == ports[p]
      ensures {ends[p], ports[p], ports[p].buf, ports[p].comp, engine} <= Objects() - {this}
    {
    }

    ghost function TickTimes(): seq<Time>
      reads comps
    {
      seq(|comps|, i requires 0 <= i < |comps| reads comps => comps[i].nextTickTime)
    }

    ghost function EndViews(): seq<End>
      reads ends
    {
      seq(|ends|, i requires 0 <= i < |ends| reads ends => ends[i].View())
    }

    ghost function PortViews(): seq<Port>
      reads ports, set p | p in ports :: p.buf
    {
      seq(|ports|, i requires 0 <= i < |ports| reads ports, set p | p in ports :: p.buf => ports[i].View())
    }

    // The state of the network.
    ghost function View(): Net
      reads Objects()
    {
      Net(engine.now, engine.primary, engine.secondary, ticker.nextTickTime, TickTimes(), EndViews(), PortViews(),
          nextPortID)
    }

    // Frames: at most one end, one port or one component changed.
    twostate lemma EndsBut(e: nat)
      requires Wired()
      requires forall x :: 0 <= x < |ends| && x != e ==> unchanged(ends[x])
      ensures EndViews() == if e < |ends| then old(EndViews())[e := ends[e].View()] else old(EndViews())
    {
    }

    twostate lemma PortsBut(p: nat)
      requires Wired()
      requires forall x :: 0 <= x < |ports| && x != p ==> unchanged(ports[x]) && unchanged(ports[x].buf)
      ensures PortViews() == if p < |ports| then old(PortViews())[p := ports[p].View()] else old(PortViews())
    {
    }

    twostate lemma CompsBut(id: nat)
      requires Wired()
      requires forall x :: 0 <= x < |comps| && x != id ==> unchanged(comps[x])
      ensures TickTimes() == if id < |comps| then old(TickTimes())[id := comps[id].nextTickTime] else old(TickTimes())
    {
    }

    // Whether the port's end has room; if not, the port will be told when it has.
    method CanSend(src: nat) returns (ok: bool)
      requires Valid() && src < |ports|
      modifies ends[src]
      ensures View() == Transport.CanSend(old(View()), src)
      ensures ok == (old(|ends[src].buf|) < ends[src].bufSize)
    {
      var end := ends[src];
      ok := |end.buf| < end.bufSize;
      if !ok {
        end.busy := true;
      }
      EndsBut(src);
    }

    // The network's view of the connection asked to tick now.
    method TickConnection(now: Time)
      requires Valid() && now == engine.now
      modifies ticker, engine`primary, engine`secondary
      ensures View() == ConnTickNow(old(View()), now)
    {
      ticker.TickNow(now);
      CompsBut(|comps|);
    }

    // Buffers a message and asks for a tick now, or marks the end busy.
    method Send(msg: Msg, sendTime: Time) returns (ok: bool)
      requires Valid() && msg.src < |ports| && msg.dst < |ports| && msg.dst != msg.src && sendTime == engine.now
      modifies ends[msg.src], ticker, engine`primary, engine`secondary
      ensures View() == Transport.Send(old(View()), msg)
      ensures ok == (old(|ends[msg.src].buf|) < ends[msg.src].bufSize)
    {
      var srcEnd := ends[msg.src];
      ok := |srcEnd.buf| < srcEnd.bufSize;
      if ok {
        srcEnd.buf := srcEnd.buf + [msg];
      } else {
        srcEnd.busy := true;
      }
      EndsBut(msg.src);
      if ok {
        TickConnection(sendTime);
      }
    }

    // The network's view of a port receiving a message.
    method RecvAt(m: Msg, now: Time) returns (ok: bool)
      requires Valid() && m.dst < |ports| && Shape(config, View()) && now == engine.now
      modifies ports[m.dst], ports[m.dst].buf, ports[m.dst].comp, engine`primary, engine`secondary
      ensures ok == !old(ports[m.dst].View().Full())
      ensures View() == Transport.Recv(config, old(View()), m)
    {
      hide Routed, Advances;
      ghost var owner := config.owner[m.dst];
      assert CompOk(comps[owner], owner, ticker, config) && Advances(config.clocks[owner]);
      ok := ports[m.dst].Recv(m, now);
      PortsBut(m.dst);
      CompsBut(owner);
    }

    // The network's view of a component asked to tick later.
    method WakeOwner(p: nat, now: Time)
      requires Valid() && p < |ports| && now == engine.now && config.Valid()
      modifies ports[p].comp, engine`primary, engine`secondary
      ensures View() == CompTickLater(config, old(View()), config.owner[p])
    {
      ghost var owner := config.owner[p];
      ports[p].comp.TickLater(now);
      CompsBut(owner);
    }

    // The network's view of a message leaving the head of its end.
    method ReleaseHead(e: nat, now: Time)
      requires Valid() && e < |ends| && Shape(config, View()) && ends[e].buf != [] && now == engine.now
      modifies ends[e], ends[e].port.comp, engine`primary, engine`secondary
      ensures View() == Release(config, old(View()), e)
    {
      var end := ends[e];
      var busy := end.busy;
      end.buf, end.busy := end.buf[1..], false;
      EndsBut(e);
      if busy {
        WakeOwner(e, now);
      }
    }

    // Moves the head of an end to its destination, unless that is full.
    method DeliverHead(e: nat, now: Time) returns (ok: bool)
      requires Valid() && e < |ends| && Shape(config, View()) && ends[e].buf != [] && now == engine.now
      modifies Objects() - {this}
      ensures ok == !old(HeadFull(View(), e)) && engine.now == now
      ensures View() == if ok then Deliver(config, old(View()), e)
                        else Transport.Recv(config, old(View()), old(View()).ends[e].buf[0])
    {
      var head := ends[e].buf[0];
      HeadIsRouted(config, View(), e);
      InObjects(head.dst);
      InObjects(e);
      ok := RecvAt(head, now);
      if ok {
        ReleaseHead(e, now);
      }
    }

    // Drains an end until it is empty or its head meets a full port.
    method ForwardMany(e: nat, now: Time) returns (madeProgress: bool)
      requires Valid() && e < |ends| && Shape(config, View()) && now == engine.now
      modifies Objects() - {this}
      ensures View() == Forward(config, old(View()), e)
      ensures madeProgress == (|View().ends[e].buf| < |old(View()).ends[e].buf|)
    {
      madeProgress := false;
      ghost var c, n := config, View();
      ghost var r := n;
      while |ends[e].buf| > 0
        invariant View() == r && Shape(c, r)
        invariant |r.ends| == |ends| && r.ends[e].buf == ends[e].buf && now == engine.now
        invariant Forward(c, r, e) == Forward(c, n, e)
        invariant |r.ends[e].buf| <= |n.ends[e].buf|
        invariant madeProgress == (|r.ends[e].buf| < |n.ends[e].buf|)
        decreases |ends[e].buf|
      {
        var ok := DeliverHead(e, now);
        r := View();
        if !ok {
          return;
        }
        madeProgress := true;
      }
    }

    // The network's view of a component taking a message from its port.
    method RetrieveAt(p: nat, now: Time) returns (msg: seq<Msg>)
      requires Valid() && p < |ports| && now == engine.now
      modifies ports[p], ports[p].buf, ticker, engine`primary, engine`secondary
      ensures View() == Transport.Retrieve(old(View()), p)
      ensures msg == if old(View()).ports[p].buf == [] then [] else [old(View()).ports[p].buf[0]]
    {
      msg := ports[p].Retrieve(now);
      PortsBut(p);
      CompsBut(|comps|);
    }

    // Serves the port in the i-th place of a tick that began in network n.
    method ServeOne(i: nat, now: Time, ghost n: Net) returns (madeProgress: bool)
      requires Valid() && now == engine.now && Shape(config, n) && i < |n.ports| == |ports|
      requires n.turn == nextPortID && View() == Serve(config, n, i)
      modifies Objects() - {this}
      ensures View() == Serve(config, n, i + 1) && madeProgress == ProgressAt(config, n, i)
    {
      var portID := PortAt(i, nextPortID, |ports|);
      ServeUnfolds(config, n, i);
      madeProgress := ForwardMany(portID, now);
    }

    // Serves every port once, from the turn on.
    method ServeAll(now: Time) returns (madeProgress: bool)
      requires Valid() && now == engine.now && Shape(config, View())
      modifies Objects() - {this}
      ensures View() == Serve(config, old(View()), |ports|)
      ensures madeProgress == ProgressBefore(config, old(View()), |ports|)
    {
      hide Shape, Serve, ProgressAt, Advances;
      madeProgress := false;
      ghost var n := View();
      ServeStarts(config, n);
      for i := 0 to |ports|
        invariant View() == Serve(config, n, i) && madeProgress == ProgressBefore(config, n, i)
      {
        ServeKeepsTime(config, n, i);
        var progress := ServeOne(i, now, n);
        madeProgress := progress || madeProgress;
      }
    }

    method PassTurn()
      requires Valid() && |ports| > 0
      modifies this`nextPortID
      ensures Valid()
      ensures View() == old(View()).(turn := if old(nextPortID) + 1 == |ports| then 0 else old(nextPortID) + 1)
    {
      nextPortID := TurnAfter(nextPortID, |ports|);
    }

    method AskForTick(now: Time)
      requires Valid() && now == engine.now && config.Valid()
      modifies ticker, engine`primary, engine`secondary
      ensures View() == ConnTickLater(config, old(View()))
    {
      ticker.TickLater(now);
      CompsBut(|comps|);
    }

    // Serves every port, passes the turn on, and asks for another tick if it made progress.
    method Handle(now: Time)
      requires Valid() && |ports| > 0 && Shape(config, View()) && now == engine.now
      modifies Objects()
      ensures Valid() && View() == Transport.Tick(config, old(View()))
    {
      TickUnfolds(config, View());
      ServeKeepsTime(config, View(), |ports|);
      var madeProgress := ServeAll(now);
      PassTurn();
      if madeProgress {
        AskForTick(now);
      }
    }
  }

  // Each of n pushes in a row, of whatever messages, finds room.
  ghost predicate CanPushAll(elements: seq<Msg>, capacity: nat, n: nat)
    decreases n
  {
    n == 0 || (|elements| < capacity && forall m: Msg :: CanPushAll(elements + [m], capacity, n - 1))
  }

  lemma {:induction false} CanPushAllIff(elements: seq<Msg>, capacity: nat, n: nat)
    ensures |elements| <= capacity ==> (CanPushAll(elements, capacity, n) <==> n + |elements| <= capacity)
    decreases n
  {
    if n > 0 && |elements| < capacity {
      forall m ensures CanPushAll(elements + [m], capacity, n - 1) <==> n + |elements| <= capacity {
        CanPushAllIff(elements + [m], capacity, n - 1);
      }
      assert CanPushAll(elements + [Msg(0, 0, 0)], capacity, n - 1) <==> n + |elements| <= capacity;
    }
  }

  // Holds messages back until the connection takes them, one per tick.
  class BufferedSender {
    const port: nat
    const conn: DirectConnection
    const buffer: Buffer<Msg>

    constructor (port: nat, conn: DirectConnection, capacity: nat)
      ensures this.port == port && this.conn == conn && fresh(buffer) && buffer.capacity == capacity &&
              buffer.elements == []
    {
      this.port, this.conn := port, conn;
      buffer := new Buffer<Msg>(capacity);
    }

    // Whether that many messages can be sent in a row. Asking for more than the capacity
    // panics.
    method CanSend(count: nat) returns (ok: bool)
      requires count <= buffer.capacity
      ensures ok <==> |buffer.elements| <= buffer.capacity && CanPushAll(buffer.elements, buffer.capacity, count)
    {
      ok := count + |buffer.elements| <= buffer.capacity;
      CanPushAllIff(buffer.elements, buffer.capacity, count);
    }

    method Send(msg: Msg)
      requires buffer.CanPush()
      modifies buffer
      ensures buffer.elements == old(buffer.elements) + [msg]
    {
      buffer.Push(msg);
    }

    // Sends the first message, which leaves the buffer only if the connection takes it.
    method Tick(now: Time) returns (sent: bool)
      requires conn.Valid() && port < |conn.ports| && Routed(buffer.elements, port, |conn.ports|) &&
               now == conn.engine.now
      requires forall p :: 0 <= p < |conn.ports| ==> conn.ports[p].buf != buffer
      modifies buffer, conn.ends[port], conn.ticker, conn.engine`primary, conn.engine`secondary
      ensures sent == (old(buffer.elements) != [] && !old(conn.View().ends[port].Full()))
      ensures buffer.elements == if sent then old(buffer.elements)[1..] else old(buffer.elements)
      ensures conn.View() == if old(buffer.elements) == [] then old(conn.View())
                             else Transport.Send(old(conn.View()), old(buffer.elements)[0])
    {
      if |buffer.elements| == 0 {
        return false;
      }
      var msg := buffer.elements[0];
      assert msg in buffer.elements;
      sent := conn.Send(msg, now);
      if sent {
        label handed:
        var e := buffer.Pop();
        conn.EndsBut@handed(|conn.ends|);
        conn.PortsBut@handed(|conn.ports|);
        conn.CompsBut@handed(|conn.comps|);
      }
    }
  }

  method PortAt(i: nat, nextPortID: nat, ports: nat) returns (portID: nat)
    requires i < ports && nextPortID < ports
    ensures portID == Served(nextPortID, ports, i)
  {
    portID := (i + nextPortID) % ports;
    WrapAround(i + nextPortID, ports);
  }

  method TurnAfter(nextPortID: nat, ports: nat) returns (next: nat)
    requires nextPortID < ports
    ensures next == if nextPortID + 1 == ports then 0 else nextPortID + 1
  {
    next := (nextPortID + 1) % ports;
    WrapAround(nextPortID + 1, ports);
  }

  lemma WrapAround(x: nat, ports: nat)
    requires x < 2 * ports
    ensures x % ports == if x < ports then x else x - ports
  {
    if x >= ports {
      assert x == ports + (x - ports);
    }
  }

  lemma HeadIsRouted(c: Config, n: Net, e: nat)
    requires Shape(c, n) && e < |n.ends| && n.ends[e].buf != []
    ensures n.ends[e].buf[0].dst < |n.ports|
  {
    assert Routed(n.ends[e].buf, e, |n.ports|) && n.ends[e].buf[0] in n.ends[e].buf;
  }
}

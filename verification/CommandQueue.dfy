// The driver's in-order command queues (mgpusim-V1/driver/driver.go, memorycopy.go,
// commandqueue.go, command.go): a command's requests wait, are sent, travel and return in any
// order, while the queues hold what is still owed.
module CommandQueue {

  datatype Kind = Noop | Launch | CopyH2D | CopyD2H

  datatype ReqKind = LaunchReq | FlushReq | H2DReq | D2HReq

  // A request; its number is new when it is made.
  datatype Req = Req(id: nat, kind: ReqKind)

  datatype Command = Command(id: nat, kind: Kind, reqs: seq<Req>)

  // A command at work: the requests that it started with, and those answered since, in order.
  datatype Job = Job(kind: Kind, started: seq<Req>, answered: seq<Req>)

  // A queue; the numbers of the commands ever enqueued, the commands dequeued and the last
  // command that was put to work are history.
  datatype Queue = Queue(
    commands: seq<Command>,
    isRunning: bool,
    enqueued: seq<nat>,
    dequeued: seq<Command>,
    job: Job)

  const NEW_QUEUE := Queue([], false, [], [], Job(Noop, [], []))

  datatype Sys = Sys(
    queues: seq<Queue>,
    awaitingReqs: seq<Req>,
    requestsToSend: seq<Req>,
    cyclesLeft: int,
    network: multiset<Req>,
    returned: multiset<Req>,
    nextID: nat)

  datatype Action =
    | Enqueue(q: nat, id: nat, kind: Kind)
    | StartNoop(q: nat)
    | StartLaunch(q: nat, n: nat)
    | StartCopy(q: nat, flushes: nat, copies: nat, cycles: int)
    | MiddlewareTick
    | Send
    | Answer(r: Req)
    | Return(r: Req)

  // ---------- requests and commands ----------

  ghost function NewReqs(kind: ReqKind, from: nat, n: nat): seq<Req> {
    if n == 0 then [] else NewReqs(kind, from, n - 1) + [Req(from + n - 1, kind)]
  }

  ghost predicate Belongs(r: Req, kind: Kind) {
    match r.kind
    case LaunchReq => kind == Launch
    case FlushReq => kind == CopyH2D || kind == CopyD2H
    case H2DReq => kind == CopyH2D
    case D2HReq => kind == CopyD2H
  }

  // A list without the first occurrence of a request.
  function Without(reqs: seq<Req>, r: Req): (w: seq<Req>)
    requires r in reqs
    ensures multiset(reqs) == multiset(w) + multiset{r}
  {
    if reqs[0] == r then
      assert reqs == [r] + reqs[1..];
      reqs[1..]
    else
      assert reqs == [reqs[0]] + reqs[1..];
      [reqs[0]] + Without(reqs[1..], r)
  }

  // What the first command of a queue is still owed.
  ghost function HeadReqs(q: Queue): seq<Req> {
    if q.commands == [] then [] else q.commands[0].reqs
  }

  ghost function AddReqs(q: Queue, reqs: seq<Req>): Queue
    requires q.commands != []
  {
    var c := q.commands[0];
    q.(commands := [c.(reqs := c.reqs + reqs)] + q.commands[1..], job := Job(c.kind, reqs, []))
  }

  ghost function Dequeue(q: Queue): Queue
    requires q.commands != []
  {
    q.(commands := q.commands[1..], dequeued := q.dequeued + [q.commands[0]])
  }

  ghost function RemoveReq(q: Queue, r: Req): Queue
    requires q.commands != [] && r in q.commands[0].reqs
  {
    var c := q.commands[0];
    q.(commands := [c.(reqs := Without(c.reqs, r))] + q.commands[1..],
       job := q.job.(answered := q.job.answered + [r]))
  }

  // An answer is taken off its command; the last one ends the command, unless it is a flush.
  ghost function TakeAnswer(q: Queue, r: Req): Queue
    requires q.commands != [] && r in q.commands[0].reqs
  {
    var w := RemoveReq(q, r);
    if r.kind != FlushReq && w.commands[0].reqs == [] then Dequeue(w.(isRunning := false)) else w
  }

  // The first queue whose first command is owed a request.
  ghost function FindQueue(queues: seq<Queue>, r: Req): (k: nat)
    ensures k <= |queues| && (k < |queues| ==> r in HeadReqs(queues[k]))
    ensures k == |queues| ==> forall i :: 0 <= i < |queues| ==> r !in HeadReqs(queues[i])
  {
    if queues == [] then 0 else if r in HeadReqs(queues[0]) then 0 else 1 + FindQueue(queues[1..], r)
  }

  // ---------- the steps ----------

  ghost predicate CanStart(s: Sys, q: nat, kind: Kind) {
    q < |s.queues| && s.queues[q].commands != [] && !s.queues[q].isRunning && s.queues[q].commands[0].kind == kind
  }

  ghost predicate Enabled(s: Sys, a: Action) {
    match a
    case Enqueue(q, _, _) => q < |s.queues|
    case StartNoop(q) => CanStart(s, q, Noop)
    case StartLaunch(q, _) => CanStart(s, q, Launch)
    case StartCopy(q, _, _, _) => CanStart(s, q, CopyH2D) || CanStart(s, q, CopyD2H)
    case MiddlewareTick => true
    case Send => s.requestsToSend != []
    case Answer(r) => r in s.network
    case Return(r) => r in s.returned
  }

  // The command of a returned request is found, and its kind fits.
  ghost predicate Safe(s: Sys, a: Action) {
    a.Return? ==>
      && FindQueue(s.queues, a.r) < |s.queues|
      && Belongs(a.r, s.queues[FindQueue(s.queues, a.r)].commands[0].kind)
  }

  ghost function ApplyStart(s: Sys, q: nat, now: seq<Req>, later: seq<Req>, isRunning: bool): Sys
    requires q < |s.queues| && s.queues[q].commands != []
  {
    s.(queues := s.queues[q := AddReqs(s.queues[q], now + later).(isRunning := isRunning)],
       requestsToSend := s.requestsToSend + now,
       awaitingReqs := s.awaitingReqs + later,
       nextID := s.nextID + |now| + |later|)
  }

  ghost function CopyKind(kind: Kind): ReqKind {
    if kind == CopyH2D then H2DReq else D2HReq
  }

  ghost function Apply(s: Sys, a: Action): Sys
    requires Enabled(s, a) && Safe(s, a)
  {
    match a
    case Enqueue(q, id, kind) =>
      var was := s.queues[q];
      var now := was.(commands := was.commands + [Command(id, kind, [])], enqueued := was.enqueued + [id]);
      s.(queues := s.queues[q := now])
    case StartNoop(q) => s.(queues := s.queues[q := Dequeue(s.queues[q])])
    case StartLaunch(q, n) => ApplyStart(s, q, NewReqs(LaunchReq, s.nextID, n), [], n > 0)
    case StartCopy(q, flushes, copies, cycles) =>
      var kind := CopyKind(s.queues[q].commands[0].kind);
      var now, later := NewReqs(FlushReq, s.nextID, flushes), NewReqs(kind, s.nextID + flushes, copies);
      ApplyStart(s, q, now, later, true).(cyclesLeft := cycles)
    case MiddlewareTick =>
      if s.cyclesLeft > 0 then s.(cyclesLeft := s.cyclesLeft - 1)
      else if s.cyclesLeft == 0 then
        s.(requestsToSend := s.requestsToSend + s.awaitingReqs, awaitingReqs := [], cyclesLeft := -1)
      else s
    case Send => s.(requestsToSend := s.requestsToSend[1..], network := s.network + multiset{s.requestsToSend[0]})
    case Answer(r) => s.(network := s.network - multiset{r}, returned := s.returned + multiset{r})
    case Return(r) =>
      var k := FindQueue(s.queues, r);
      s.(queues := s.queues[k := TakeAnswer(s.queues[k], r)], returned := s.returned - multiset{r})
  }

  ghost predicate Init(s: Sys) {
    && s == Sys(s.queues, [], [], s.cyclesLeft, multiset{}, multiset{}, 0)
    && forall k :: 0 <= k < |s.queues| ==> s.queues[k] == NEW_QUEUE
  }

  ghost predicate Run(run: seq<Sys>, actions: seq<Action>) {
    && |run| == |actions| + 1 && Init(run[0])
    && forall i :: 0 <= i < |actions| ==>
         Enabled(run[i], actions[i]) && (Safe(run[i], actions[i]) ==> run[i + 1] == Apply(run[i], actions[i]))
  }

  // ---------- the invariant ----------

  ghost function Ids(commands: seq<Command>): seq<nat> {
    seq(|commands|, i requires 0 <= i < |commands| => commands[i].id)
  }

  // Only the first command of a running queue is owed anything, what it is owed fits its kind,
  // and commands leave in the order in which they came, owed nothing.
  ghost predicate QueueOk(q: Queue) {
    && (forall i :: 0 < i < |q.commands| ==> q.commands[i].reqs == [])
    && (if q.isRunning then q.commands != [] else HeadReqs(q) == [])
    && (forall r :: r in HeadReqs(q) ==> Belongs(r, q.commands[0].kind))
    && q.enqueued == Ids(q.dequeued) + Ids(q.commands)
    && (forall i :: 0 <= i < |q.dequeued| ==> q.dequeued[i].reqs == [])
  }

  ghost predicate IsCopy(kind: Kind) {
    kind == CopyH2D || kind == CopyD2H
  }

  // A copy to which nothing comes any more: it started with nothing, or was answered a flush
  // last.
  ghost predicate EndsIdle(job: Job) {
    && IsCopy(job.kind)
    && (job.started == [] || (job.answered != [] && job.answered[|job.answered| - 1].kind == FlushReq))
  }

  // What the first command was given and is not owed any more was answered; a queue that stopped
  // did not end idle, and a command that keeps its queue running while it is owed nothing did.
  ghost predicate JobOk(q: Queue) {
    && multiset(q.job.started) == multiset(q.job.answered) + multiset(HeadReqs(q))
    && (q.isRunning ==> q.commands != [] && q.job.kind == q.commands[0].kind)
    && (!q.isRunning ==> !EndsIdle(q.job))
    && (q.isRunning && HeadReqs(q) == [] ==> EndsIdle(q.job))
  }

  // All places where an outstanding request may be.
  ghost function Places(s: Sys): multiset<Req> {
    multiset(s.awaitingReqs) + multiset(s.requestsToSend) + s.network + s.returned
  }

  ghost function Owed(queues: seq<Queue>): multiset<Req> {
    if queues == [] then multiset{} else Owed(queues[..|queues| - 1]) + multiset(HeadReqs(queues[|queues| - 1]))
  }

  // Each request occurs once, and was made before.
  ghost predicate Distinct(m: multiset<Req>, nextID: nat) {
    && (forall r :: m[r] <= 1)
    && (forall r, t :: r in m && t in m && r.id == t.id ==> r == t)
    && (forall r :: r in m ==> r.id < nextID)
  }

  ghost predicate Inv(s: Sys) {
    && (forall k :: 0 <= k < |s.queues| ==> QueueOk(s.queues[k]) && JobOk(s.queues[k]))
    && Places(s) == Owed(s.queues)
    && Distinct(Places(s), s.nextID)
  }

  lemma AddBoth(a: multiset<Req>, b: multiset<Req>, c: multiset<Req>, d: multiset<Req>, e: multiset<Req>)
    requires a + b == c + d
    ensures a + e + b == c + e + d && a + e + b == c + d + e
  {
    forall r ensures (a + e + b)[r] == (c + e + d)[r] {
      assert (a + b)[r] == (c + d)[r];
    }
  }

  lemma {:induction false} OwedChange(queues: seq<Queue>, k: nat, q: Queue)
    requires k < |queues|
    ensures Owed(queues[k := q]) + multiset(HeadReqs(queues[k])) == Owed(queues) + multiset(HeadReqs(q))
  {
    hide HeadReqs;
    var n := |queues| - 1;
    if k < n {
      assert queues[k := q][..n] == queues[..n][k := q];
      OwedChange(queues[..n], k, q);
      AddBoth(Owed(queues[..n][k := q]), multiset(HeadReqs(queues[k])), Owed(queues[..n]), multiset(HeadReqs(q)),
              multiset(HeadReqs(queues[n])));
    } else {
      assert queues[k := q][..n] == queues[..n];
      AddBoth(Owed(queues[..n]), multiset(HeadReqs(queues[k])), Owed(queues[..n]), multiset(HeadReqs(queues[k])),
              multiset(HeadReqs(q)));
    }
  }

  lemma {:induction false} OwedHas(queues: seq<Queue>, r: Req) returns (k: nat)
    requires r in Owed(queues)
    ensures k < |queues| && r in HeadReqs(queues[k])
  {
    hide HeadReqs;
    if r in HeadReqs(queues[|queues| - 1]) {
      k := |queues| - 1;
    } else {
      k := OwedHas(queues[..|queues| - 1], r);
    }
  }

  lemma FoundIn(queues: seq<Queue>, r: Req)
    requires r in Owed(queues)
    ensures FindQueue(queues, r) < |queues|
  {
    var k := OwedHas(queues, r);
  }

  // A returned request is always found, in a command of the right kind: neither "cannot find
  // command" nor "not found" nor a wrong type is ever met.
  lemma InvIsSafe(s: Sys, a: Action)
    requires Inv(s) && Enabled(s, a)
    ensures Safe(s, a)
  {
    hide Distinct, Owed;
    if a.Return? {
      assert a.r in Places(s);
      FoundIn(s.queues, a.r);
      assert QueueOk(s.queues[FindQueue(s.queues, a.r)]);
    }
  }

  // ---------- preservation ----------

  lemma {:induction false} NewFacts(kind: ReqKind, from: nat, n: nat)
    ensures |NewReqs(kind, from, n)| == n
    ensures forall r :: r in NewReqs(kind, from, n) ==> r.kind == kind && from <= r.id < from + n
    ensures forall r :: multiset(NewReqs(kind, from, n))[r] <= 1
  {
    if n > 0 {
      NewFacts(kind, from, n - 1);
    }
  }

  lemma NewDistinct(m: multiset<Req>, nextID: nat, reqs: seq<Req>, kind: ReqKind)
    requires Distinct(m, nextID) && reqs == NewReqs(kind, nextID, |reqs|)
    ensures Distinct(m + multiset(reqs), nextID + |reqs|)
  {
    NewFacts(kind, nextID, |reqs|);
    NewIds(kind, nextID, |reqs|);
    hide NewReqs;
    forall r ensures (m + multiset(reqs))[r] <= 1 {
      assert r in m ==> r !in reqs;
    }
  }

  lemma MoreDistinct(m: multiset<Req>, nextID: nat, now: seq<Req>, later: seq<Req>, k1: ReqKind, k2: ReqKind)
    requires Distinct(m, nextID) && now == NewReqs(k1, nextID, |now|) && later == NewReqs(k2, nextID + |now|, |later|)
    ensures Distinct(m + multiset(now) + multiset(later), nextID + |now| + |later|)
  {
    hide Distinct, NewReqs;
    NewDistinct(m, nextID, now, k1);
    NewDistinct(m + multiset(now), nextID + |now|, later, k2);
  }

  lemma {:induction false} NewIds(kind: ReqKind, from: nat, n: nat)
    ensures forall r, t :: r in NewReqs(kind, from, n) && t in NewReqs(kind, from, n) && r.id == t.id ==> r == t
  {
    NewFacts(kind, from, n);
  }

  lemma FewerDistinct(m: multiset<Req>, nextID: nat, less: multiset<Req>)
    requires Distinct(m, nextID) && less <= m
    ensures Distinct(less, nextID)
  {
    forall r ensures less[r] <= 1 && (r in less ==> r in m) {
      assert less[r] <= m[r];
    }
  }

  lemma StartQueueOk(q: Queue, reqs: seq<Req>, isRunning: bool)
    requires QueueOk(q) && q.commands != [] && !q.isRunning && (isRunning || reqs == [])
    requires forall r :: r in reqs ==> Belongs(r, q.commands[0].kind)
    ensures QueueOk(AddReqs(q, reqs).(isRunning := isRunning))
    ensures HeadReqs(AddReqs(q, reqs).(isRunning := isRunning)) == reqs && HeadReqs(q) == []
  {
    var r := AddReqs(q, reqs);
    assert Ids(r.commands) == Ids(q.commands);
  }

  lemma StartJobOk(q: Queue, reqs: seq<Req>, isRunning: bool)
    requires QueueOk(q) && q.commands != [] && !q.isRunning && (isRunning || reqs == [])
    requires IsCopy(q.commands[0].kind) ==> isRunning
    requires !IsCopy(q.commands[0].kind) && isRunning ==> reqs != []
    ensures JobOk(AddReqs(q, reqs).(isRunning := isRunning))
  {
    assert q.commands[0].reqs + reqs == reqs;
  }

  lemma StartPlaces(s: Sys, q: nat, now: seq<Req>, later: seq<Req>, isRunning: bool)
    requires q < |s.queues| && s.queues[q].commands != []
    ensures Places(ApplyStart(s, q, now, later, isRunning)) == Places(s) + multiset(now) + multiset(later)
  {
    hide AddReqs;
  }

  lemma StartInv(s: Sys, q: nat, now: seq<Req>, later: seq<Req>, k1: ReqKind, k2: ReqKind, isRunning: bool)
    requires Inv(s) && q < |s.queues| && s.queues[q].commands != [] && !s.queues[q].isRunning
    requires now == NewReqs(k1, s.nextID, |now|) && later == NewReqs(k2, s.nextID + |now|, |later|)
    requires isRunning || now + later == []
    requires if IsCopy(s.queues[q].commands[0].kind) then isRunning else isRunning ==> now + later != []
    requires forall r :: r in now + later ==> Belongs(r, s.queues[q].commands[0].kind)
    ensures Inv(ApplyStart(s, q, now, later, isRunning))
  {
    hide Distinct, QueueOk, JobOk, Owed, AddReqs, HeadReqs, NewReqs;
    var r := AddReqs(s.queues[q], now + later).(isRunning := isRunning);
    StartQueueOk(s.queues[q], now + later, isRunning);
    StartJobOk(s.queues[q], now + later, isRunning);
    OwedChange(s.queues, q, r);
    StartPlaces(s, q, now, later, isRunning);
    MoreDistinct(Places(s), s.nextID, now, later, k1, k2);
    assert multiset(now + later) == multiset(now) + multiset(later);
    OwedMore(Owed(s.queues), Owed(s.queues[q := r]), now, later);
  }

  lemma OwedMore(was: multiset<Req>, now: multiset<Req>, a: seq<Req>, b: seq<Req>)
    requires now + multiset([]) == was + multiset(a + b)
    ensures now == was + multiset(a) + multiset(b)
  {
    assert multiset(a + b) == multiset(a) + multiset(b);
    assert now + multiset([]) == now;
  }

  // Replacing a queue by one that is owed the same.
  lemma SameOwed(s: Sys, k: nat, q: Queue)
    requires Inv(s) && k < |s.queues| && QueueOk(q) && JobOk(q) && HeadReqs(q) == HeadReqs(s.queues[k])
    ensures Inv(s.(queues := s.queues[k := q]))
  {
    hide Distinct, QueueOk, JobOk, Owed, HeadReqs;
    OwedChange(s.queues, k, q);
    Cancel(Owed(s.queues[k := q]), Owed(s.queues), multiset(HeadReqs(q)));
  }

  lemma Cancel(a: multiset<Req>, b: multiset<Req>, c: multiset<Req>)
    requires a + c == b + c
    ensures a == b
  {
    forall r ensures a[r] == b[r] {
      assert (a + c)[r] == (b + c)[r];
    }
  }

  lemma EnqueueInv(s: Sys, q: nat, id: nat, kind: Kind)
    requires Inv(s) && Enabled(s, Enqueue(q, id, kind))
    ensures Inv(Apply(s, Enqueue(q, id, kind)))
  {
    hide Distinct, Owed, Places;
    var was := s.queues[q];
    var r := was.(commands := was.commands + [Command(id, kind, [])], enqueued := was.enqueued + [id]);
    assert QueueOk(was) && JobOk(was);
    assert Ids(r.commands) == Ids(was.commands) + [id];
    SameOwed(s, q, r);
  }

  lemma DequeueOk(q: Queue)
    requires QueueOk(q.(isRunning := false)) && q.commands != [] && HeadReqs(q) == []
    ensures QueueOk(Dequeue(q).(isRunning := false)) && HeadReqs(Dequeue(q)) == []
  {
    var r := Dequeue(q);
    assert Ids(q.commands) == [q.commands[0].id] + Ids(r.commands);
    assert Ids(r.dequeued) == Ids(q.dequeued) + [q.commands[0].id];
  }

  lemma NoopInv(s: Sys, q: nat)
    requires Inv(s) && Enabled(s, StartNoop(q))
    ensures Inv(Apply(s, StartNoop(q)))
  {
    hide Distinct, Owed, Places, QueueOk, JobOk;
    NotRunning(s.queues[q]);
    DequeueOk(s.queues[q]);
    NoopJobOk(s.queues[q]);
    SameOwed(s, q, Dequeue(s.queues[q]));
  }

  lemma NoopJobOk(q: Queue)
    requires QueueOk(q) && JobOk(q) && !q.isRunning && q.commands != []
    ensures JobOk(Dequeue(q))
  {
  }

  lemma NotRunning(q: Queue)
    requires QueueOk(q) && !q.isRunning
    ensures HeadReqs(q) == []
  {
  }

  // Moving requests from one place to another.
  lemma MoveInv(s: Sys, r: Sys)
    requires Inv(s) && r.queues == s.queues && r.nextID == s.nextID && Places(r) == Places(s)
    ensures Inv(r)
  {
    hide Distinct, Owed, Places, QueueOk, JobOk;
  }

  lemma TickInv(s: Sys)
    requires Inv(s)
    ensures Inv(Apply(s, MiddlewareTick))
  {
    hide Inv;
    assert Places(Apply(s, MiddlewareTick)) == Places(s);
    MoveInv(s, Apply(s, MiddlewareTick));
  }

  lemma SendInv(s: Sys)
    requires Inv(s) && s.requestsToSend != []
    ensures Inv(Apply(s, Send))
  {
    hide Inv;
    assert s.requestsToSend == [s.requestsToSend[0]] + s.requestsToSend[1..];
    assert Places(Apply(s, Send)) == Places(s);
    MoveInv(s, Apply(s, Send));
  }

  lemma AnswerInv(s: Sys, r: Req)
    requires Inv(s) && r in s.network
    ensures Inv(Apply(s, Answer(r)))
  {
    hide Inv;
    assert Places(Apply(s, Answer(r))) == Places(s);
    MoveInv(s, Apply(s, Answer(r)));
  }

  lemma RemoveOk(q: Queue, r: Req)
    requires QueueOk(q) && q.commands != [] && r in q.commands[0].reqs
    ensures QueueOk(RemoveReq(q, r)) && HeadReqs(RemoveReq(q, r)) == Without(HeadReqs(q), r)
    ensures RemoveReq(q, r).commands != [] && q.isRunning
  {
    var w := RemoveReq(q, r);
    assert Ids(w.commands) == Ids(q.commands);
    forall t | t in Without(HeadReqs(q), r) ensures t in HeadReqs(q) {
      assert t in multiset(HeadReqs(q));
    }
  }

  lemma TakeOk(q: Queue, r: Req)
    requires QueueOk(q) && q.commands != [] && r in q.commands[0].reqs
    ensures QueueOk(TakeAnswer(q, r)) && multiset(HeadReqs(q)) == multiset(HeadReqs(TakeAnswer(q, r))) + multiset{r}
  {
    hide Without;
    RemoveOk(q, r);
    var w := RemoveReq(q, r);
    if r.kind != FlushReq && w.commands[0].reqs == [] {
      StopOk(w);
      DequeueOk(w.(isRunning := false));
    }
  }

  lemma TakeJobOk(q: Queue, r: Req)
    requires QueueOk(q) && JobOk(q) && q.commands != [] && r in q.commands[0].reqs
    ensures JobOk(TakeAnswer(q, r))
  {
    hide Without;
    RemoveOk(q, r);
    var w := RemoveReq(q, r);
    AnswerMoves(multiset(q.job.started), q.job.answered, HeadReqs(q), HeadReqs(w), r);
    assert q.job.started != [] by {
      assert r in multiset(HeadReqs(q));
    }
    if r.kind != FlushReq && w.commands[0].reqs == [] {
      assert HeadReqs(Dequeue(w.(isRunning := false))) == [];
    }
  }

  lemma AnswerMoves(started: multiset<Req>, answered: seq<Req>, was: seq<Req>, now: seq<Req>, r: Req)
    requires started == multiset(answered) + multiset(was) && multiset(was) == multiset(now) + multiset{r}
    ensures started == multiset(answered + [r]) + multiset(now)
  {
  }

  lemma StopOk(q: Queue)
    requires QueueOk(q) && HeadReqs(q) == []
    ensures QueueOk(q.(isRunning := false)) && HeadReqs(q.(isRunning := false)) == []
  {
  }

  lemma ReturnInv(s: Sys, r: Req)
    requires Inv(s) && r in s.returned && Safe(s, Return(r))
    ensures Inv(Apply(s, Return(r)))
  {
    hide Distinct, QueueOk, JobOk, Owed, HeadReqs, TakeAnswer, FindQueue;
    var k := FindQueue(s.queues, r);
    var t := Apply(s, Return(r));
    HeadOwes(s.queues[k], r);
    TakeOk(s.queues[k], r);
    TakeJobOk(s.queues[k], r);
    OwedChange(s.queues, k, TakeAnswer(s.queues[k], r));
    TakePlace(s, t, r);
    OneLess(Owed(t.queues), Owed(s.queues), multiset(HeadReqs(TakeAnswer(s.queues[k], r))), r);
    Cancel(Owed(t.queues), Places(t), multiset{r});
    FewerDistinct(Places(s), s.nextID, Places(t));
  }

  lemma HeadOwes(q: Queue, r: Req)
    requires r in HeadReqs(q)
    ensures q.commands != [] && r in q.commands[0].reqs
  {
  }

  lemma TakePlace(s: Sys, t: Sys, r: Req)
    requires r in s.returned && t == s.(queues := t.queues, returned := s.returned - multiset{r})
    ensures Places(s) == Places(t) + multiset{r} && Places(t) <= Places(s)
  {
    assert s.returned == s.returned - multiset{r} + multiset{r};
  }

  lemma OneLess(a: multiset<Req>, b: multiset<Req>, c: multiset<Req>, r: Req)
    requires a + (c + multiset{r}) == b + c
    ensures a + multiset{r} == b
  {
    forall x ensures (a + multiset{r})[x] == b[x] {
      assert (a + (c + multiset{r}))[x] == (b + c)[x];
    }
  }

  lemma LaunchInv(s: Sys, q: nat, n: nat)
    requires Inv(s) && Enabled(s, StartLaunch(q, n))
    ensures Inv(Apply(s, StartLaunch(q, n)))
  {
    hide Inv;
    NewFacts(LaunchReq, s.nextID, n);
    StartInv(s, q, NewReqs(LaunchReq, s.nextID, n), [], LaunchReq, LaunchReq, n > 0);
  }

  lemma CopyInv(s: Sys, q: nat, flushes: nat, copies: nat, cycles: int)
    requires Inv(s) && Enabled(s, StartCopy(q, flushes, copies, cycles))
    ensures Inv(Apply(s, StartCopy(q, flushes, copies, cycles)))
  {
    hide Inv, NewReqs, ApplyStart;
    var kind := CopyKind(s.queues[q].commands[0].kind);
    var now, later := NewReqs(FlushReq, s.nextID, flushes), NewReqs(kind, s.nextID + flushes, copies);
    NewFacts(FlushReq, s.nextID, flushes);
    NewFacts(kind, s.nextID + flushes, copies);
    StartInv(s, q, now, later, FlushReq, kind, true);
    CyclesInv(ApplyStart(s, q, now, later, true), cycles);
  }

  lemma CyclesInv(s: Sys, cycles: int)
    requires Inv(s)
    ensures Inv(s.(cyclesLeft := cycles))
  {
    hide Distinct, QueueOk, JobOk, Owed;
  }

  lemma StepInv(s: Sys, a: Action)
    requires Inv(s) && Enabled(s, a)
    ensures Safe(s, a) && Inv(Apply(s, a))
  {
    hide Inv, Enabled, Safe;
    InvIsSafe(s, a);
    match a
    case Enqueue(q, id, kind) => EnqueueInv(s, q, id, kind);
    case StartNoop(q) => NoopInv(s, q);
    case StartLaunch(q, n) => LaunchInv(s, q, n);
    case StartCopy(q, flushes, copies, cycles) => CopyInv(s, q, flushes, copies, cycles);
    case MiddlewareTick => TickInv(s);
    case Send => SendStep(s);
    case Answer(r) => AnswerStep(s, r);
    case Return(r) => ReturnStep(s, r);
  }

  lemma SendStep(s: Sys)
    requires Inv(s) && Enabled(s, Send) && Safe(s, Send)
    ensures Inv(Apply(s, Send))
  {
    SendInv(s);
  }

  lemma AnswerStep(s: Sys, r: Req)
    requires Inv(s) && Enabled(s, Answer(r)) && Safe(s, Answer(r))
    ensures Inv(Apply(s, Answer(r)))
  {
    AnswerInv(s, r);
  }

  lemma ReturnStep(s: Sys, r: Req)
    requires Inv(s) && Enabled(s, Return(r)) && Safe(s, Return(r))
    ensures Inv(Apply(s, Return(r)))
  {
    ReturnInv(s, r);
  }

  lemma {:induction false} NothingOwed(queues: seq<Queue>)
    requires forall k :: 0 <= k < |queues| ==> queues[k] == NEW_QUEUE
    ensures Owed(queues) == multiset{}
  {
    if queues != [] {
      NothingOwed(queues[..|queues| - 1]);
    }
  }

  lemma {:induction false} RunInv(run: seq<Sys>, actions: seq<Action>, i: nat)
    requires Run(run, actions) && i < |run|
    ensures Inv(run[i])
    decreases i, 1
  {
    if i == 0 {
      NothingOwed(run[0].queues);
    } else {
      RunStepInv(run, actions, i);
    }
  }

  lemma {:induction false} RunStepInv(run: seq<Sys>, actions: seq<Action>, i: nat)
    requires Run(run, actions) && 0 < i < |run|
    ensures Inv(run[i])
    decreases i, 0
  {
    hide Inv, Apply, Enabled, Safe;
    RunInv(run, actions, i - 1);
    StepInv(run[i - 1], actions[i - 1]);
  }

  // ---------- theorems ----------

  // Every returned request is found in a command of its kind at the head of a queue.
  lemma CommandIsFound(run: seq<Sys>, actions: seq<Action>, i: nat)
    requires Run(run, actions) && i < |actions|
    ensures Safe(run[i], actions[i]) && run[i + 1] == Apply(run[i], actions[i])
  {
    hide Inv, Apply, Safe;
    RunInv(run, actions, i);
    StepInv(run[i], actions[i]);
  }

  // Every outstanding request is in exactly one place, once, and these are exactly the requests
  // that the first commands of the queues are owed.
  lemma EachRequestInOnePlace(run: seq<Sys>, actions: seq<Action>, i: nat, r: Req)
    requires Run(run, actions) && i < |run|
    ensures var s := run[i];
            && multiset(s.awaitingReqs)[r] + multiset(s.requestsToSend)[r] + s.network[r] + s.returned[r] ==
               Owed(s.queues)[r] <= 1
  {
    RunInv(run, actions, i);
    hide Distinct, QueueOk, Owed;
    assert Places(run[i])[r] <= 1 by {
      OnceOnly(Places(run[i]), run[i].nextID, r);
    }
  }

  lemma OnceOnly(m: multiset<Req>, nextID: nat, r: Req)
    requires Distinct(m, nextID)
    ensures m[r] <= 1
  {
  }

  // A queue has at most one active command, its first; commands are dequeued in the order in
  // which they were enqueued, and none while it is owed a request.
  lemma CommandsInOrder(run: seq<Sys>, actions: seq<Action>, i: nat, k: nat)
    requires Run(run, actions) && i < |run| && k < |run[i].queues|
    ensures var q := run[i].queues[k];
            && q.enqueued == Ids(q.dequeued) + Ids(q.commands)
            && (forall j :: 0 <= j < |q.dequeued| ==> q.dequeued[j].reqs == [])
            && (forall j :: 0 < j < |q.commands| ==> q.commands[j].reqs == [])
            && (q.commands != [] && q.commands[0].reqs != [] ==> q.isRunning)
  {
    RunInv(run, actions, i);
    hide Distinct, Owed, Places;
    assert QueueOk(run[i].queues[k]);
  }

  // ---------- a queue that waits for nothing ----------

  // The first command is still running but is owed nothing.
  ghost predicate Stuck(q: Queue) {
    q.isRunning && q.commands != [] && q.commands[0].reqs == []
  }

  // In every reachable state a queue is stuck if and only if the copy that it started last was
  // answered all its requests, and these were none at all, or a flush was answered last.
  lemma StuckIff(run: seq<Sys>, actions: seq<Action>, i: nat, k: nat)
    requires Run(run, actions) && i < |run| && k < |run[i].queues|
    ensures var q := run[i].queues[k];
            Stuck(q) <==>
            && IsCopy(q.job.kind) && |q.job.answered| == |q.job.started|
            && (q.job.started == [] || q.job.answered[|q.job.answered| - 1].kind == FlushReq)
  {
    RunInv(run, actions, i);
    hide Distinct, Owed, Places;
    var q := run[i].queues[k];
    assert QueueOk(q) && JobOk(q);
    assert |multiset(q.job.started)| == |multiset(q.job.answered)| + |multiset(HeadReqs(q))|;
  }

  // What is in the history of a queue: every answer is one of the requests of the start, and
  // what is not answered yet is what the first command is owed.
  lemma JobsAreExact(run: seq<Sys>, actions: seq<Action>, i: nat, k: nat)
    requires Run(run, actions) && i < |run| && k < |run[i].queues|
    ensures var q := run[i].queues[k];
            && multiset(q.job.started) == multiset(q.job.answered) + multiset(HeadReqs(q))
            && (q.isRunning ==> q.commands != [] && q.job.kind == q.commands[0].kind)
  {
    RunInv(run, actions, i);
    hide Distinct, Owed, Places;
    assert JobOk(run[i].queues[k]);
  }

  lemma StuckStep(s: Sys, a: Action, k: nat)
    requires Inv(s) && Enabled(s, a) && Safe(s, a) && k < |s.queues| && Stuck(s.queues[k])
    ensures var r := Apply(s, a);
            && k < |r.queues| && Stuck(r.queues[k])
            && r.queues[k].commands[0] == s.queues[k].commands[0] && r.queues[k].dequeued == s.queues[k].dequeued
  {
    hide Inv, TakeAnswer, NewReqs;
    if a.Return? {
      assert HeadReqs(s.queues[k]) == [];
    }
  }

  // Nothing that the driver, the network or the program does later moves such a queue on: in
  // every later state of the run its first command is the same one.
  lemma {:induction false} StuckForever(run: seq<Sys>, actions: seq<Action>, i: nat, j: nat, k: nat)
    requires Run(run, actions) && i <= j < |run| && k < |run[i].queues| && Stuck(run[i].queues[k])
    ensures k < |run[j].queues| && Stuck(run[j].queues[k])
    ensures run[j].queues[k].commands[0] == run[i].queues[k].commands[0]
    ensures run[j].queues[k].dequeued == run[i].queues[k].dequeued
    decreases j
  {
    hide Inv, Apply, Enabled, Safe;
    if i < j {
      StuckForever(run, actions, i, j - 1, k);
      RunInv(run, actions, j - 1);
      StepInv(run[j - 1], actions[j - 1]);
      StuckStep(run[j - 1], actions[j - 1], k);
    }
  }

  // ---------- two ways to get stuck ----------

  // One queue with a copy to the device at work.
  ghost function Copying(reqs: seq<Req>, answered: seq<Req>, awaiting: seq<Req>, toSend: seq<Req>, cycles: int,
                         network: multiset<Req>, returned: multiset<Req>): Sys
  {
    Sys([Queue([Command(5, CopyH2D, reqs)], true, [5], [], Job(CopyH2D, [FLUSH, COPY], answered))],
        awaiting, toSend, cycles, network, returned, 2)
  }

  const FLUSH := Req(0, FlushReq)
  const COPY := Req(1, H2DReq)

  // A copy of nothing that needs no flush has no requests from the start.
  lemma EmptyCopyIsStuck() returns (run: seq<Sys>)
    ensures Run(run, [Enqueue(0, 5, CopyH2D), StartCopy(0, 0, 0, 3)])
    ensures |run[2].queues| == 1 && Stuck(run[2].queues[0]) && run[2].queues[0].job.started == []
  {
    var s := Sys([NEW_QUEUE], [], [], -1, multiset{}, multiset{}, 0);
    var t := Apply(s, Enqueue(0, 5, CopyH2D));
    var u := Apply(t, StartCopy(0, 0, 0, 3));
    run := [s, t, u];
  }

  const FLUSH_LAST := [
    Enqueue(0, 5, CopyH2D), StartCopy(0, 1, 1, 0), Send, MiddlewareTick, Send,
    Answer(COPY), Return(COPY), Answer(FLUSH), Return(FLUSH)]

  ghost function OneCommand(): Sys {
    Sys([Queue([Command(5, CopyH2D, [])], false, [5], [], Job(Noop, [], []))], [], [], -1, multiset{}, multiset{}, 0)
  }

  ghost predicate Leads(s: Sys, a: Action, r: Sys) {
    Enabled(s, a) && Safe(s, a) && r == Apply(s, a)
  }

  lemma LateFlushEnqueues(s: Sys)
    requires s == Sys([NEW_QUEUE], [], [], -1, multiset{}, multiset{}, 0)
    ensures Leads(s, Enqueue(0, 5, CopyH2D), OneCommand())
  {
    assert [] + [Command(5, CopyH2D, [])] == [Command(5, CopyH2D, [])] && [] + [5] == [5];
    assert s.queues[0 := OneCommand().queues[0]] == OneCommand().queues;
  }

  lemma LateFlushStarts()
    ensures Leads(OneCommand(), StartCopy(0, 1, 1, 0),
                  Copying([FLUSH, COPY], [], [COPY], [FLUSH], 0, multiset{}, multiset{}))
  {
    var s, r := OneCommand(), Copying([FLUSH, COPY], [], [COPY], [FLUSH], 0, multiset{}, multiset{});
    assert NewReqs(FlushReq, 0, 1) == [FLUSH] && NewReqs(H2DReq, 1, 1) == [COPY];
    assert [FLUSH] + [COPY] == [FLUSH, COPY] == [] + [FLUSH, COPY];
    assert [Command(5, CopyH2D, [FLUSH, COPY])] + s.queues[0].commands[1..] == [Command(5, CopyH2D, [FLUSH, COPY])];
    assert AddReqs(s.queues[0], [FLUSH, COPY]).(isRunning := true) == r.queues[0];
    assert s.queues[0 := r.queues[0]] == r.queues;
  }

  lemma LateFlushSends()
    ensures Leads(Copying([FLUSH, COPY], [], [COPY], [FLUSH], 0, multiset{}, multiset{}), Send,
                  Copying([FLUSH, COPY], [], [COPY], [], 0, multiset{FLUSH}, multiset{}))
    ensures Leads(Copying([FLUSH, COPY], [], [COPY], [], 0, multiset{FLUSH}, multiset{}), MiddlewareTick,
                  Copying([FLUSH, COPY], [], [], [COPY], -1, multiset{FLUSH}, multiset{}))
    ensures Leads(Copying([FLUSH, COPY], [], [], [COPY], -1, multiset{FLUSH}, multiset{}), Send,
                  Copying([FLUSH, COPY], [], [], [], -1, multiset{FLUSH, COPY}, multiset{}))
  {
    assert [] + [COPY] == [COPY];
  }

  lemma LateFlushAnswers()
    ensures Leads(Copying([FLUSH, COPY], [], [], [], -1, multiset{FLUSH, COPY}, multiset{}), Answer(COPY),
                  Copying([FLUSH, COPY], [], [], [], -1, multiset{FLUSH}, multiset{COPY}))
    ensures Leads(Copying([FLUSH], [COPY], [], [], -1, multiset{FLUSH}, multiset{}), Answer(FLUSH),
                  Copying([FLUSH], [COPY], [], [], -1, multiset{}, multiset{FLUSH}))
  {
  }

  lemma LateFlushReturns()
    ensures Leads(Copying([FLUSH, COPY], [], [], [], -1, multiset{FLUSH}, multiset{COPY}), Return(COPY),
                  Copying([FLUSH], [COPY], [], [], -1, multiset{FLUSH}, multiset{}))
    ensures Leads(Copying([FLUSH], [COPY], [], [], -1, multiset{}, multiset{FLUSH}), Return(FLUSH),
                  Copying([], [COPY, FLUSH], [], [], -1, multiset{}, multiset{}))
  {
    assert Without([FLUSH, COPY], COPY) == [FLUSH];
    assert Without([FLUSH], FLUSH) == [];
    assert [] + [COPY] == [COPY] && [COPY] + [FLUSH] == [COPY, FLUSH];
    AnswerTaken([FLUSH, COPY], [], COPY, [FLUSH], [COPY], multiset{FLUSH});
    AnswerTaken([FLUSH], [COPY], FLUSH, [], [COPY, FLUSH], multiset{});
  }

  lemma AnswerTaken(was: seq<Req>, answered: seq<Req>, r: Req, now: seq<Req>, more: seq<Req>, network: multiset<Req>)
    requires r in was && now == Without(was, r) && more == answered + [r]
    requires Belongs(r, CopyH2D) && (r.kind == FlushReq || now != [])
    ensures Leads(Copying(was, answered, [], [], -1, network, multiset{r}), Return(r),
                  Copying(now, more, [], [], -1, network, multiset{}))
  {
    hide Without;
    var s := Copying(was, answered, [], [], -1, network, multiset{r});
    var t := Copying(now, more, [], [], -1, network, multiset{});
    assert FindQueue(s.queues, r) == 0;
    assert RemoveReq(s.queues[0], r) == t.queues[0];
    assert s.queues[0 := t.queues[0]] == t.queues;
  }

  ghost function LateState(i: nat): Sys {
    match i
    case 0 => Sys([NEW_QUEUE], [], [], -1, multiset{}, multiset{}, 0)
    case 1 => OneCommand()
    case 2 => Copying([FLUSH, COPY], [], [COPY], [FLUSH], 0, multiset{}, multiset{})
    case 3 => Copying([FLUSH, COPY], [], [COPY], [], 0, multiset{FLUSH}, multiset{})
    case 4 => Copying([FLUSH, COPY], [], [], [COPY], -1, multiset{FLUSH}, multiset{})
    case 5 => Copying([FLUSH, COPY], [], [], [], -1, multiset{FLUSH, COPY}, multiset{})
    case 6 => Copying([FLUSH, COPY], [], [], [], -1, multiset{FLUSH}, multiset{COPY})
    case 7 => Copying([FLUSH], [COPY], [], [], -1, multiset{FLUSH}, multiset{})
    case 8 => Copying([FLUSH], [COPY], [], [], -1, multiset{}, multiset{FLUSH})
    case _ => Copying([], [COPY, FLUSH], [], [], -1, multiset{}, multiset{})
  }

  ghost function LateRun(): seq<Sys> {
    seq(10, (i: nat) => LateState(i))
  }

  lemma LateSteps(i: nat)
    requires i < 9
    ensures Leads(LateState(i), FLUSH_LAST[i], LateState(i + 1))
  {
    hide Leads, Copying, OneCommand;
    LateFlushEnqueues(LateState(0));
    LateFlushStarts();
    LateFlushSends();
    LateFlushAnswers();
    LateFlushReturns();
  }

  lemma LateStates(i: nat)
    requires i < 10
    ensures |LateRun()| == 10 && LateRun()[i] == LateState(i)
  {
    hide LateState;
  }

  // A copy whose flush takes longer than the copying itself.
  lemma LateFlushIsStuck()
    ensures Run(LateRun(), FLUSH_LAST) && |LateRun()[9].queues| == 1 && Stuck(LateRun()[9].queues[0])
    ensures LateRun()[9].queues[0].job == Job(CopyH2D, [FLUSH, COPY], [COPY, FLUSH])
  {
    hide Apply, Enabled, Safe, LateState, LateRun;
    LateStates(0);
    LateEnds();
    forall i | 0 <= i < 9
      ensures Enabled(LateRun()[i], FLUSH_LAST[i])
      ensures Safe(LateRun()[i], FLUSH_LAST[i]) && LateRun()[i + 1] == Apply(LateRun()[i], FLUSH_LAST[i])
    {
      LateStates(i);
      LateStates(i + 1);
      LateSteps(i);
    }
    LateStates(9);
  }

  lemma LateEnds()
    ensures Init(LateState(0)) && LateState(9) == Copying([], [COPY, FLUSH], [], [], -1, multiset{}, multiset{})
  {
  }
}

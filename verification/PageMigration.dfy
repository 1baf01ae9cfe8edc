// The driver's page-migration protocol as a state machine: drain every GPU, shoot down the
// accessing ones, copy page by page, restart, un-drain (mgpusim-V1/driver/driver.go).
// The network answers each request once, in any order; every send may be refused for a while.
module PageMigration {
  import opened Wrappers

  // A request of the MMU: the pages each GPU (counted from 1) asks for, and the GPUs that
  // access them.
  datatype Job = Job(pages: map<nat, seq<nat>>, accessing: seq<nat>)

  // A request to a GPU (counted from 0).
  datatype Req =
    | Drain(gpu: nat)
    | Shootdown(gpu: nat, vAddrs: seq<nat>)
    | Copy(gpu: nat, vAddr: nat)
    | Restart(gpu: nat)
    | Undrain(gpu: nat)

  datatype Driver = Driver(
    gpus: nat,
    current: Option<Job>,
    handling: bool,
    toSend: seq<Req>,
    toCP: seq<Req>,
    migratingOne: bool,
    toMMU: Option<seq<nat>>,
    drainAck: int,
    shootAck: int,
    copyAck: int,
    restartAck: int,
    undrainAck: int)

  // ---------- the requests of each phase ----------

  ghost function Drains(n: nat): seq<Req> {
    seq(n, i requires 0 <= i < n => Drain(i))
  }

  ghost function Undrains(n: nat): seq<Req> {
    seq(n, i requires 0 <= i < n => Undrain(i))
  }

  ghost predicate AccessingInRange(job: Job, n: nat) {
    forall i :: 0 <= i < |job.accessing| ==> 1 <= job.accessing[i] <= n
  }

  ghost function PagesOf(job: Job, gpu: nat): seq<nat> {
    if gpu + 1 in job.pages then job.pages[gpu + 1] else []
  }

  // The GPUs that request pages, in ascending order.
  ghost function Requesting(job: Job, n: nat): seq<nat> {
    if n == 0 then [] else Requesting(job, n - 1) + (if n in job.pages then [n - 1] else [])
  }

  // One list after the other, in a given order.
  ghost function Flatten<T>(f: nat -> seq<T>, order: seq<nat>): seq<T> {
    if order == [] then [] else f(order[0]) + Flatten(f, order[1..])
  }

  // All requested addresses, GPU by GPU.
  ghost function VAddrs(job: Job, n: nat): seq<nat> {
    Listed(job, Requesting(job, n))
  }

  // The pages that the MMU asks for, read off its request GPU by GPU.
  ghost function Requested(job: Job, n: nat): seq<nat> {
    if n == 0 then []
    else if n in job.pages then Requested(job, n - 1) + job.pages[n]
    else Requested(job, n - 1)
  }

  // The pages of the GPUs in some order.
  ghost function Listed(job: Job, order: seq<nat>): seq<nat> {
    Flatten(gpu => PagesOf(job, gpu), order)
  }

  ghost function Shootdowns(job: Job, n: nat): seq<Req>
    requires AccessingInRange(job, n)
  {
    seq(|job.accessing|, i requires 0 <= i < |job.accessing| => Shootdown(job.accessing[i] - 1, VAddrs(job, n)))
  }

  ghost function Restarts(job: Job, n: nat): seq<Req>
    requires AccessingInRange(job, n)
  {
    seq(|job.accessing|, i requires 0 <= i < |job.accessing| => Restart(job.accessing[i] - 1))
  }

  ghost function CopiesTo(gpu: nat, vAddrs: seq<nat>): seq<Req> {
    seq(|vAddrs|, i requires 0 <= i < |vAddrs| => Copy(gpu, vAddrs[i]))
  }

  // The requests to copy, for the GPUs in some order.
  ghost function Copies(job: Job, order: seq<nat>): seq<Req> {
    Flatten(gpu => CopiesTo(gpu, PagesOf(job, gpu)), order)
  }

  // The order in which a pass over the map of pages meets the requesting GPUs is arbitrary.
  ghost predicate IsOrder(job: Job, n: nat, order: seq<nat>) {
    multiset(order) == multiset(Requesting(job, n))
  }

  // ---------- what the driver does ----------

  ghost function ParseFromMMU(d: Driver, job: Job): Driver
    requires !d.handling
  {
    d.(current := Some(job), handling := true,
       toSend := d.toSend + Drains(d.gpus), drainAck := d.drainAck + d.gpus)
  }

  ghost function ProcessDrainRsp(d: Driver): Driver
    requires d.drainAck == 1 ==> d.current.Some? && AccessingInRange(d.current.value, d.gpus)
  {
    if d.drainAck != 1 then d.(drainAck := d.drainAck - 1)
    else
      d.(drainAck := 0, shootAck := |d.current.value.accessing|,
         toSend := d.toSend + Shootdowns(d.current.value, d.gpus))
  }

  ghost function ProcessShootdownRsp(d: Driver, order: seq<nat>): Driver
    requires d.shootAck == 1 ==> d.current.Some?
  {
    if d.shootAck != 1 then d.(shootAck := d.shootAck - 1)
    else
      d.(shootAck := 0, toCP := d.toCP + Copies(d.current.value, order),
         copyAck := d.copyAck + |Copies(d.current.value, order)|)
  }

  ghost function ProcessCopyRsp(d: Driver, order: seq<nat>): Driver
    requires d.copyAck == 1 ==> d.current.Some? && AccessingInRange(d.current.value, d.gpus)
  {
    if d.copyAck != 1 then d.(copyAck := d.copyAck - 1, migratingOne := false)
    else
      d.(copyAck := 0, migratingOne := false,
         restartAck := d.restartAck + |d.current.value.accessing|,
         toSend := d.toSend + Restarts(d.current.value, d.gpus),
         toMMU := Some(Listed(d.current.value, order)))
  }

  ghost function ProcessRestartRsp(d: Driver): Driver {
    if d.restartAck != 1 then d.(restartAck := d.restartAck - 1)
    else d.(restartAck := 0, undrainAck := d.undrainAck + d.gpus, toSend := d.toSend + Undrains(d.gpus))
  }

  ghost function ProcessUndrainRsp(d: Driver): Driver {
    if d.undrainAck != 1 then d.(undrainAck := d.undrainAck - 1)
    else d.(undrainAck := 0, current := None, handling := false)
  }

  ghost predicate CanAnswer(d: Driver, r: Req, order: seq<nat>) {
    match r
    case Drain(_) => d.drainAck == 1 ==> d.current.Some? && AccessingInRange(d.current.value, d.gpus)
    case Shootdown(_, _) => d.shootAck == 1 ==> d.current.Some? && IsOrder(d.current.value, d.gpus, order)
    case Copy(_, _) => d.copyAck == 1 ==>
      d.current.Some? && AccessingInRange(d.current.value, d.gpus) && IsOrder(d.current.value, d.gpus, order)
    case Restart(_) => true
    case Undrain(_) => true
  }

  // Handling the answer to a request.
  ghost function ProcessReturn(d: Driver, r: Req, order: seq<nat>): Driver
    requires CanAnswer(d, r, order)
  {
    match r
    case Drain(_) => ProcessDrainRsp(d)
    case Shootdown(_, _) => ProcessShootdownRsp(d, order)
    case Copy(_, _) => ProcessCopyRsp(d, order)
    case Restart(_) => ProcessRestartRsp(d)
    case Undrain(_) => ProcessUndrainRsp(d)
  }

  // ---------- the driver in its environment ----------

  // The requests under way, the answers under way, the requests answered and processed for
  // the current job, what the MMU asked and what it was told.
  datatype Sys = Sys(
    d: Driver,
    mmuQueue: seq<Job>,
    waiting: bool,
    network: multiset<Req>,
    returned: multiset<Req>,
    done: multiset<Req>,
    asked: seq<Job>,
    answers: seq<seq<nat>>)

  datatype Action =
    | MmuAsks(job: Job)
    | Parse
    | SendToGPUs
    | SendToMMU
    | SendToCP
    | Answer(r: Req)
    | Process(r: Req, order: seq<nat>)

  // A job with at least one GPU, at least one accessing GPU and at least one requested page.
  ghost predicate Good(job: Job, n: nat) {
    n > 0 && AccessingInRange(job, n) && job.accessing != [] && VAddrs(job, n) != []
  }

  ghost predicate Enabled(s: Sys, a: Action) {
    match a
    case MmuAsks(job) => !s.waiting && AccessingInRange(job, s.d.gpus)
    case Parse => !s.d.handling && s.mmuQueue != []
    case SendToGPUs => s.d.toSend != []
    case SendToMMU => s.d.toMMU.Some?
    case SendToCP => s.d.toCP != [] && !s.d.migratingOne
    case Answer(r) => r in s.network
    case Process(r, order) =>
      r in s.returned && (s.d.current.Some? ==> IsOrder(s.d.current.value, s.d.gpus, order))
  }

  // The driver never dereferences a missing request, and never counts below zero.
  ghost predicate Safe(s: Sys, a: Action) {
    a.Process? ==> s.d.current.Some? && CanAnswer(s.d, a.r, a.order) && AckFor(s.d, a.r) > 0
  }

  ghost function AckFor(d: Driver, r: Req): int {
    match r
    case Drain(_) => d.drainAck
    case Shootdown(_, _) => d.shootAck
    case Copy(_, _) => d.copyAck
    case Restart(_) => d.restartAck
    case Undrain(_) => d.undrainAck
  }

  ghost function Apply(s: Sys, a: Action): Sys
    requires Enabled(s, a) && Safe(s, a)
  {
    var d := s.d;
    match a
    case MmuAsks(job) => s.(mmuQueue := s.mmuQueue + [job], waiting := true, asked := s.asked + [job])
    case Parse => s.(d := ParseFromMMU(d, s.mmuQueue[0]), mmuQueue := s.mmuQueue[1..], done := multiset{})
    case SendToGPUs => s.(d := d.(toSend := d.toSend[1..]), network := s.network + multiset{d.toSend[0]})
    case SendToMMU => s.(d := d.(toMMU := None), answers := s.answers + [d.toMMU.value], waiting := false)
    case SendToCP =>
      s.(d := d.(toCP := d.toCP[1..], migratingOne := true), network := s.network + multiset{d.toCP[0]})
    case Answer(r) => s.(network := s.network - multiset{r}, returned := s.returned + multiset{r})
    case Process(r, order) =>
      s.(d := ProcessReturn(d, r, order), returned := s.returned - multiset{r}, done := s.done + multiset{r})
  }

  ghost predicate Init(s: Sys) {
    && s.d == Driver(s.d.gpus, None, false, [], [], false, None, 0, 0, 0, 0, 0)
    && s == Sys(s.d, [], false, multiset{}, multiset{}, multiset{}, [], [])
  }

  ghost predicate Run(run: seq<Sys>, actions: seq<Action>) {
    && |run| == |actions| + 1 && Init(run[0])
    && forall i :: 0 <= i < |actions| ==>
         Enabled(run[i], actions[i]) && (Safe(run[i], actions[i]) ==> run[i + 1] == Apply(run[i], actions[i]))
  }

  // ---------- the invariant ----------

  datatype Phase = Idle | Draining | Shooting | Copying | Restarting | Undraining

  ghost function PhaseOf(d: Driver): Phase {
    if d.drainAck > 0 then Draining
    else if d.shootAck > 0 then Shooting
    else if d.copyAck > 0 then Copying
    else if d.restartAck > 0 then Restarting
    else if d.undrainAck > 0 then Undraining
    else Idle
  }

  // The requests a phase consists of.
  ghost function Work(job: Job, n: nat, k: Phase): multiset<Req>
    requires AccessingInRange(job, n)
  {
    match k
    case Idle => multiset{}
    case Draining => multiset(Drains(n))
    case Shooting => multiset(Shootdowns(job, n))
    case Copying => multiset(Copies(job, Requesting(job, n)))
    case Restarting => multiset(Restarts(job, n))
    case Undraining => multiset(Undrains(n))
  }

  ghost function Rank(k: Phase): nat {
    match k
    case Idle => 0
    case Draining => 1
    case Shooting => 2
    case Copying => 3
    case Restarting => 4
    case Undraining => 5
  }

  ghost function PhaseAt(rank: nat): Phase {
    match rank
    case 1 => Draining
    case 2 => Shooting
    case 3 => Copying
    case 4 => Restarting
    case 5 => Undraining
    case _ => Idle
  }

  // The requests of the phases before one.
  ghost function Past(job: Job, n: nat, rank: nat): multiset<Req>
    requires AccessingInRange(job, n)
  {
    if rank <= 1 then multiset{} else Past(job, n, rank - 1) + Work(job, n, PhaseAt(rank - 1))
  }

  ghost function AllWork(job: Job, n: nat): multiset<Req>
    requires AccessingInRange(job, n)
  {
    Past(job, n, 6)
  }

  // The requests that are not answered and processed yet, wherever they are.
  ghost function Pending(s: Sys): multiset<Req> {
    multiset(s.d.toSend) + multiset(s.d.toCP) + s.network + s.returned
  }

  ghost function Ack(d: Driver, k: Phase): int {
    match k
    case Idle => 0
    case Draining => d.drainAck
    case Shooting => d.shootAck
    case Copying => d.copyAck
    case Restarting => d.restartAck
    case Undraining => d.undrainAck
  }

  ghost predicate OnlyAck(d: Driver, k: Phase) {
    && (k != Draining ==> d.drainAck == 0)
    && (k != Shooting ==> d.shootAck == 0)
    && (k != Copying ==> d.copyAck == 0)
    && (k != Restarting ==> d.restartAck == 0)
    && (k != Undraining ==> d.undrainAck == 0)
  }

  // The requests of the phase are pending or done, and those of the phases before are done.
  ghost predicate Balanced(job: Job, n: nat, k: Phase, pending: multiset<Req>, done: multiset<Req>)
    requires AccessingInRange(job, n)
  {
    && |pending| > 0 && pending <= Work(job, n, k)
    && pending + done == Past(job, n, Rank(k)) + Work(job, n, k)
  }

  // What a job must contain for the driver to have come as far as a phase.
  ghost predicate Reached(job: Job, n: nat, k: Phase) {
    && AccessingInRange(job, n) && n > 0
    && (Rank(k) >= Rank(Shooting) ==> job.accessing != [])
    && (Rank(k) >= Rank(Copying) ==> VAddrs(job, n) != [])
  }

  // Within a phase, its counter is the number of its requests still unanswered, all other
  // counters are zero, and every request of the earlier phases was answered.
  ghost predicate InPhase(s: Sys, k: Phase) {
    PhaseFacts(s.d, k, Pending(s), s.done, |s.network| + |s.returned|)
  }

  ghost predicate PhaseFacts(d: Driver, k: Phase, pending: multiset<Req>, done: multiset<Req>, sent: nat) {
    && OnlyAck(d, k) && Ack(d, k) == |pending|
    && if k == Idle then !d.handling && d.current.None? && !d.migratingOne
       else
         && d.handling && d.current.Some? && Reached(d.current.value, d.gpus, k)
         && Balanced(d.current.value, d.gpus, k, pending, done)
         && (k != Copying ==> d.toCP == [] && !d.migratingOne)
         && (k == Copying ==> d.toSend == [] && sent == if d.migratingOne then 1 else 0)
  }

  // What the MMU knows: it waits for the answer to the job it asked last, and every earlier
  // job was answered with exactly its pages.
  ghost predicate MmuOk(s: Sys) {
    var d := s.d;
    var k := PhaseOf(d);
    && |s.asked| == |s.answers| + (if s.waiting then 1 else 0)
    && (forall i :: 0 <= i < |s.asked| ==> AccessingInRange(s.asked[i], d.gpus))
    && (forall i :: 0 <= i < |s.answers| ==> IsAnswer(s.asked[i], d.gpus, s.answers[i]))
    && |s.mmuQueue| <= 1
    && (s.mmuQueue != [] ==> s.waiting && s.mmuQueue[0] == s.asked[|s.asked| - 1])
    && (k in {Draining, Shooting, Copying} ==> s.waiting && d.current == Some(s.asked[|s.asked| - 1]))
    && (d.toMMU.Some? ==> s.waiting && IsAnswer(s.asked[|s.asked| - 1], d.gpus, d.toMMU.value))
    && (s.waiting ==> s.asked != [] && Unanswered(s) == 1)
  }

  // The places where the job that the MMU waits for may be: still to be parsed, being worked
  // on, or answered but not sent.
  ghost function Unanswered(s: Sys): nat {
    |s.mmuQueue| + (if PhaseOf(s.d) in {Draining, Shooting, Copying} then 1 else 0) + (if s.d.toMMU.Some? then 1 else 0)
  }

  // An answer lists each requested page as often as it was requested.
  ghost predicate IsAnswer(job: Job, n: nat, answer: seq<nat>) {
    Good(job, n) && multiset(answer) == multiset(VAddrs(job, n))
  }

  // The driver waits for answers that nobody owes it: a phase turned out to have no requests.
  ghost predicate Wedged(s: Sys) {
    && s.d.handling && OnlyAck(s.d, Idle) && Pending(s) == multiset{}
    && s.waiting && s.mmuQueue == [] && s.d.toMMU.None?
    && |s.asked| == |s.answers| + 1
    && (forall i :: 0 <= i < |s.answers| ==> IsAnswer(s.asked[i], s.d.gpus, s.answers[i]))
    && !Good(s.asked[|s.asked| - 1], s.d.gpus)
  }

  ghost predicate Live(s: Sys) {
    InPhase(s, PhaseOf(s.d)) && MmuOk(s)
  }

  ghost predicate Inv(s: Sys) {
    Live(s) || Wedged(s)
  }

  // ---------- the order of a pass over the pages does not matter ----------

  lemma {:induction false} FlattenConcat<T>(f: nat -> seq<T>, a: seq<nat>, b: seq<nat>)
    ensures Flatten(f, a + b) == Flatten(f, a) + Flatten(f, b)
  {
    if a == [] {
      assert a + b == b;
    } else {
      assert (a + b)[1..] == a[1..] + b;
      FlattenConcat(f, a[1..], b);
    }
  }

  lemma FlattenMore<T>(f: nat -> seq<T>, order: seq<nat>, g: nat)
    ensures Flatten(f, order + [g]) == Flatten(f, order) + f(g)
  {
    FlattenConcat(f, order, [g]);
    assert Flatten(f, [g]) == f(g) + Flatten(f, []);
  }

  lemma CopiesMore(job: Job, order: seq<nat>, g: nat)
    ensures Copies(job, order + [g]) == Copies(job, order) + CopiesTo(g, PagesOf(job, g))
  {
    FlattenMore(gpu => CopiesTo(gpu, PagesOf(job, gpu)), order, g);
  }

  lemma ListedMore(job: Job, order: seq<nat>, g: nat)
    ensures Listed(job, order + [g]) == Listed(job, order) + PagesOf(job, g)
  {
    FlattenMore(gpu => PagesOf(job, gpu), order, g);
  }

  lemma {:induction false} AddrsAreRequested(job: Job, n: nat)
    ensures VAddrs(job, n) == Requested(job, n)
  {
    if n == 0 {
      assert Listed(job, []) == [];
    } else {
      AddrsAreRequested(job, n - 1);
      if n in job.pages {
        ListedMore(job, Requesting(job, n - 1), n - 1);
      } else {
        assert Requesting(job, n) == Requesting(job, n - 1);
      }
    }
  }

  // Taking one occurrence out of an order.
  lemma FlattenPick<T>(f: nat -> seq<T>, x: seq<nat>, v: nat, y: seq<nat>)
    ensures multiset(x + [v] + y) == multiset{v} + multiset(x + y)
    ensures multiset(Flatten(f, x + [v] + y)) == multiset(f(v)) + multiset(Flatten(f, x + y))
  {
    assert x + [v] + y == x + ([v] + y);
    FlattenConcat(f, x, [v] + y);
    FlattenConcat(f, x, y);
    assert ([v] + y)[1..] == y;
  }

  lemma FlattenFirst<T>(f: nat -> seq<T>, v: nat, rest: seq<nat>)
    ensures multiset([v] + rest) == multiset{v} + multiset(rest)
    ensures multiset(Flatten(f, [v] + rest)) == multiset(f(v)) + multiset(Flatten(f, rest))
  {
    assert ([v] + rest)[1..] == rest;
  }

  lemma Pick(a: seq<nat>, v: nat) returns (x: seq<nat>, y: seq<nat>)
    requires v in multiset(a)
    ensures a == x + [v] + y && multiset(x + y) == multiset(a) - multiset{v}
  {
    var j :| 0 <= j < |a| && a[j] == v;
    x, y := a[..j], a[j + 1..];
    assert a == x + [v] + y;
  }

  lemma {:induction false} FlattenPermutes<T>(f: nat -> seq<T>, a: seq<nat>, b: seq<nat>)
    requires multiset(a) == multiset(b)
    ensures multiset(Flatten(f, a)) == multiset(Flatten(f, b))
    decreases |a|
  {
    if a == [] {
      assert |multiset(b)| == 0;
      assert b == [];
    } else {
      hide Flatten;
      var v, rest := a[0], a[1..];
      FlattenFirst(f, v, rest);
      assert a == [v] + rest;
      var x, y := Pick(b, v);
      FlattenPick(f, x, v, y);
      FlattenPermutes(f, rest, x + y);
    }
  }

  // Every pass over the map copies and lists the same pages.
  lemma AnyOrder(job: Job, n: nat, order: seq<nat>)
    requires IsOrder(job, n, order)
    ensures multiset(Copies(job, order)) == multiset(Copies(job, Requesting(job, n)))
    ensures multiset(Listed(job, order)) == multiset(VAddrs(job, n))
  {
    FlattenPermutes(gpu => CopiesTo(gpu, PagesOf(job, gpu)), order, Requesting(job, n));
    FlattenPermutes(gpu => PagesOf(job, gpu), order, Requesting(job, n));
  }

  // There are as many copies as pages.
  lemma {:induction false} CopiesPerPage(job: Job, order: seq<nat>)
    ensures |Copies(job, order)| == |Listed(job, order)|
  {
    if order != [] {
      CopiesPerPage(job, order[1..]);
    }
  }

  // ---------- preservation ----------

  // The phase a request belongs to.
  ghost function KindOf(r: Req): Phase {
    match r
    case Drain(_) => Draining
    case Shootdown(_, _) => Shooting
    case Copy(_, _) => Copying
    case Restart(_) => Restarting
    case Undrain(_) => Undraining
  }

  lemma {:induction false} CopiesAreCopies(job: Job, order: seq<nat>, r: Req)
    ensures r in Copies(job, order) ==> r.Copy?
  {
    if order != [] {
      CopiesAreCopies(job, order[1..], r);
    }
  }

  lemma WorkKind(job: Job, n: nat, k: Phase, r: Req)
    requires AccessingInRange(job, n) && r in Work(job, n, k)
    ensures KindOf(r) == k
  {
    if k == Copying {
      CopiesAreCopies(job, Requesting(job, n), r);
    }
  }

  // A request whose answer arrives belongs to the current phase.
  lemma AnswersMatchPhase(s: Sys, r: Req)
    requires Live(s) && r in s.returned
    ensures PhaseOf(s.d) == KindOf(r) && AckFor(s.d, r) > 0
  {
    var k := PhaseOf(s.d);
    assert r in Pending(s);
    assert k != Idle;
    WorkKind(s.d.current.value, s.d.gpus, k, r);
  }

  // No answer finds the driver without a job or a counter at zero.
  lemma LiveIsSafe(s: Sys, a: Action)
    requires Live(s) && Enabled(s, a)
    ensures Safe(s, a)
  {
    if a.Process? {
      AnswersMatchPhase(s, a.r);
    }
  }

  // The phase depends on the driver only through its counters and lists.
  lemma PhaseFrame(d: Driver, e: Driver, k: Phase, pending: multiset<Req>, done: multiset<Req>, sent: nat, sent': nat)
    requires PhaseFacts(d, k, pending, done, sent)
    requires e == d.(toSend := e.toSend, toCP := e.toCP, migratingOne := e.migratingOne, toMMU := e.toMMU)
    requires k != Copying ==> e.toCP == d.toCP && e.migratingOne == d.migratingOne
    requires k == Copying ==> e.toSend == d.toSend && sent' == if e.migratingOne then 1 else 0
    ensures PhaseFacts(e, k, pending, done, sent')
  {
  }

  // Moving a request from one place to another keeps the phase.
  lemma MoveStep(s: Sys, r: Sys)
    requires Live(s) && Pending(r) == Pending(s)
    requires r == s.(d := r.d, network := r.network, returned := r.returned)
    requires r.d == s.d.(toSend := r.d.toSend, toCP := r.d.toCP, migratingOne := r.d.migratingOne)
    requires PhaseOf(s.d) != Copying ==> r.d.toCP == s.d.toCP && r.d.migratingOne == s.d.migratingOne
    requires PhaseOf(s.d) == Copying ==>
      r.d.toSend == s.d.toSend && |r.network| + |r.returned| == if r.d.migratingOne then 1 else 0
    ensures Live(r)
  {
    PhaseFrame(s.d, r.d, PhaseOf(s.d), Pending(s), s.done, |s.network| + |s.returned|, |r.network| + |r.returned|);
    MmuFrame(s, r);
  }

  lemma MmuFrame(s: Sys, r: Sys)
    requires MmuOk(s) && r.mmuQueue == s.mmuQueue && r.waiting == s.waiting && r.asked == s.asked &&
             r.answers == s.answers
    requires r.d.gpus == s.d.gpus && r.d.toMMU == s.d.toMMU && r.d.current == s.d.current &&
             PhaseOf(r.d) == PhaseOf(s.d)
    ensures MmuOk(r)
  {
  }

  lemma HeadOut(q: seq<Req>)
    requires q != []
    ensures multiset(q) == multiset{q[0]} + multiset(q[1..])
  {
    assert q == [q[0]] + q[1..];
  }

  lemma SendToGPUsStep(s: Sys)
    requires Live(s) && Enabled(s, SendToGPUs)
    ensures Live(Apply(s, SendToGPUs))
  {
    hide Work, Past, Balanced;
    HeadOut(s.d.toSend);
    assert Pending(Apply(s, SendToGPUs)) == Pending(s);
    MoveStep(s, Apply(s, SendToGPUs));
  }

  lemma SendToCPStep(s: Sys)
    requires Live(s) && Enabled(s, SendToCP)
    ensures Live(Apply(s, SendToCP))
  {
    hide Work, Past, Balanced;
    HeadOut(s.d.toCP);
    assert Pending(Apply(s, SendToCP)) == Pending(s);
    MoveStep(s, Apply(s, SendToCP));
  }

  lemma Arrives(s: Sys, q: Req)
    requires q in s.network
    ensures var r := s.(network := s.network - multiset{q}, returned := s.returned + multiset{q});
            Pending(r) == Pending(s) && |r.network| + |r.returned| == |s.network| + |s.returned|
  {
    assert s.network == s.network - multiset{q} + multiset{q};
  }

  lemma AnswerStep(s: Sys, q: Req)
    requires Live(s) && Enabled(s, Answer(q))
    ensures Live(Apply(s, Answer(q)))
  {
    Arrives(s, q);
    MoveStep(s, s.(network := s.network - multiset{q}, returned := s.returned + multiset{q}));
  }

  lemma MmuAsksStep(s: Sys, job: Job)
    requires Live(s) && Enabled(s, MmuAsks(job))
    ensures Live(Apply(s, MmuAsks(job)))
  {
    assert Pending(Apply(s, MmuAsks(job))) == Pending(s);
    MmuAsked(s, job);
  }

  lemma MmuAsked(s: Sys, job: Job)
    requires MmuOk(s) && Enabled(s, MmuAsks(job))
    ensures MmuOk(Apply(s, MmuAsks(job)))
  {
  }

  lemma SendToMMUStep(s: Sys)
    requires Live(s) && Enabled(s, SendToMMU)
    ensures Live(Apply(s, SendToMMU))
  {
    var sent := |s.network| + |s.returned|;
    PhaseFrame(s.d, Apply(s, SendToMMU).d, PhaseOf(s.d), Pending(s), s.done, sent, sent);
    assert Pending(Apply(s, SendToMMU)) == Pending(s);
    MmuAnswered(s);
  }

  lemma MmuAnswered(s: Sys)
    requires MmuOk(s) && Enabled(s, SendToMMU)
    ensures MmuOk(Apply(s, SendToMMU))
  {
  }

  lemma ParseStep(s: Sys)
    requires Live(s) && Enabled(s, Parse) && s.d.gpus > 0
    ensures Live(Apply(s, Parse))
  {
    hide InPhase, MmuOk, Apply, Enabled, PhaseOf;
    ParsePhase(s);
    ParseMmu(s);
  }

  lemma ParsePhase(s: Sys)
    requires Live(s) && Enabled(s, Parse) && s.d.gpus > 0
    ensures PhaseOf(s.d) == Idle && PhaseOf(Apply(s, Parse).d) == Draining && InPhase(Apply(s, Parse), Draining)
  {
    hide Requesting, VAddrs, IsAnswer, Drains, Work, Past;
    var r := Apply(s, Parse);
    IdleIsEmpty(s);
    assert AccessingInRange(s.mmuQueue[0], s.d.gpus);
    assert [] + Drains(s.d.gpus) == Drains(s.d.gpus);
    DrainingStarts(s.mmuQueue[0], s.d.gpus, Pending(r));
  }

  lemma IdleIsEmpty(s: Sys)
    requires InPhase(s, PhaseOf(s.d)) && !s.d.handling
    ensures PhaseOf(s.d) == Idle && OnlyAck(s.d, Idle) && !s.d.migratingOne
    ensures s.d.toSend == [] && s.d.toCP == [] && s.network == multiset{} && s.returned == multiset{}
  {
    hide Reached, Balanced;
    assert |multiset(s.d.toSend)| == 0 && |multiset(s.d.toCP)| == 0;
  }

  lemma DrainingStarts(job: Job, n: nat, pending: multiset<Req>)
    requires AccessingInRange(job, n) && n > 0 && pending == multiset(Drains(n))
    ensures |pending| == n && Reached(job, n, Draining) && Balanced(job, n, Draining, pending, multiset{})
  {
    assert Past(job, n, 2) == Past(job, n, 1) + Work(job, n, Draining);
  }

  lemma ParseMmu(s: Sys)
    requires MmuOk(s) && Enabled(s, Parse) && PhaseOf(s.d) == Idle && PhaseOf(Apply(s, Parse).d) == Draining
    ensures MmuOk(Apply(s, Parse))
  {
    hide Requesting, VAddrs, IsAnswer, PhaseOf, Drains;
  }

  // Without a GPU, no answer will ever end the draining.
  lemma ParseWedges(s: Sys)
    requires Live(s) && Enabled(s, Parse) && s.d.gpus == 0
    ensures Wedged(Apply(s, Parse))
  {
    assert Apply(s, Parse).d.toSend == s.d.toSend;
  }

  // Taking an answer out of those that arrived.
  lemma TakeAnswer(s: Sys, r: Sys, q: Req)
    requires q in s.returned && r.returned == s.returned - multiset{q} && r.network == s.network
    requires r.d.toSend == s.d.toSend && r.d.toCP == s.d.toCP
    ensures q in Pending(s) && Pending(r) == Pending(s) - multiset{q}
    ensures |s.network| + |s.returned| == |r.network| + |r.returned| + 1
  {
    assert s.returned == r.returned + multiset{q};
    assert Pending(s) == Pending(r) + multiset{q};
  }

  // An answer that is not the last one of its phase.
  lemma MidStep(s: Sys, r: Sys, q: Req, k: Phase)
    requires k != Idle && InPhase(s, k) && |Pending(s)| > 1 && q in s.returned
    requires r.network == s.network && r.returned == s.returned - multiset{q} && r.done == s.done + multiset{q}
    requires OnlyAck(r.d, k) && Ack(r.d, k) == Ack(s.d, k) - 1
    requires r.d.gpus == s.d.gpus && r.d.current == s.d.current && r.d.handling == s.d.handling
    requires r.d.toSend == s.d.toSend && r.d.toCP == s.d.toCP
    requires r.d.migratingOne == (s.d.migratingOne && k != Copying)
    ensures InPhase(r, k)
  {
    TakeAnswer(s, r, q);
    MidFacts(s.d, r.d, k, Pending(s), Pending(r), s.done, r.done, q,
             |s.network| + |s.returned|, |r.network| + |r.returned|);
  }

  lemma ProcessMid(s: Sys, q: Req, order: seq<nat>, k: Phase)
    requires InPhase(s, k) && k == PhaseOf(s.d) == KindOf(q) && |Pending(s)| > 1 && q in s.returned
    requires CanAnswer(s.d, q, order)
    ensures Enabled(s, Process(q, order)) ==> Safe(s, Process(q, order)) ==>
      InPhase(Apply(s, Process(q, order)), k) && PhaseOf(Apply(s, Process(q, order)).d) == k
  {
    CountDown(s.d, q, order);
    if Enabled(s, Process(q, order)) && Safe(s, Process(q, order)) {
      MidStep(s, Apply(s, Process(q, order)), q, k);
    }
  }

  lemma ProcessMidMmu(s: Sys, q: Req, order: seq<nat>)
    requires MmuOk(s) && KindOf(q) == PhaseOf(s.d) && OnlyAck(s.d, PhaseOf(s.d)) && Ack(s.d, PhaseOf(s.d)) > 1
    requires Enabled(s, Process(q, order)) && Safe(s, Process(q, order))
    ensures MmuOk(Apply(s, Process(q, order)))
  {
    CountDown(s.d, q, order);
    MmuFrame(s, Apply(s, Process(q, order)));
  }

  lemma MidFacts(d: Driver, e: Driver, k: Phase, pending: multiset<Req>, pending': multiset<Req>,
                 done: multiset<Req>, done': multiset<Req>, q: Req, sent: nat, sent': nat)
    requires k != Idle && PhaseFacts(d, k, pending, done, sent) && q in pending && |pending| > 1 && sent == sent' + 1
    requires pending' == pending - multiset{q} && done' == done + multiset{q}
    requires OnlyAck(e, k) && Ack(e, k) == Ack(d, k) - 1
    requires e.gpus == d.gpus && e.current == d.current && e.handling == d.handling
    requires e.toSend == d.toSend && e.toCP == d.toCP && e.migratingOne == (d.migratingOne && k != Copying)
    ensures PhaseFacts(e, k, pending', done', sent')
  {
    BalancedMid(d.current.value, d.gpus, k, pending, done, q);
  }

  // Counting down without reaching zero.
  lemma CountDown(d: Driver, q: Req, order: seq<nat>)
    requires KindOf(q) == PhaseOf(d) && OnlyAck(d, PhaseOf(d)) && Ack(d, PhaseOf(d)) > 1 && CanAnswer(d, q, order)
    ensures var e, k := ProcessReturn(d, q, order), PhaseOf(d);
            && PhaseOf(e) == k && OnlyAck(e, k) && Ack(e, k) == Ack(d, k) - 1
            && e.gpus == d.gpus && e.current == d.current && e.handling == d.handling && e.toMMU == d.toMMU
            && e.toSend == d.toSend && e.toCP == d.toCP && e.migratingOne == (d.migratingOne && k != Copying)
  {
  }

  lemma BalancedMid(job: Job, n: nat, k: Phase, pending: multiset<Req>, done: multiset<Req>, q: Req)
    requires AccessingInRange(job, n) && Balanced(job, n, k, pending, done) && q in pending && |pending| > 1
    ensures Balanced(job, n, k, pending - multiset{q}, done + multiset{q})
  {
    assert pending - multiset{q} + (done + multiset{q}) == pending + done;
  }

  lemma Single(pending: multiset<Req>, q: Req)
    requires q in pending && |pending| == 1
    ensures pending == multiset{q}
  {
    assert |pending - multiset{q}| == 0;
  }

  // After the last answer of a phase, all requests up to that phase are done.
  lemma BalancedLast(job: Job, n: nat, k: Phase, pending: multiset<Req>, done: multiset<Req>, q: Req)
    requires AccessingInRange(job, n) && k != Idle && Balanced(job, n, k, pending, done) && q in pending &&
             |pending| == 1
    ensures pending == multiset{q} && done + multiset{q} == Past(job, n, Rank(k) + 1)
  {
    hide Work;
    Single(pending, q);
    assert PhaseAt(Rank(k)) == k;
  }

  lemma NothingElse(s: Sys, q: Req)
    requires q in s.returned && Pending(s) == multiset{q}
    ensures s.d.toSend == [] && s.d.toCP == [] && s.network == multiset{} && s.returned == multiset{q}
  {
    var others := multiset(s.d.toSend) + multiset(s.d.toCP) + s.network + (s.returned - multiset{q});
    assert Pending(s) == others + multiset{q};
    assert |others| == 0;
    assert |multiset(s.d.toSend)| == 0 && |multiset(s.d.toCP)| == 0 && |s.network| == 0;
    assert s.returned == s.returned - multiset{q} + multiset{q};
  }

  // The next phase begins with all its requests pending.
  lemma BalancedFirst(job: Job, n: nat, k: Phase, done: multiset<Req>)
    requires Reached(job, n, k) && k != Idle && done == Past(job, n, Rank(k))
    ensures Balanced(job, n, k, Work(job, n, k), done)
  {
    CopiesPerPage(job, Requesting(job, n));
  }

  // Counting down to zero makes and counts the requests of the next phase.
  ghost predicate TurnedOver(d: Driver, e: Driver, next: Phase)
    requires d.current.Some? && AccessingInRange(d.current.value, d.gpus)
  {
    && e.gpus == d.gpus && OnlyAck(e, next)
    && Ack(e, next) == |multiset(e.toSend) + multiset(e.toCP)|
    && multiset(e.toSend) + multiset(e.toCP) == Work(d.current.value, d.gpus, next)
    && (if next == Copying then e.toSend == [] else e.toCP == [])
    && (if next == Idle then e.current.None? && !e.handling else e.current == d.current && e.handling == d.handling)
  }

  ghost predicate LastOfPhase(d: Driver, q: Req, order: seq<nat>) {
    && d.current.Some? && AccessingInRange(d.current.value, d.gpus) && IsOrder(d.current.value, d.gpus, order)
    && KindOf(q) == PhaseOf(d) && OnlyAck(d, PhaseOf(d)) && Ack(d, PhaseOf(d)) == 1 && d.toSend == d.toCP == []
  }

  lemma TurnOverCopies(d: Driver, q: Req, order: seq<nat>)
    requires LastOfPhase(d, q, order) && q.Shootdown?
    ensures TurnedOver(d, ProcessShootdownRsp(d, order), Copying)
  {
    hide Copies, Requesting;
    AnyOrder(d.current.value, d.gpus, order);
    assert ProcessShootdownRsp(d, order).toCP == Copies(d.current.value, order);
  }

  lemma TurnOverShootdowns(d: Driver, q: Req, order: seq<nat>)
    requires LastOfPhase(d, q, order) && q.Drain?
    ensures TurnedOver(d, ProcessReturn(d, q, order), Shooting)
  {
    hide VAddrs, Requesting, Past;
    assert ProcessReturn(d, q, order).toSend == Shootdowns(d.current.value, d.gpus);
  }

  lemma TurnOverRestarts(d: Driver, q: Req, order: seq<nat>)
    requires LastOfPhase(d, q, order) && q.Copy?
    ensures TurnedOver(d, ProcessReturn(d, q, order), Restarting)
  {
    assert ProcessReturn(d, q, order).toSend == Restarts(d.current.value, d.gpus);
  }

  lemma TurnOverUndrains(d: Driver, q: Req, order: seq<nat>)
    requires LastOfPhase(d, q, order) && q.Restart?
    ensures TurnedOver(d, ProcessReturn(d, q, order), Undraining)
  {
    assert ProcessReturn(d, q, order).toSend == Undrains(d.gpus);
  }

  lemma TurnOverIdle(d: Driver, q: Req, order: seq<nat>)
    requires LastOfPhase(d, q, order) && q.Undrain?
    ensures TurnedOver(d, ProcessReturn(d, q, order), Idle)
  {
  }

  lemma TurnOver(d: Driver, q: Req, order: seq<nat>)
    requires LastOfPhase(d, q, order)
    ensures TurnedOver(d, ProcessReturn(d, q, order), PhaseAt(Rank(PhaseOf(d)) + 1))
  {
    match q
    case Drain(_) => TurnOverShootdowns(d, q, order);
    case Shootdown(_, _) => TurnOverCopies(d, q, order);
    case Copy(_, _) => TurnOverRestarts(d, q, order);
    case Restart(_) => TurnOverUndrains(d, q, order);
    case Undrain(_) => TurnOverIdle(d, q, order);
  }

  // After a phase the flag for one page under way is clear, and the answer to the MMU is
  // made exactly when the copies are done.
  lemma TurnOverRest(d: Driver, q: Req, order: seq<nat>)
    requires LastOfPhase(d, q, order)
    ensures var e := ProcessReturn(d, q, order);
            && (PhaseOf(d) == Copying || !d.migratingOne ==> !e.migratingOne)
            && (if PhaseOf(d) == Copying then e.toMMU == Some(Listed(d.current.value, order)) else e.toMMU == d.toMMU)
  {
  }

  lemma TurnOverMmu(s: Sys, r: Sys, order: seq<nat>, k: Phase)
    requires MmuOk(s) && k == PhaseOf(s.d) && Rank(k) > 0 && r.d.gpus == s.d.gpus
    requires s.d.current.Some? && Reached(s.d.current.value, s.d.gpus, k)
    requires IsOrder(s.d.current.value, s.d.gpus, order)
    requires PhaseOf(r.d) == PhaseAt(Rank(k) + 1) && (PhaseOf(r.d) != Idle ==> r.d.current == s.d.current)
    requires r.mmuQueue == s.mmuQueue && r.waiting == s.waiting && r.asked == s.asked && r.answers == s.answers
    requires r.d.toMMU == if k == Copying then Some(Listed(s.d.current.value, order)) else s.d.toMMU
    ensures MmuOk(r)
  {
    if k == Copying {
      AnyOrder(s.d.current.value, s.d.gpus, order);
      assert IsAnswer(s.d.current.value, s.d.gpus, r.d.toMMU.value);
    }
  }

  // With nothing under way, the pending requests are the new phase's.
  lemma AllPendingNew(r: Sys)
    requires r.network == multiset{} && r.returned == multiset{}
    ensures Pending(r) == multiset(r.d.toSend) + multiset(r.d.toCP) && |r.network| + |r.returned| == 0
  {
  }

  lemma LastStep(d: Driver, r: Sys, next: Phase)
    requires d.current.Some? && AccessingInRange(d.current.value, d.gpus) && d.handling
    requires TurnedOver(d, r.d, next) && next != Draining && !r.d.migratingOne
    requires r.network == multiset{} && r.returned == multiset{}
    requires next != Idle ==>
      Reached(d.current.value, d.gpus, next) && r.done == Past(d.current.value, d.gpus, Rank(next))
    ensures InPhase(r, next) && PhaseOf(r.d) == next
  {
    AllPendingNew(r);
    if next != Idle {
      BalancedFirst(d.current.value, d.gpus, next, r.done);
    }
    if next != Copying {
      assert r.d.toCP == [];
    }
  }

  // The last answer of a phase.
  lemma ProcessLast(s: Sys, q: Req, order: seq<nat>, k: Phase)
    requires InPhase(s, k) && k == PhaseOf(s.d) == KindOf(q) && k != Idle && |Pending(s)| == 1 && q in s.returned
    requires CanAnswer(s.d, q, order) && IsOrder(s.d.current.value, s.d.gpus, order)
    ensures LastOfPhase(s.d, q, order) && s.network == multiset{} && s.returned == multiset{q}
    ensures s.done + multiset{q} == Past(s.d.current.value, s.d.gpus, Rank(k) + 1)
  {
    assert q in Pending(s);
    BalancedLast(s.d.current.value, s.d.gpus, k, Pending(s), s.done, q);
    NothingElse(s, q);
  }

  // The next phase is one that the job lets the driver reach.
  ghost predicate GoesOn(s: Sys, next: Phase) {
    next == Idle || (s.d.current.Some? && Reached(s.d.current.value, s.d.gpus, next))
  }

  lemma ProcessLastPhase(s: Sys, q: Req, order: seq<nat>, k: Phase)
    requires InPhase(s, k) && k == PhaseOf(s.d) == KindOf(q) && k != Idle && |Pending(s)| == 1
    requires Enabled(s, Process(q, order)) && Safe(s, Process(q, order)) && GoesOn(s, PhaseAt(Rank(k) + 1))
    ensures InPhase(Apply(s, Process(q, order)), PhaseAt(Rank(k) + 1))
    ensures PhaseOf(Apply(s, Process(q, order)).d) == PhaseAt(Rank(k) + 1)
  {
    ProcessLast(s, q, order, k);
    TurnOver(s.d, q, order);
    TurnOverRest(s.d, q, order);
    LastStep(s.d, Apply(s, Process(q, order)), PhaseAt(Rank(k) + 1));
  }

  lemma ProcessLastMmu(s: Sys, q: Req, order: seq<nat>, k: Phase)
    requires Live(s) && k == PhaseOf(s.d) == KindOf(q) && k != Idle && |Pending(s)| == 1
    requires Enabled(s, Process(q, order)) && Safe(s, Process(q, order))
    requires PhaseOf(Apply(s, Process(q, order)).d) == PhaseAt(Rank(k) + 1)
    ensures MmuOk(Apply(s, Process(q, order)))
  {
    ProcessLast(s, q, order, k);
    TurnOver(s.d, q, order);
    TurnOverRest(s.d, q, order);
    TurnOverMmu(s, Apply(s, Process(q, order)), order, k);
  }

  // Only the phases of shootdowns and copies can turn out empty.
  lemma EmptyPhase(job: Job, n: nat, k: Phase)
    requires Reached(job, n, k) && k != Idle && k != Undraining && !Reached(job, n, PhaseAt(Rank(k) + 1))
    ensures k in {Draining, Shooting} && !Good(job, n)
    ensures Work(job, n, PhaseAt(Rank(k) + 1)) == multiset{}
  {
    CopiesPerPage(job, Requesting(job, n));
  }

  lemma NothingPending(d: Driver, r: Sys, next: Phase)
    requires d.current.Some? && AccessingInRange(d.current.value, d.gpus) && TurnedOver(d, r.d, next)
    requires Work(d.current.value, d.gpus, next) == multiset{}
    requires r.network == multiset{} && r.returned == multiset{}
    ensures Pending(r) == multiset{} && OnlyAck(r.d, Idle)
  {
  }

  // A next phase without requests leaves the driver waiting for nothing.
  lemma ProcessWedges(s: Sys, q: Req, order: seq<nat>, k: Phase)
    requires Live(s) && k == PhaseOf(s.d) == KindOf(q) && k != Idle && |Pending(s)| == 1
    requires Enabled(s, Process(q, order)) && Safe(s, Process(q, order)) && !GoesOn(s, PhaseAt(Rank(k) + 1))
    ensures Wedged(Apply(s, Process(q, order)))
  {
    hide Past, Requesting, Copies, TurnedOver, LastOfPhase, Balanced;
    var r := Apply(s, Process(q, order));
    EmptyPhase(s.d.current.value, s.d.gpus, k);
    ProcessLast(s, q, order, k);
    TurnOver(s.d, q, order);
    TurnOverRest(s.d, q, order);
    NothingPending(s.d, r, PhaseAt(Rank(k) + 1));
  }

  lemma ProcessStep(s: Sys, q: Req, order: seq<nat>)
    requires Live(s) && Enabled(s, Process(q, order)) && Safe(s, Process(q, order))
    ensures Inv(Apply(s, Process(q, order)))
  {
    var k := PhaseOf(s.d);
    assert q in Pending(s);
    assert |Pending(s) - multiset{q}| == |Pending(s)| - 1;
    AnswersMatchPhase(s, q);
    if |Pending(s)| > 1 {
      ProcessMid(s, q, order, k);
      ProcessMidMmu(s, q, order);
    } else if GoesOn(s, PhaseAt(Rank(k) + 1)) {
      ProcessLastPhase(s, q, order, k);
      ProcessLastMmu(s, q, order, k);
    } else {
      ProcessWedges(s, q, order, k);
    }
  }

  // In a wedged state nothing can ever happen again.
  lemma WedgedIsDead(s: Sys, a: Action)
    requires Wedged(s)
    ensures !Enabled(s, a)
  {
    assert |Pending(s)| == 0;
    assert |multiset(s.d.toSend)| == 0 && |multiset(s.d.toCP)| == 0 && |s.network| == 0 && |s.returned| == 0;
  }

  lemma StepInv(s: Sys, a: Action)
    requires Inv(s) && Enabled(s, a)
    ensures Live(s) && Safe(s, a) && Inv(Apply(s, a))
  {
    if Wedged(s) {
      WedgedIsDead(s, a);
      assert false;
    } else {
      LiveStep(s, a);
    }
  }

  lemma LiveStep(s: Sys, a: Action)
    requires Live(s) && Enabled(s, a)
    ensures Safe(s, a) && Inv(Apply(s, a))
  {
    LiveIsSafe(s, a);
    match a
    case MmuAsks(job) => MmuAsksStep(s, job);
    case Parse => if s.d.gpus > 0 { ParseStep(s); } else { ParseWedges(s); }
    case SendToGPUs => SendToGPUsStep(s);
    case SendToMMU => SendToMMUStep(s);
    case SendToCP => SendToCPStep(s);
    case Answer(q) => AnswerStep(s, q);
    case Process(q, order) => ProcessStep(s, q, order);
  }

  lemma {:induction false} RunInv(run: seq<Sys>, actions: seq<Action>, i: nat)
    requires Run(run, actions) && i < |run|
    ensures Inv(run[i])
  {
    if i > 0 {
      RunInv(run, actions, i - 1);
      StepInv(run[i - 1], actions[i - 1]);
    }
  }
}

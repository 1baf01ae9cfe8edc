// What holds over every run of the page-migration protocol: safety of the phases, exact
// termination, and what is done when a job ends (mgpusim-V1/driver/driver.go).
module MigrationRuns {
  import opened Wrappers

  import opened PageMigration

  // ---------- safety ----------

  // No answer finds the driver without a job, and no counter goes below zero.
  lemma NeverPanics(run: seq<Sys>, actions: seq<Action>, i: nat)
    requires Run(run, actions) && i < |actions|
    ensures Safe(run[i], actions[i]) && run[i + 1] == Apply(run[i], actions[i])
  {
    RunInv(run, actions, i);
    StepInv(run[i], actions[i]);
  }

  // Every pending request belongs to the phase the driver is in.
  lemma PendingMatchesPhase(s: Sys, r: Req)
    requires Inv(s) && r in Pending(s)
    ensures Live(s) && KindOf(r) == PhaseOf(s.d)
  {
    if Wedged(s) {
      assert false;
    }
    var k := PhaseOf(s.d);
    assert k != Idle;
    WorkKind(s.d.current.value, s.d.gpus, k, r);
  }

  lemma AckIsPending(s: Sys)
    requires Inv(s)
    ensures OnlyAck(s.d, PhaseOf(s.d)) && Ack(s.d, PhaseOf(s.d)) == |Pending(s)|
  {
  }

  // Where all requests are of one kind, counting by kind gives all or nothing.
  lemma CountKind(pending: multiset<Req>, p: Phase, k: Phase, ofKind: multiset<Req>)
    requires forall r :: r in pending ==> KindOf(r) == p
    requires forall r :: ofKind[r] == if KindOf(r) == k then pending[r] else 0
    ensures |ofKind| == if k == p then |pending| else 0
  {
    if k == p {
      assert ofKind == pending;
    } else {
      assert ofKind == multiset{};
    }
  }

  // Each counter is the number of requests of its kind that are still unanswered.
  lemma CountersAreExact(run: seq<Sys>, actions: seq<Action>, i: nat, k: Phase, unanswered: multiset<Req>)
    requires Run(run, actions) && i < |run| && k != Idle
    requires forall r :: unanswered[r] == if KindOf(r) == k then Pending(run[i])[r] else 0
    ensures Ack(run[i].d, k) == |unanswered|
  {
    var s := run[i];
    RunInv(run, actions, i);
    AckIsPending(s);
    forall r | r in Pending(s) ensures KindOf(r) == PhaseOf(s.d) {
      PendingMatchesPhase(s, r);
    }
    CountKind(Pending(s), PhaseOf(s.d), k, unanswered);
  }

  lemma {:induction false} PastHasPhase(job: Job, n: nat, k: Phase, rank: nat)
    requires AccessingInRange(job, n) && 0 < Rank(k) < rank
    ensures Work(job, n, k) <= Past(job, n, rank)
  {
    assert PhaseAt(Rank(k)) == k;
    if Rank(k) + 1 < rank {
      PastHasPhase(job, n, k, rank - 1);
    }
  }

  // While a request of one phase is pending, every request of every earlier phase is done:
  // no shootdown before all drains, no copy before all shootdowns, no restart before all
  // copies, no un-drain before all restarts.
  lemma PhasesInOrder(run: seq<Sys>, actions: seq<Action>, i: nat, r: Req, k: Phase)
    requires Run(run, actions) && i < |run| && r in Pending(run[i]) && 0 < Rank(k) < Rank(KindOf(r))
    ensures var s := run[i];
            && s.d.current.Some? && AccessingInRange(s.d.current.value, s.d.gpus)
            && Work(s.d.current.value, s.d.gpus, k) <= s.done
            && forall q :: q in Pending(s) ==> KindOf(q) == KindOf(r)
  {
    var s := run[i];
    RunInv(run, actions, i);
    forall q | q in Pending(s) ensures KindOf(q) == PhaseOf(s.d) {
      PendingMatchesPhase(s, q);
    }
    PendingMatchesPhase(s, r);
    var job, n := s.d.current.value, s.d.gpus;
    PastHasPhase(job, n, k, Rank(KindOf(r)));
    DoneHasPast(job, n, KindOf(r), Pending(s), s.done, Work(job, n, k));
  }

  lemma DoneHasPast(job: Job, n: nat, k: Phase, pending: multiset<Req>, done: multiset<Req>, part: multiset<Req>)
    requires AccessingInRange(job, n) && Balanced(job, n, k, pending, done) && part <= Past(job, n, Rank(k))
    ensures part <= done
  {
    forall r ensures part[r] <= done[r] {
      assert (pending + done)[r] == (Past(job, n, Rank(k)) + Work(job, n, k))[r];
    }
  }

  // At most one page is being copied.
  lemma OnePageAtATime(run: seq<Sys>, actions: seq<Action>, i: nat, r: Req)
    requires Run(run, actions) && i < |run| && r.Copy? && r in run[i].network + run[i].returned
    ensures run[i].network + run[i].returned == multiset{r}
  {
    var s := run[i];
    RunInv(run, actions, i);
    assert r in Pending(s);
    PendingMatchesPhase(s, r);
    assert |s.network + s.returned| == 1;
    assert |s.network + s.returned - multiset{r}| == 0;
  }

  // ---------- what a job amounts to ----------

  lemma {:induction false} SameCount<A, B>(a: seq<A>, b: seq<B>, x: A, y: B)
    requires |a| == |b| && forall i :: 0 <= i < |a| ==> (a[i] == x <==> b[i] == y)
    ensures multiset(a)[x] == multiset(b)[y]
  {
    if a != [] {
      assert a == [a[0]] + a[1..] && b == [b[0]] + b[1..];
      assert multiset(a) == multiset{a[0]} + multiset(a[1..]);
      assert multiset(b) == multiset{b[0]} + multiset(b[1..]);
      SameCount(a[1..], b[1..], x, y);
    }
  }

  lemma Absent<A>(a: seq<A>, x: A)
    requires x !in a
    ensures multiset(a)[x] == 0
  {
    assert x !in multiset(a);
  }

  lemma {:induction false} OnceBelow(make: nat -> Req, n: nat, gpu: nat)
    requires forall i, j :: make(i) == make(j) ==> i == j
    ensures multiset(seq(n, i requires 0 <= i < n => make(i)))[make(gpu)] == if gpu < n then 1 else 0
  {
    var a := seq(n, i requires 0 <= i < n => make(i));
    if n > 0 {
      OnceBelow(make, n - 1, gpu);
      assert a == seq(n - 1, i requires 0 <= i < n - 1 => make(i)) + [make(n - 1)];
    }
  }

  lemma {:induction false} CopiesOfPage(job: Job, n: nat, gpu: nat, vAddr: nat)
    ensures multiset(Copies(job, Requesting(job, n)))[Copy(gpu, vAddr)] ==
            if gpu < n && gpu + 1 in job.pages then multiset(job.pages[gpu + 1])[vAddr] else 0
  {
    if n > 0 {
      CopiesOfPage(job, n - 1, gpu, vAddr);
      CopiesOnOneGPU(job, n - 1, gpu, vAddr);
      if n in job.pages {
        CopiesMore(job, Requesting(job, n - 1), n - 1);
      } else {
        assert PagesOf(job, n - 1) == [];
        assert Requesting(job, n) == Requesting(job, n - 1);
      }
    }
  }

  lemma CopiesOnOneGPU(job: Job, g: nat, gpu: nat, vAddr: nat)
    ensures multiset(CopiesTo(g, PagesOf(job, g)))[Copy(gpu, vAddr)] ==
            if g == gpu then multiset(PagesOf(job, g))[vAddr] else 0
  {
    if g == gpu {
      SameCount(CopiesTo(g, PagesOf(job, g)), PagesOf(job, g), Copy(gpu, vAddr), vAddr);
    } else {
      Absent(CopiesTo(g, PagesOf(job, g)), Copy(gpu, vAddr));
    }
  }

  // There is a GPU, somebody accesses, and some GPU asks for a page.
  ghost predicate HasWork(job: Job, n: nat) {
    n > 0 && job.accessing != [] && exists g :: 1 <= g <= n && g in job.pages && job.pages[g] != []
  }

  lemma {:induction false} SomeRequested(job: Job, n: nat)
    ensures Requested(job, n) != [] <==> exists g :: 1 <= g <= n && g in job.pages && job.pages[g] != []
  {
    if n > 0 {
      SomeRequested(job, n - 1);
    }
  }

  lemma GoodIff(job: Job, n: nat)
    requires AccessingInRange(job, n)
    ensures Good(job, n) <==> HasWork(job, n)
  {
    AddrsAreRequested(job, n);
    SomeRequested(job, n);
  }

  // How often the MMU asks for an address.
  ghost function Times(job: Job, n: nat, vAddr: nat): nat {
    if n == 0 then 0 else Times(job, n - 1, vAddr) + if n in job.pages then multiset(job.pages[n])[vAddr] else 0
  }

  lemma {:induction false} RequestedTimes(job: Job, n: nat, vAddr: nat)
    ensures multiset(Requested(job, n))[vAddr] == Times(job, n, vAddr)
  {
    if n > 0 {
      RequestedTimes(job, n - 1, vAddr);
    }
  }

  // An answer lists each address as often as the MMU asks for it.
  ghost predicate Answers(job: Job, n: nat, answer: seq<nat>) {
    forall v :: multiset(answer)[v] == Times(job, n, v)
  }

  lemma AnswerIsExact(job: Job, n: nat, answer: seq<nat>)
    requires IsAnswer(job, n, answer)
    ensures Answers(job, n, answer) && HasWork(job, n)
  {
    GoodIff(job, n);
    AddrsAreRequested(job, n);
    forall v ensures multiset(answer)[v] == Times(job, n, v) {
      RequestedTimes(job, n, v);
    }
  }

  // How often a request occurs in the work of its own phase.
  ghost function Expected(job: Job, n: nat, r: Req): nat {
    match r
    case Drain(gpu) => if gpu < n then 1 else 0
    case Shootdown(gpu, vAddrs) => if vAddrs == Requested(job, n) then multiset(job.accessing)[gpu + 1] else 0
    case Copy(gpu, vAddr) => if gpu < n && gpu + 1 in job.pages then multiset(job.pages[gpu + 1])[vAddr] else 0
    case Restart(gpu) => multiset(job.accessing)[gpu + 1]
    case Undrain(gpu) => if gpu < n then 1 else 0
  }

  lemma OncePerGPU(n: nat, gpu: nat)
    ensures multiset(Drains(n))[Drain(gpu)] == multiset(Undrains(n))[Undrain(gpu)] == if gpu < n then 1 else 0
  {
    OnceBelow((i: nat) => Drain(i), n, gpu);
    OnceBelow((i: nat) => Undrain(i), n, gpu);
    assert Drains(n) == seq(n, i requires 0 <= i < n => ((g: nat) => Drain(g))(i));
    assert Undrains(n) == seq(n, i requires 0 <= i < n => ((g: nat) => Undrain(g))(i));
  }

  lemma OncePerAccess(job: Job, n: nat, gpu: nat, vAddrs: seq<nat>)
    requires AccessingInRange(job, n)
    ensures multiset(Restarts(job, n))[Restart(gpu)] == multiset(job.accessing)[gpu + 1]
    ensures multiset(Shootdowns(job, n))[Shootdown(gpu, vAddrs)] ==
            if vAddrs == Requested(job, n) then multiset(job.accessing)[gpu + 1] else 0
  {
    AddrsAreRequested(job, n);
    SameCount(Restarts(job, n), job.accessing, Restart(gpu), gpu + 1);
    if vAddrs == VAddrs(job, n) {
      SameCount(Shootdowns(job, n), job.accessing, Shootdown(gpu, vAddrs), gpu + 1);
    } else {
      Absent(Shootdowns(job, n), Shootdown(gpu, vAddrs));
    }
  }

  lemma WorkCounts(job: Job, n: nat, r: Req)
    requires AccessingInRange(job, n)
    ensures Work(job, n, KindOf(r))[r] == Expected(job, n, r)
  {
    hide Requested, Requesting, Copies, Shootdowns, Drains, Undrains, Restarts;
    match r
    case Drain(gpu) => OncePerGPU(n, gpu);
    case Shootdown(gpu, vAddrs) => OncePerAccess(job, n, gpu, vAddrs);
    case Copy(gpu, vAddr) => CopiesOfPage(job, n, gpu, vAddr);
    case Restart(gpu) => OncePerAccess(job, n, gpu, []);
    case Undrain(gpu) => OncePerGPU(n, gpu);
  }

  lemma {:induction false} PastCounts(job: Job, n: nat, rank: nat, r: Req)
    requires AccessingInRange(job, n) && 0 < rank <= 6
    ensures Past(job, n, rank)[r] == if Rank(KindOf(r)) < rank then Work(job, n, KindOf(r))[r] else 0
  {
    hide Work;
    if rank > 1 {
      PastCounts(job, n, rank - 1, r);
      assert Rank(PhaseAt(rank - 1)) == rank - 1;
      OneKindOnly(job, n, PhaseAt(rank - 1), r);
    }
  }

  lemma OneKindOnly(job: Job, n: nat, k: Phase, r: Req)
    requires AccessingInRange(job, n)
    ensures KindOf(r) != k ==> Work(job, n, k)[r] == 0
    ensures PhaseAt(Rank(KindOf(r))) == KindOf(r)
  {
    if r in Work(job, n, k) {
      WorkKind(job, n, k, r);
    }
  }

  // A whole job: one drain and one un-drain for each GPU, one shootdown of all pages and one
  // restart for each accessing entry, and one copy for each requested page.
  lemma AllWorkCounts(job: Job, n: nat, r: Req)
    requires AccessingInRange(job, n)
    ensures AllWork(job, n)[r] == Expected(job, n, r)
  {
    PastCounts(job, n, 6, r);
    WorkCounts(job, n, r);
  }

  // When the driver ends a job, exactly the requests of the job were answered, and all
  // counters are zero.
  lemma JobEndsComplete(run: seq<Sys>, actions: seq<Action>, i: nat)
    requires Run(run, actions) && i < |actions| && run[i].d.handling && !run[i + 1].d.handling
    ensures var s, t := run[i], run[i + 1];
            && s.d.current.Some? && HasWork(s.d.current.value, s.d.gpus)
            && (forall r :: t.done[r] == Expected(s.d.current.value, s.d.gpus, r))
            && Pending(t) == multiset{} && t.d.current.None?
            && t.d.drainAck == t.d.shootAck == t.d.copyAck == t.d.restartAck == t.d.undrainAck == 0
  {
    var s, t, a := run[i], run[i + 1], actions[i];
    NeverPanics(run, actions, i);
    RunInv(run, actions, i);
    RunInv(run, actions, i + 1);
    StepInv(s, a);
    LastAnswer(s, a);
    GoodIff(s.d.current.value, s.d.gpus);
    forall r ensures t.done[r] == Expected(s.d.current.value, s.d.gpus, r) {
      AllWorkCounts(s.d.current.value, s.d.gpus, r);
    }
    assert |Pending(t)| == 0;
  }

  // Only the last answer to an un-drain ends a job.
  lemma LastAnswer(s: Sys, a: Action)
    requires Live(s) && Enabled(s, a) && Safe(s, a) && s.d.handling && !Apply(s, a).d.handling
    ensures s.d.current.Some? && Good(s.d.current.value, s.d.gpus)
    ensures Apply(s, a).done == AllWork(s.d.current.value, s.d.gpus)
  {
    OnlyUndrainEnds(s, a);
    AnswersMatchPhase(s, a.r);
    UndrainFacts(s);
    ProcessLast(s, a.r, a.order, Undraining);
  }

  lemma OnlyUndrainEnds(s: Sys, a: Action)
    requires Enabled(s, a) && Safe(s, a) && s.d.handling && !Apply(s, a).d.handling
    ensures a.Process? && a.r.Undrain? && s.d.undrainAck == 1
  {
  }

  lemma UndrainFacts(s: Sys)
    requires Live(s) && PhaseOf(s.d) == Undraining && s.d.undrainAck == 1
    ensures |Pending(s)| == 1 && s.d.current.Some? && Good(s.d.current.value, s.d.gpus)
  {
    hide VAddrs, Pending, MmuOk, Balanced;
  }

  // ---------- termination ----------

  // Each request takes three steps (sent, answered, processed), the job itself two (parsed,
  // answered to the MMU).
  ghost function Cost(job: Job, n: nat): nat
    requires AccessingInRange(job, n)
  {
    3 * |AllWork(job, n)| + 2
  }

  ghost predicate Countable(s: Sys) {
    && (PhaseOf(s.d) != Idle ==> s.d.current.Some? && AccessingInRange(s.d.current.value, s.d.gpus))
    && (s.mmuQueue != [] ==> AccessingInRange(s.mmuQueue[0], s.d.gpus))
  }

  ghost function LeftOfJob(s: Sys): int
    requires Countable(s)
  {
    if PhaseOf(s.d) == Idle then 0
    else 3 * (|AllWork(s.d.current.value, s.d.gpus)| - |s.done|) - |s.network| - 2 * |s.returned|
  }

  ghost function LeftForMmu(s: Sys): int
    requires Countable(s)
  {
    (if PhaseOf(s.d) in {Draining, Shooting, Copying} then 1 else 0) + (if s.d.toMMU.Some? then 1 else 0)
    + (if s.mmuQueue == [] then 0 else Cost(s.mmuQueue[0], s.d.gpus))
  }

  // The steps that the driver and the network still take.
  ghost function Left(s: Sys): int
    requires Countable(s)
  {
    LeftOfJob(s) + LeftForMmu(s)
  }

  lemma LiveIsCountable(s: Sys)
    requires Live(s)
    ensures Countable(s)
  {
  }

  lemma AnsweringLess(s: Sys)
    requires Enabled(s, SendToMMU) && Countable(s) && Countable(Apply(s, SendToMMU))
    ensures Left(Apply(s, SendToMMU)) == Left(s) - 1
  {
  }

  lemma MovesLess(s: Sys, a: Action)
    requires Enabled(s, a) && (a.SendToGPUs? || a.SendToCP? || a.Answer?) && PhaseOf(s.d) != Idle
    requires Countable(s) && Countable(Apply(s, a))
    ensures Left(Apply(s, a)) == Left(s) - 1
  {
    hide AllWork, Work, Past;
    SentSizes(s, a);
  }

  lemma MovesAreOfPhase(s: Sys, a: Action)
    requires Live(s) && Enabled(s, a) && (a.SendToGPUs? || a.SendToCP? || a.Answer?)
    ensures PhaseOf(s.d) != Idle
  {
    PendingNow(s, if a.SendToGPUs? then s.d.toSend[0] else if a.SendToCP? then s.d.toCP[0] else a.r);
  }

  lemma PendingNow(s: Sys, r: Req)
    requires Live(s) && (r in s.d.toSend || r in s.d.toCP || r in s.network || r in s.returned)
    ensures PhaseOf(s.d) != Idle
  {
    assert r in Pending(s);
  }

  lemma SentSizes(s: Sys, a: Action)
    requires Enabled(s, a) && (a.SendToGPUs? || a.SendToCP? || a.Answer?)
    ensures |Apply(s, a).network| + 2 * |Apply(s, a).returned| == |s.network| + 2 * |s.returned| + 1
  {
    if a.Answer? {
      assert s.network == s.network - multiset{a.r} + multiset{a.r};
    }
  }

  lemma ParseLess(s: Sys)
    requires Live(s) && Enabled(s, Parse) && s.d.gpus > 0
    requires Countable(s) && Countable(Apply(s, Parse))
    ensures Left(Apply(s, Parse)) == Left(s) - 1
  {
    assert |Pending(s)| == 0;
    assert |s.network| == 0 && |s.returned| == 0;
    assert s.d.toMMU.None?;
  }

  lemma MidLess(s: Sys, q: Req, order: seq<nat>)
    requires Enabled(s, Process(q, order)) && Safe(s, Process(q, order))
    requires KindOf(q) == PhaseOf(s.d) && OnlyAck(s.d, PhaseOf(s.d)) && Ack(s.d, PhaseOf(s.d)) > 1
    requires Countable(s) && Countable(Apply(s, Process(q, order)))
    ensures Left(Apply(s, Process(q, order))) == Left(s) - 1
  {
    CountDown(s.d, q, order);
    ProcessedSizes(s, q, order);
  }

  lemma ProcessLess(s: Sys, q: Req, order: seq<nat>, k: Phase)
    requires Live(s) && k == PhaseOf(s.d) == KindOf(q) && k != Idle && |Pending(s)| == 1
    requires Enabled(s, Process(q, order)) && Safe(s, Process(q, order)) && GoesOn(s, PhaseAt(Rank(k) + 1))
    requires Countable(s) && Countable(Apply(s, Process(q, order)))
    ensures Left(Apply(s, Process(q, order))) == Left(s) - 1
  {
    hide Past, Work, Balanced, Copies, Requesting, VAddrs, Left, LastOfPhase;
    ProcessLastPhase(s, q, order, k);
    ProcessLast(s, q, order, k);
    TurnOver(s.d, q, order);
    TurnOverRest(s.d, q, order);
    LastLess(s, q, order, k);
  }

  lemma AnswerLess(s: Sys, q: Req, order: seq<nat>)
    requires Live(s) && Enabled(s, Process(q, order)) && Safe(s, Process(q, order)) &&
             !Wedged(Apply(s, Process(q, order)))
    requires Countable(s) && Countable(Apply(s, Process(q, order)))
    ensures Left(Apply(s, Process(q, order))) == Left(s) - 1
  {
    var k := PhaseOf(s.d);
    AnswersMatchPhase(s, q);
    assert q in Pending(s);
    if |Pending(s)| > 1 {
      MidLess(s, q, order);
    } else {
      if !GoesOn(s, PhaseAt(Rank(k) + 1)) {
        ProcessWedges(s, q, order, k);
      }
      ProcessLess(s, q, order, k);
    }
  }

  lemma ProcessedSizes(s: Sys, q: Req, order: seq<nat>)
    requires Enabled(s, Process(q, order)) && Safe(s, Process(q, order))
    ensures var r := Apply(s, Process(q, order));
            && r.network == s.network && |r.returned| == |s.returned| - 1 && |r.done| == |s.done| + 1
            && r.mmuQueue == s.mmuQueue
  {
    assert s.returned == s.returned - multiset{q} + multiset{q};
  }

  lemma LastLess(s: Sys, q: Req, order: seq<nat>, k: Phase)
    requires MmuOk(s) && Enabled(s, Process(q, order)) && Safe(s, Process(q, order))
    requires Countable(s) && Countable(Apply(s, Process(q, order)))
    requires k == PhaseOf(s.d) && k != Idle && s.network == multiset{} && s.returned == multiset{q}
    requires s.done + multiset{q} == Past(s.d.current.value, s.d.gpus, Rank(k) + 1)
    requires var e := ProcessReturn(s.d, q, order);
             && PhaseOf(e) == PhaseAt(Rank(k) + 1) && (PhaseOf(e) != Idle ==> e.current == s.d.current)
             && e.gpus == s.d.gpus
             && e.toMMU.Some? == (k == Copying || s.d.toMMU.Some?)
    ensures Left(Apply(s, Process(q, order))) == Left(s) - 1
  {
    ProcessedSizes(s, q, order);
    AnswerDue(s);
    LastLessOfJob(s, Apply(s, Process(q, order)), k);
    LastLessForMmu(s, Apply(s, Process(q, order)), k);
  }

  lemma LastLessOfJob(s: Sys, r: Sys, k: Phase)
    requires Countable(s) && Countable(r) && k == PhaseOf(s.d) && k != Idle && PhaseOf(r.d) == PhaseAt(Rank(k) + 1)
    requires |s.network| == |r.network| == 0 && |s.returned| == 1 && |r.returned| == 0 && |r.done| == |s.done| + 1
    requires k == Undraining ==> |r.done| == |AllWork(s.d.current.value, s.d.gpus)|
    requires PhaseOf(r.d) != Idle ==> r.d.current == s.d.current && r.d.gpus == s.d.gpus
    ensures LeftOfJob(r) == LeftOfJob(s) - 1
  {
    assert k == Undraining <==> PhaseOf(r.d) == Idle;
  }

  lemma LastLessForMmu(s: Sys, r: Sys, k: Phase)
    requires Countable(s) && Countable(r) && k == PhaseOf(s.d) && k != Idle && PhaseOf(r.d) == PhaseAt(Rank(k) + 1)
    requires r.mmuQueue == s.mmuQueue && r.d.gpus == s.d.gpus
    requires k == Copying ==> s.d.toMMU.None?
    requires r.d.toMMU.Some? == (k == Copying || s.d.toMMU.Some?)
    ensures LeftForMmu(r) == LeftForMmu(s)
  {
  }

  // The answer to the MMU is made once.
  lemma AnswerDue(s: Sys)
    requires MmuOk(s)
    ensures PhaseOf(s.d) == Copying ==> s.d.toMMU.None?
  {
  }

  lemma LiveOrWedged(s: Sys)
    requires Live(s)
    ensures !Wedged(s)
  {
  }

  // Every step of the driver or the network brings the end exactly one step closer.
  lemma EachStepCounts(s: Sys, a: Action)
    requires Live(s) && Enabled(s, a) && Safe(s, a) && Live(Apply(s, a)) && !a.MmuAsks?
    requires Countable(s) && Countable(Apply(s, a))
    ensures Left(Apply(s, a)) == Left(s) - 1
  {
    LiveOrWedged(Apply(s, a));
    if a.Parse? {
      if s.d.gpus == 0 {
        ParseWedges(s);
      }
      ParseLess(s);
    } else if a.Process? {
      AnswerLess(s, a.r, a.order);
    } else if a.SendToMMU? {
      AnsweringLess(s);
    } else {
      MovesAreOfPhase(s, a);
      MovesLess(s, a);
    }
  }

  // The steps in a run that the driver or the network takes.
  ghost function Steps(actions: seq<Action>): nat {
    if actions == [] then 0
    else Steps(actions[..|actions| - 1]) + if actions[|actions| - 1].MmuAsks? then 0 else 1
  }

  ghost function TotalCost(asked: seq<Job>, n: nat): nat
    requires forall i :: 0 <= i < |asked| ==> AccessingInRange(asked[i], n)
  {
    if asked == [] then 0
    else TotalCost(asked[..|asked| - 1], n) + Cost(asked[|asked| - 1], n)
  }

  ghost predicate AllInRange(s: Sys) {
    forall i :: 0 <= i < |s.asked| ==> AccessingInRange(s.asked[i], s.d.gpus)
  }

  lemma AskKeepsRange(s: Sys, a: Action)
    requires Enabled(s, a) && Safe(s, a) && AllInRange(s)
    ensures AllInRange(Apply(s, a)) && (!a.MmuAsks? ==> Apply(s, a).asked == s.asked)
    ensures Apply(s, a).d.gpus == s.d.gpus
  {
    hide Copies, Requesting, Listed, VAddrs, Shootdowns, Restarts, Drains, Undrains;
  }

  lemma AskCosts(s: Sys, job: Job)
    requires Live(s) && Enabled(s, MmuAsks(job)) && AllInRange(s)
    ensures var r := Apply(s, MmuAsks(job));
            && Countable(s) && Countable(r) && AllInRange(r)
            && Left(r) - Left(s) == TotalCost(r.asked, r.d.gpus) - TotalCost(s.asked, s.d.gpus)
  {
    hide Left, Cost, InPhase;
    LiveIsCountable(s);
    assert s.mmuQueue == [];
    LeftAfterAsk(s, job);
    assert (s.asked + [job])[..|s.asked|] == s.asked;
  }

  lemma LeftAfterAsk(s: Sys, job: Job)
    requires Enabled(s, MmuAsks(job)) && s.mmuQueue == [] && Countable(s)
    ensures var r := Apply(s, MmuAsks(job)); Countable(r) && Left(r) == Left(s) + Cost(job, s.d.gpus)
  {
    assert s.mmuQueue + [job] == [job];
  }

  // The number of steps taken and the number left add up to the cost of all jobs asked for,
  // in every order in which the network answers: each job takes exactly its cost.
  lemma {:induction false} StepsAddUp(run: seq<Sys>, actions: seq<Action>, i: nat)
    requires Run(run, actions) && i <= |actions|
    ensures AllInRange(run[i])
    ensures Live(run[i]) ==>
      Countable(run[i]) && Steps(actions[..i]) + Left(run[i]) == TotalCost(run[i].asked, run[i].d.gpus)
    decreases i
  {
    if i > 0 {
      StepsAddUp(run, actions, i - 1);
      NeverPanics(run, actions, i - 1);
      StepsAddUpStep(run, actions, i - 1);
    }
  }

  lemma StepsAddUpStep(run: seq<Sys>, actions: seq<Action>, i: nat)
    requires Run(run, actions) && i < |actions| && Safe(run[i], actions[i]) && run[i + 1] == Apply(run[i], actions[i])
    requires AllInRange(run[i])
    requires Live(run[i]) ==>
      Countable(run[i]) && Steps(actions[..i]) + Left(run[i]) == TotalCost(run[i].asked, run[i].d.gpus)
    ensures AllInRange(run[i + 1])
    ensures Live(run[i + 1]) ==>
      Countable(run[i + 1]) && Steps(actions[..i + 1]) + Left(run[i + 1]) ==
        TotalCost(run[i + 1].asked, run[i + 1].d.gpus)
  {
    hide Inv, Apply, Enabled, Safe, Left, TotalCost, Live, Countable, AllInRange;
    var s, r, a := run[i], run[i + 1], actions[i];
    RunInv(run, actions, i);
    StepInv(s, a);
    AskKeepsRange(s, a);
    assert actions[..i + 1][..i] == actions[..i];
    if Live(r) {
      LiveIsCountable(r);
      if a.MmuAsks? {
        AskCosts(s, a.job);
      } else {
        EachStepCounts(s, a);
      }
    }
  }

  lemma LeftIsNat(s: Sys)
    requires Live(s) && Countable(s)
    ensures Left(s) >= 0
  {
    if PhaseOf(s.d) != Idle {
      LeftInPhase(s, PhaseOf(s.d));
    }
  }

  lemma {:induction false} PastGrows(job: Job, n: nat, rank: nat)
    requires AccessingInRange(job, n) && rank <= 6
    ensures Past(job, n, rank) <= Past(job, n, 6)
    decreases 6 - rank
  {
    if rank < 6 {
      PastGrows(job, n, rank + 1);
    }
  }

  lemma LeftInPhase(s: Sys, k: Phase)
    requires InPhase(s, k) && k == PhaseOf(s.d) && k != Idle && Countable(s)
    ensures LeftOfJob(s) >= 0
  {
    var job, n := s.d.current.value, s.d.gpus;
    PastGrows(job, n, Rank(k) + 1);
    assert PhaseAt(Rank(k)) == k;
    assert |Pending(s)| + |s.done| == |Past(job, n, Rank(k) + 1)|;
    Smaller(Past(job, n, Rank(k) + 1), AllWork(job, n));
    assert |Pending(s)| == |s.d.toSend| + |s.d.toCP| + |s.network| + |s.returned|;
  }

  lemma Smaller<T>(a: multiset<T>, b: multiset<T>)
    requires a <= b
    ensures |a| <= |b|
  {
    assert b == a + (b - a);
  }

  // A run takes no more steps than its jobs cost, whatever they contain.
  lemma RunsAreBounded(run: seq<Sys>, actions: seq<Action>, i: nat)
    requires Run(run, actions) && i <= |actions|
    ensures AllInRange(run[i])
    ensures Steps(actions[..i]) <= TotalCost(run[i].asked, run[i].d.gpus)
  {
    RunInv(run, actions, i);
    StepsAddUp(run, actions, i);
    if Live(run[i]) {
      LeftIsNat(run[i]);
    } else if i > 0 {
      WedgingStep(run, actions, i - 1);
    }
  }

  lemma WedgingStep(run: seq<Sys>, actions: seq<Action>, i: nat)
    requires Run(run, actions) && i < |actions| && AllInRange(run[i + 1]) && !Live(run[i + 1])
    ensures Steps(actions[..i + 1]) <= TotalCost(run[i + 1].asked, run[i + 1].d.gpus)
  {
    NeverPanics(run, actions, i);
    LiveBefore(run, actions, i);
    StepsAddUp(run, actions, i);
    WorkIsLeft(run[i], actions[i], run[i + 1]);
    assert actions[..i + 1][..i] == actions[..i];
  }

  lemma LiveBefore(run: seq<Sys>, actions: seq<Action>, i: nat)
    requires Run(run, actions) && i < |actions|
    ensures Live(run[i])
  {
    RunInv(run, actions, i);
    StepInv(run[i], actions[i]);
  }

  lemma AskKeepsLive(s: Sys, a: Action)
    requires Live(s) && Enabled(s, a) && Safe(s, a) && !Live(Apply(s, a))
    ensures !a.MmuAsks?
  {
    if a.MmuAsks? {
      MmuAsksStep(s, a.job);
    }
  }

  lemma WorkIsLeft(s: Sys, a: Action, r: Sys)
    requires Live(s) && Countable(s) && Enabled(s, a) && Safe(s, a) && r == Apply(s, a) && !Live(r) && AllInRange(s)
    ensures Left(s) >= 1 && !a.MmuAsks? && r.asked == s.asked && r.d.gpus == s.d.gpus
  {
    StepInv(s, a);
    AskKeepsLive(s, a);
    AskKeepsRange(s, a);
    WorkLeft(s, a);
  }

  lemma WorkLeft(s: Sys, a: Action)
    requires Live(s) && Countable(s) && Enabled(s, a) && !a.MmuAsks? && Safe(s, a) && Wedged(Apply(s, a))
    ensures Left(s) >= 1
  {
    if PhaseOf(s.d) != Idle {
      LeftInPhase(s, PhaseOf(s.d));
      assert s.waiting ==> LeftForMmu(s) >= 1;
    }
  }

  // ---------- no deadlock, except for the jobs that leave a phase empty ----------

  // A step that the driver or the network can take.
  ghost function NextAction(s: Sys): Action {
    if s.d.toSend != [] then SendToGPUs
    else if s.d.toMMU.Some? then SendToMMU
    else if s.d.toCP != [] && !s.d.migratingOne then SendToCP
    else if |s.network| > 0 then (var r :| r in s.network; Answer(r))
    else if |s.returned| > 0 then
      (var r :| r in s.returned;
       Process(r, if s.d.current.Some? then Requesting(s.d.current.value, s.d.gpus) else []))
    else Parse
  }

  ghost predicate Finished(s: Sys) {
    !s.d.handling && s.mmuQueue == [] && s.d.toMMU.None?
  }

  lemma NextIsEnabled(s: Sys)
    requires Live(s) && !Finished(s)
    ensures Enabled(s, NextAction(s)) && !NextAction(s).MmuAsks?
  {
    if s.d.handling && s.d.toSend == [] && s.d.toMMU.None? && !(s.d.toCP != [] && !s.d.migratingOne) {
      SomethingUnderWay(s, PhaseOf(s.d));
    }
  }

  lemma SomethingUnderWay(s: Sys, k: Phase)
    requires InPhase(s, k) && s.d.handling && s.d.toSend == [] && (s.d.toCP == [] || s.d.migratingOne)
    ensures |s.network| > 0 || |s.returned| > 0
  {
    assert |Pending(s)| == |s.d.toSend| + |s.d.toCP| + |s.network| + |s.returned|;
  }

  // Nothing is left to do but for the MMU to ask.
  ghost predicate Quiet(s: Sys) {
    forall a :: Enabled(s, a) ==> a.MmuAsks?
  }

  // When a run can go no further, the MMU was answered for all jobs and the driver is idle if
  // and only if every job had a GPU, an accessing GPU and a page; otherwise the last job never
  // gets its answer.
  lemma AnsweredIffGood(run: seq<Sys>, actions: seq<Action>, i: nat)
    requires Run(run, actions) && i < |run| && Quiet(run[i])
    ensures var s := run[i];
            && ((forall j :: 0 <= j < |s.asked| ==> HasWork(s.asked[j], s.d.gpus)) <==> |s.answers| == |s.asked|)
            && (|s.answers| == |s.asked| <==> Finished(s))
            && |s.answers| <= |s.asked| <= |s.answers| + 1
            && forall j :: 0 <= j < |s.answers| ==> Answers(s.asked[j], s.d.gpus, s.answers[j])
  {
    var s := run[i];
    RunInv(run, actions, i);
    StepsAddUp(run, actions, i);
    forall j | 0 <= j < |s.asked| ensures Good(s.asked[j], s.d.gpus) <==> HasWork(s.asked[j], s.d.gpus) {
      GoodIff(s.asked[j], s.d.gpus);
    }
    hide HasWork, Answers;
    forall j | 0 <= j < |s.answers| ensures Answers(s.asked[j], s.d.gpus, s.answers[j]) {
      AnswerIsExact(s.asked[j], s.d.gpus, s.answers[j]);
    }
    if Live(s) {
      if !Finished(s) {
        NextIsEnabled(s);
        assert false;
      }
      FinishedIsIdle(s);
    }
  }

  ghost predicate Extends(more: seq<Sys>, moreActions: seq<Action>, run: seq<Sys>) {
    && Run(more, moreActions) && run != [] && |run| <= |more| && more[..|run|] == run
    && more[|more| - 1].asked == run[|run| - 1].asked && more[|more| - 1].d.gpus == run[|run| - 1].d.gpus
  }

  lemma AskedStays(s: Sys, a: Action)
    requires Enabled(s, a) && Safe(s, a) && !a.MmuAsks?
    ensures Apply(s, a).asked == s.asked && Apply(s, a).d.gpus == s.d.gpus
  {
  }

  lemma RunMore(run: seq<Sys>, actions: seq<Action>, a: Action)
    requires Run(run, actions) && Enabled(run[|actions|], a) && Safe(run[|actions|], a)
    ensures Run(run + [Apply(run[|actions|], a)], actions + [a])
  {
    hide Enabled, Safe, Apply, Init;
  }

  lemma OneMore(run: seq<Sys>, actions: seq<Action>, a: Action, budget: nat)
    requires Run(run, actions) && Enabled(run[|actions|], a) && !a.MmuAsks? && AllInRange(run[|actions|])
    requires TotalCost(run[|actions|].asked, run[|actions|].d.gpus) - Steps(actions) <= budget
    ensures Safe(run[|actions|], a) && budget > 0
    ensures var next := Apply(run[|actions|], a);
            && Extends(run + [next], actions + [a], run) && AllInRange(next)
            && TotalCost(next.asked, next.d.gpus) - Steps(actions + [a]) <= budget - 1
  {
    hide *;
    SafeNext(run, actions, a);
    AskedStays(run[|actions|], a);
    RunMore(run, actions, a);
    StepsMore(actions, a);
    var next, nextActions := run + [Apply(run[|actions|], a)], actions + [a];
    assert nextActions[..|actions|] == actions && nextActions[..|nextActions|] == nextActions;
    RunsAreBounded(next, nextActions, |nextActions|);
    IsExtended(run, run[|actions|], Apply(run[|actions|], a), nextActions);
  }

  lemma SafeNext(run: seq<Sys>, actions: seq<Action>, a: Action)
    requires Run(run, actions) && Enabled(run[|actions|], a)
    ensures Safe(run[|actions|], a) && |run| == |actions| + 1
  {
    hide Safe, Enabled, Inv;
    RunInv(run, actions, |actions|);
    StepInv(run[|actions|], a);
  }

  lemma StepsMore(actions: seq<Action>, a: Action)
    requires !a.MmuAsks?
    ensures Steps(actions + [a]) == Steps(actions) + 1
  {
    assert (actions + [a])[..|actions|] == actions;
  }

  lemma IsExtended(run: seq<Sys>, last: Sys, next: Sys, nextActions: seq<Action>)
    requires run != [] && last == run[|run| - 1] && next.asked == last.asked && next.d.gpus == last.d.gpus
    requires Run(run + [next], nextActions)
    ensures Extends(run + [next], nextActions, run)
  {
    hide Run;
  }

  // Every run can be driven on, without a further request of the MMU, until nothing is left
  // to do.
  lemma Finish(run: seq<Sys>, actions: seq<Action>, budget: nat) returns (more: seq<Sys>, moreActions: seq<Action>)
    requires Run(run, actions) && |run| == |actions| + 1 && AllInRange(run[|actions|])
    requires TotalCost(run[|actions|].asked, run[|actions|].d.gpus) - Steps(actions) <= budget
    ensures |more| == |moreActions| + 1 && Extends(more, moreActions, run) && Quiet(more[|moreActions|])
    decreases budget
  {
    hide Run, Enabled, Safe, Apply, TotalCost, Steps, AllInRange;
    more, moreActions := run, actions;
    if !Quiet(run[|actions|]) {
      var a :| Enabled(run[|actions|], a) && !a.MmuAsks?;
      OneMore(run, actions, a, budget);
      var next := Apply(run[|actions|], a);
      assert (run + [next])[|actions + [a]|] == next;
      more, moreActions := Finish(run + [next], actions + [a], budget - 1);
      assert more[..|run|] == more[..|run| + 1][..|run|];
    }
  }

  // For every job there is a run that asks for it and for nothing else, until nothing is left
  // to do. It ends with the answer for a good job, and wedged for any other.
  lemma JobRun(n: nat, job: Job) returns (run: seq<Sys>, actions: seq<Action>)
    requires AccessingInRange(job, n)
    ensures Run(run, actions) && run[|actions|].d.gpus == n && run[|actions|].asked == [job] && Quiet(run[|actions|])
    ensures if HasWork(job, n) then Finished(run[|actions|]) && |run[|actions|].answers| == 1
            else Wedged(run[|actions|])
  {
    var s := Sys(Driver(n, None, false, [], [], false, None, 0, 0, 0, 0, 0),
                 [], false, multiset{}, multiset{}, multiset{}, [], []);
    var start := [s, Apply(s, MmuAsks(job))];
    assert Run(start, [MmuAsks(job)]);
    run, actions := Finish(start, [MmuAsks(job)], TotalCost([job], n));
    var last := run[|actions|];
    AnsweredIffGood(run, actions, |actions|);
    RunInv(run, actions, |actions|);
    assert last.asked == [job] && HasWork(last.asked[0], last.d.gpus) == HasWork(job, n);
    if Live(last) && !Finished(last) {
      NextIsEnabled(last);
      assert false;
    }
  }

  // So it does for a request for one page that no GPU accesses.
  lemma NobodyAccesses() returns (run: seq<Sys>, actions: seq<Action>)
    ensures Run(run, actions) && run[|actions|].d.gpus == 1 && run[|actions|].asked == [Job(map[1 := [7]], [])]
    ensures Wedged(run[|actions|])
  {
    run, actions := JobRun(1, Job(map[1 := [7]], []));
  }

  lemma FinishedIsIdle(s: Sys)
    requires Live(s) && Finished(s)
    ensures !s.waiting
  {
    assert PhaseOf(s.d) == Idle;
  }

  // At every point of a run: each job is answered at most once, in order, with exactly its
  // pages.
  lemma AnswersAreExact(run: seq<Sys>, actions: seq<Action>, i: nat, j: nat)
    requires Run(run, actions) && i < |run| && j < |run[i].answers|
    ensures var s := run[i];
            j < |s.asked| <= |s.answers| + 1 && Answers(s.asked[j], s.d.gpus, s.answers[j])
  {
    RunInv(run, actions, i);
    AnswerIsExact(run[i].asked[j], run[i].d.gpus, run[i].answers[j]);
  }

  // ---------- in which order ----------

  // Requests leave for the network one at a time, in the order in which they were prepared.
  lemma FirstComeFirstSent(run: seq<Sys>, actions: seq<Action>, i: nat)
    requires Run(run, actions) && i < |actions|
    ensures var s, t, a := run[i], run[i + 1], actions[i];
            && (if a.SendToGPUs? then SentFirst(s.d.toSend, t.d.toSend, s.network, t.network)
                else s.d.toSend <= t.d.toSend)
            && (if a.SendToCP? then SentFirst(s.d.toCP, t.d.toCP, s.network, t.network) else s.d.toCP <= t.d.toCP)
            && (!a.SendToGPUs? && !a.SendToCP? ==> t.network <= s.network)
  {
    hide Apply, Enabled, Safe, SentFirst, Init;
    NeverPanics(run, actions, i);
    SendsFirst(run[i], actions[i]);
  }

  lemma SendsFirst(s: Sys, a: Action)
    requires Enabled(s, a) && Safe(s, a)
    ensures var t := Apply(s, a);
            && (if a.SendToGPUs? then SentFirst(s.d.toSend, t.d.toSend, s.network, t.network)
                else s.d.toSend <= t.d.toSend)
            && (if a.SendToCP? then SentFirst(s.d.toCP, t.d.toCP, s.network, t.network) else s.d.toCP <= t.d.toCP)
            && (!a.SendToGPUs? && !a.SendToCP? ==> t.network <= s.network)
  {
    hide Copies, Listed, IsOrder, Drains, Undrains, Shootdowns, Restarts, ProcessReturn, CanAnswer, AccessingInRange;
    if a.Process? {
      ProcessingAdds(s.d, a.r, a.order);
    }
  }

  lemma ProcessingAdds(d: Driver, r: Req, order: seq<nat>)
    requires CanAnswer(d, r, order)
    ensures var e := ProcessReturn(d, r, order); d.toSend <= e.toSend && d.toCP <= e.toCP
  {
    hide Copies, Listed, IsOrder, Drains, Undrains, Shootdowns, Restarts, AccessingInRange;
  }

  ghost predicate SentFirst(was: seq<Req>, now: seq<Req>, network: multiset<Req>, network': multiset<Req>) {
    was != [] && was == [was[0]] + now && network' == network + multiset{was[0]}
  }

  // The requests of a phase: the GPUs in ascending order, the accessing ones as the MMU lists
  // them.
  ghost predicate InOrder(job: Job, n: nat, k: Phase, reqs: seq<Req>)
    requires AccessingInRange(job, n)
  {
    var accessing := job.accessing;
    match k
    case Draining => |reqs| == n && forall g: nat :: g < n ==> reqs[g] == Drain(g)
    case Shooting =>
      |reqs| == |accessing| &&
      forall i :: 0 <= i < |reqs| ==> reqs[i] == Shootdown(accessing[i] - 1, Requested(job, n))
    case Restarting => |reqs| == |accessing| && forall i :: 0 <= i < |reqs| ==> reqs[i] == Restart(accessing[i] - 1)
    case Undraining => |reqs| == n && forall g: nat :: g < n ==> reqs[g] == Undrain(g)
    case _ => false
  }

  // The phase whose requests an action may prepare.
  ghost function Prepares(a: Action): Phase {
    match a
    case Parse => Draining
    case Process(Drain(_), _) => Shooting
    case Process(Shootdown(_, _), _) => Copying
    case Process(Copy(_, _), _) => Restarting
    case Process(Restart(_), _) => Undraining
    case _ => Idle
  }

  // Whenever requests to GPUs are prepared, they are those of the next phase, in order.
  lemma PreparedInOrder(run: seq<Sys>, actions: seq<Action>, i: nat)
    requires Run(run, actions) && i < |actions| && |run[i].d.toSend| < |run[i + 1].d.toSend|
    ensures var s, t := run[i].d, run[i + 1].d;
            && t.current.Some? && AccessingInRange(t.current.value, t.gpus)
            && InOrder(t.current.value, t.gpus, Prepares(actions[i]), t.toSend[|s.toSend|..])
  {
    hide Requested, Copies, Listed;
    var s, a := run[i], actions[i];
    NeverPanics(run, actions, i);
    RunInv(run, actions, i);
    if a.Parse? {
      ParsesInRange(s);
    } else {
      ProcessedInOrder(s, a);
    }
  }

  lemma ParsesInRange(s: Sys)
    requires Inv(s) && Enabled(s, Parse)
    ensures AccessingInRange(s.mmuQueue[0], s.d.gpus)
  {
    assert !Wedged(s);
  }

  lemma ProcessedInOrder(s: Sys, a: Action)
    requires Inv(s) && Enabled(s, a) && Safe(s, a) && !a.Parse? && |s.d.toSend| < |Apply(s, a).d.toSend|
    ensures var d, e := s.d, Apply(s, a).d;
            && e.current.Some? && AccessingInRange(e.current.value, e.gpus)
            && InOrder(e.current.value, e.gpus, Prepares(a), e.toSend[|d.toSend|..])
  {
    hide Requested, Copies, Listed, VAddrs, Inv, IsOrder;
    assert a.Process? && a.r in s.returned;
    AddrsAreRequested(s.d.current.value, s.d.gpus);
    CurrentInRange(s, a.r);
  }

  lemma CurrentInRange(s: Sys, r: Req)
    requires Inv(s) && r in s.returned
    ensures s.d.current.Some? && AccessingInRange(s.d.current.value, s.d.gpus)
  {
    hide MmuOk, Requesting, Copies, Listed;
    PendingMatchesPhase(s, r);
  }

  // Whenever copies are prepared, those of each GPU come one after the other, as the MMU lists
  // its pages.
  lemma CopiesInRows(run: seq<Sys>, actions: seq<Action>, i: nat, g: nat)
    requires Run(run, actions) && i < |actions| && |run[i].d.toCP| < |run[i + 1].d.toCP|
    ensures var t := run[i + 1].d;
            && t.current.Some?
            && (g < t.gpus && g + 1 in t.current.value.pages ==> HasRow(t.toCP, g, t.current.value.pages[g + 1]))
  {
    hide Inv, HasRow;
    NeverPanics(run, actions, i);
    CopiesAreAdded(run[i], actions[i]);
    var job := run[i].d.current.value;
    if g < run[i].d.gpus && g + 1 in job.pages {
      AddedInRows(run[i].d.toCP, job, run[i].d.gpus, actions[i].order, g);
    }
  }

  lemma CopiesAreAdded(s: Sys, a: Action)
    requires Enabled(s, a) && Safe(s, a) && |s.d.toCP| < |Apply(s, a).d.toCP|
    ensures s.d.current.Some? && Apply(s, a).d.current == s.d.current && Apply(s, a).d.gpus == s.d.gpus
    ensures a.Process? && IsOrder(s.d.current.value, s.d.gpus, a.order)
    ensures Apply(s, a).d.toCP == s.d.toCP + Copies(s.d.current.value, a.order)
  {
    hide Copies, Listed, IsOrder, Drains, Undrains, Shootdowns, Restarts;
  }

  lemma AddedInRows(toCP: seq<Req>, job: Job, n: nat, order: seq<nat>, g: nat)
    requires IsOrder(job, n, order) && g < n && g + 1 in job.pages
    ensures HasRow(toCP + Copies(job, order), g, job.pages[g + 1])
  {
    hide Copies, Requesting;
    IsRequesting(job, n, g);
    assert g in multiset(order);
    var k := RowOf(job, order, g);
    assert IsRow(toCP + Copies(job, order), |toCP| + k, g, job.pages[g + 1]);
  }

  ghost predicate HasRow(reqs: seq<Req>, gpu: nat, pages: seq<nat>) {
    exists k :: IsRow(reqs, k, gpu, pages)
  }

  // From k on, the requests are the copies of these pages to the GPU.
  ghost predicate IsRow(reqs: seq<Req>, k: nat, gpu: nat, pages: seq<nat>) {
    k + |pages| <= |reqs| && forall j :: 0 <= j < |pages| ==> reqs[k + j] == Copy(gpu, pages[j])
  }

  lemma {:induction false} IsRequesting(job: Job, n: nat, g: nat)
    requires g < n && g + 1 in job.pages
    ensures g in multiset(Requesting(job, n))
  {
    if g < n - 1 {
      IsRequesting(job, n - 1, g);
    }
  }

  lemma {:induction false} RowOf(job: Job, order: seq<nat>, g: nat) returns (k: nat)
    requires g in order && g + 1 in job.pages
    ensures IsRow(Copies(job, order), k, g, job.pages[g + 1])
  {
    if order[0] == g {
      k := 0;
    } else {
      k := RowOf(job, order[1..], g);
      k := |CopiesTo(order[0], PagesOf(job, order[0]))| + k;
    }
  }
}

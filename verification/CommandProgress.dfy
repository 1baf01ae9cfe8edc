// When the requests of a copy are handed over, in which order requests are sent, and when a
// command leaves its queue, over whole runs (mgpusim-V1/driver/driver.go, memorycopy.go).
module CommandProgress {
  import opened CommandQueue

  // ---------- the cycles of a copy ----------

  // How often the middleware ticks in the actions from i up to j.
  ghost function Ticks(actions: seq<Action>, i: nat, j: nat): nat
    requires i <= j <= |actions|
    decreases j
  {
    if i == j then 0 else Ticks(actions, i, j - 1) + if actions[j - 1].MiddlewareTick? then 1 else 0
  }

  ghost predicate NoCopyStarts(actions: seq<Action>, i: nat, j: nat)
    requires i <= j <= |actions|
  {
    forall k :: i <= k < j ==> !actions[k].StartCopy?
  }

  // What a step that starts no copy does to the requests that wait.
  lemma WaitingStep(s: Sys, a: Action)
    requires Enabled(s, a) && Safe(s, a) && !a.StartCopy?
    ensures var r := Apply(s, a);
            if !a.MiddlewareTick? then r.awaitingReqs == s.awaitingReqs && r.cyclesLeft == s.cyclesLeft
            else if s.cyclesLeft > 0 then r.awaitingReqs == s.awaitingReqs && r.cyclesLeft == s.cyclesLeft - 1
            else if s.cyclesLeft == 0 then
              r.awaitingReqs == [] && r.cyclesLeft == -1 && r.requestsToSend == s.requestsToSend + s.awaitingReqs
            else r.awaitingReqs == s.awaitingReqs && r.cyclesLeft == s.cyclesLeft
  {
    hide AddReqs, TakeAnswer, FindQueue, Dequeue, NewReqs;
  }

  lemma {:induction false} Countdown(run: seq<Sys>, actions: seq<Action>, j: nat, i: nat)
    requires Run(run, actions) && j < i < |run| && actions[j].StartCopy? && NoCopyStarts(actions, j + 1, i)
    ensures var c, k := actions[j].cycles, Ticks(actions, j + 1, i);
            && run[i].awaitingReqs == (if c < 0 || k <= c then run[j + 1].awaitingReqs else [])
            && run[i].cyclesLeft == if c < 0 then c else if k <= c then c - k else -1
    decreases i
  {
    hide Inv, Apply, Enabled, Safe, Init;
    if i == j + 1 {
      CommandIsFound(run, actions, j);
      CyclesAreSet(run[j], actions[j]);
    } else {
      Countdown(run, actions, j, i - 1);
      CommandIsFound(run, actions, i - 1);
      WaitingStep(run[i - 1], actions[i - 1]);
    }
  }

  lemma CyclesAreSet(s: Sys, a: Action)
    requires Enabled(s, a) && Safe(s, a) && a.StartCopy?
    ensures Apply(s, a).cyclesLeft == a.cycles
  {
  }

  // A request of a copy waits: it belongs to the command that the queue has just put to work,
  // and is no flush.
  ghost predicate CopyRequest(s: Sys, q: nat, r: Req) {
    q < |s.queues| && r in s.queues[q].job.started && r.kind != FlushReq
  }

  lemma StartParts(s: Sys, a: Action, r: Req)
    requires Inv(s) && Enabled(s, a) && Safe(s, a) && a.StartCopy?
    ensures CopyRequest(Apply(s, a), a.q, r) ==> r in Apply(s, a).awaitingReqs
  {
    hide Distinct, Owed, Places, NewReqs, QueueOk, JobOk;
    var kind := CopyKind(s.queues[a.q].commands[0].kind);
    NewFacts(FlushReq, s.nextID, a.flushes);
    NewFacts(kind, s.nextID + a.flushes, a.copies);
  }

  // The requests of a copy wait exactly as long as the middleware has ticked no more often than
  // the copy takes cycles, and forever if that is negative. A flush does not wait.
  lemma CopiesWaitIff(run: seq<Sys>, actions: seq<Action>, j: nat, i: nat, r: Req)
    requires Run(run, actions) && j < i < |run| && actions[j].StartCopy? && NoCopyStarts(actions, j + 1, i)
    requires CopyRequest(run[j + 1], actions[j].q, r)
    ensures r in run[i].awaitingReqs <==> actions[j].cycles < 0 || Ticks(actions, j + 1, i) <= actions[j].cycles
  {
    hide Inv, Apply, Enabled, Safe, CopyRequest;
    RunInv(run, actions, j);
    CommandIsFound(run, actions, j);
    StartParts(run[j], actions[j], r);
    Countdown(run, actions, j, i);
  }

  // A command starts with new requests, numbered in the order in which they are made, of its
  // own kind: the flushes of a copy first, which are to be sent behind all others, as are the
  // requests of a launch; those of a copy wait behind all others.
  lemma StartsInOrder(run: seq<Sys>, actions: seq<Action>, i: nat)
    requires Run(run, actions) && i < |actions| && (actions[i].StartCopy? || actions[i].StartLaunch?)
    ensures StartedInOrder(run[i], actions[i], run[i + 1])
  {
    hide Inv, Apply, Enabled, Safe, StartedInOrder;
    CommandIsFound(run, actions, i);
    if actions[i].StartCopy? {
      CopyInOrder(run[i], actions[i]);
    } else {
      LaunchInOrder(run[i], actions[i]);
    }
  }

  ghost predicate StartedInOrder(s: Sys, a: Action, t: Sys)
    requires a.StartCopy? || a.StartLaunch?
  {
    && a.q < |s.queues| == |t.queues| && s.queues[a.q].commands != []
    && var made, n := t.queues[a.q].job.started, if a.StartCopy? then a.flushes else a.n;
    && |made| == n + (if a.StartCopy? then a.copies else 0)
    && t.requestsToSend == s.requestsToSend + made[..n] && t.awaitingReqs == s.awaitingReqs + made[n..]
    && forall k :: 0 <= k < |made| ==>
         && made[k].id == s.nextID + k && Belongs(made[k], s.queues[a.q].commands[0].kind)
         && (made[k].kind == FlushReq <==> a.StartCopy? && k < n)
  }

  lemma {:induction false} NewInOrder(kind: ReqKind, from: nat, n: nat)
    ensures |NewReqs(kind, from, n)| == n
    ensures forall k :: 0 <= k < n ==> NewReqs(kind, from, n)[k] == Req(from + k, kind)
  {
    if n > 0 {
      NewInOrder(kind, from, n - 1);
    }
  }

  lemma CopyInOrder(s: Sys, a: Action)
    requires Enabled(s, a) && Safe(s, a) && a.StartCopy?
    ensures StartedInOrder(s, a, Apply(s, a))
  {
    hide NewReqs;
    var kind := CopyKind(s.queues[a.q].commands[0].kind);
    NewInOrder(FlushReq, s.nextID, a.flushes);
    NewInOrder(kind, s.nextID + a.flushes, a.copies);
  }

  lemma LaunchInOrder(s: Sys, a: Action)
    requires Enabled(s, a) && Safe(s, a) && a.StartLaunch?
    ensures StartedInOrder(s, a, Apply(s, a))
  {
    hide NewReqs;
    NewInOrder(LaunchReq, s.nextID, a.n);
  }

  // With the tick after that all of them are handed over, in order and behind the others.
  lemma HandedOver(run: seq<Sys>, actions: seq<Action>, j: nat, i: nat)
    requires Run(run, actions) && j < i < |actions| && actions[j].StartCopy? && NoCopyStarts(actions, j + 1, i)
    requires actions[i].MiddlewareTick? && Ticks(actions, j + 1, i) == actions[j].cycles
    ensures run[i + 1].requestsToSend == run[i].requestsToSend + run[j + 1].awaitingReqs
    ensures run[i + 1].awaitingReqs == []
  {
    hide Inv, Apply, Enabled, Safe;
    Countdown(run, actions, j, i);
    CommandIsFound(run, actions, i);
    WaitingStep(run[i], actions[i]);
  }

  // ---------- the order of sending ----------

  // Requests are sent in the order in which they were handed over: a step sends the first one,
  // or puts new ones behind the others.
  lemma FirstComeFirstSent(run: seq<Sys>, actions: seq<Action>, i: nat)
    requires Run(run, actions) && i < |actions|
    ensures actions[i].Send? ==>
              exists r :: run[i].requestsToSend == [r] + run[i + 1].requestsToSend
                       && run[i + 1].network == run[i].network + multiset{r}
    ensures !actions[i].Send? ==> run[i].requestsToSend <= run[i + 1].requestsToSend
  {
    hide Inv, Safe;
    CommandIsFound(run, actions, i);
    SendStepIs(run[i], actions[i]);
  }

  lemma SendStepIs(s: Sys, a: Action)
    requires Enabled(s, a) && Safe(s, a)
    ensures a.Send? ==>
              && s.requestsToSend != [] && s.requestsToSend == [s.requestsToSend[0]] + Apply(s, a).requestsToSend
              && Apply(s, a).network == s.network + multiset{s.requestsToSend[0]}
    ensures !a.Send? ==> s.requestsToSend <= Apply(s, a).requestsToSend
  {
    hide AddReqs, TakeAnswer, FindQueue, Dequeue, NewReqs;
  }

  // ---------- when a command leaves its queue ----------

  // The action ends the first command of queue k: it is a no-op, or gets the last answer it is
  // owed, and that is not for a flush.
  ghost predicate Ends(s: Sys, a: Action, k: nat)
    requires k < |s.queues|
  {
    a == StartNoop(k) || (a.Return? && a.r.kind != FlushReq && HeadReqs(s.queues[k]) == [a.r])
  }

  ghost predicate Starts(a: Action, k: nat) {
    (a.StartCopy? && a.q == k) || (a.StartLaunch? && a.q == k && a.n > 0)
  }

  lemma {:induction false} OwedOf(queues: seq<Queue>, k: nat, r: Req)
    requires k < |queues|
    ensures multiset(HeadReqs(queues[k]))[r] <= Owed(queues)[r]
  {
    hide HeadReqs;
    if k < |queues| - 1 {
      OwedOf(queues[..|queues| - 1], k, r);
    }
  }

  lemma {:induction false} OwedByOne(queues: seq<Queue>, k: nat, l: nat, r: Req)
    requires k < l < |queues| && r in HeadReqs(queues[k]) && r in HeadReqs(queues[l])
    ensures Owed(queues)[r] >= 2
  {
    hide HeadReqs;
    var n := |queues| - 1;
    assert r in multiset(HeadReqs(queues[l])) && r in multiset(HeadReqs(queues[k]));
    if l < n {
      OwedByOne(queues[..n], k, l, r);
    } else {
      OwedOf(queues[..n], k, r);
    }
  }

  // No other queue than the one that is found is owed the request.
  lemma FoundOnlyOne(s: Sys, k: nat, r: Req)
    requires Inv(s) && k < |s.queues| && r in HeadReqs(s.queues[k])
    ensures FindQueue(s.queues, r) == k
  {
    hide HeadReqs, QueueOk, JobOk, Owed;
    var l := FindQueue(s.queues, r);
    OnceOnly(Places(s), s.nextID, r);
    if l < k {
      OwedByOne(s.queues, l, k, r);
    } else if k < l {
      OwedByOne(s.queues, k, l, r);
    }
  }

  lemma LastAnswer(q: Queue, r: Req)
    requires q.commands != [] && r in q.commands[0].reqs
    ensures RemoveReq(q, r).commands[0].reqs == [] <==> q.commands[0].reqs == [r]
  {
    LastOne(q.commands[0].reqs, r);
  }

  lemma LastOne(reqs: seq<Req>, r: Req)
    requires r in reqs
    ensures Without(reqs, r) == [] <==> reqs == [r]
  {
    hide Without;
    assert |multiset(reqs)| == |multiset(Without(reqs, r))| + 1;
  }

  ghost predicate QueueMoved(s: Sys, a: Action, t: Sys, k: nat)
    requires k < |s.queues| == |t.queues|
  {
    var q, r := s.queues[k], t.queues[k];
    && (Ends(s, a, k) ==>
          && q.commands != [] && !r.isRunning && |r.dequeued| == |q.dequeued| + 1
          && r.dequeued[|q.dequeued|].id == q.commands[0].id && Ids(r.commands) == Ids(q.commands)[1..])
    && (!Ends(s, a, k) ==>
          && r.dequeued == q.dequeued && Ids(q.commands) <= Ids(r.commands)
          && (r.isRunning <==> q.isRunning || Starts(a, k)))
  }

  lemma ReturnMoves(s: Sys, r: Req, k: nat)
    requires Inv(s) && Enabled(s, Return(r)) && Safe(s, Return(r)) && k < |s.queues|
    ensures |Apply(s, Return(r)).queues| == |s.queues| && QueueMoved(s, Return(r), Apply(s, Return(r)), k)
  {
    hide Distinct, Owed, Places, JobOk, FindQueue, Without;
    var l := FindQueue(s.queues, r);
    assert QueueOk(s.queues[l]);
    LastAnswer(s.queues[l], r);
    if r in HeadReqs(s.queues[k]) {
      FoundOnlyOne(s, k, r);
    }
  }

  lemma StartMoves(s: Sys, a: Action, k: nat)
    requires Inv(s) && Enabled(s, a) && Safe(s, a) && (a.StartCopy? || a.StartLaunch?) && k < |s.queues|
    ensures |Apply(s, a).queues| == |s.queues| && QueueMoved(s, a, Apply(s, a), k)
  {
    hide Distinct, Owed, Places, JobOk, FindQueue, Without, NewReqs, CopyKind;
    assert QueueOk(s.queues[k]);
  }

  lemma OtherMoves(s: Sys, a: Action, k: nat)
    requires Inv(s) && Enabled(s, a) && Safe(s, a) && k < |s.queues|
    requires !a.Return? && !a.StartCopy? && !a.StartLaunch?
    ensures |Apply(s, a).queues| == |s.queues| && QueueMoved(s, a, Apply(s, a), k)
  {
    hide Distinct, Owed, Places, JobOk, FindQueue, Without, NewReqs;
    assert QueueOk(s.queues[k]);
  }

  // A command leaves its queue exactly with the action that ends it, and then the queue is free
  // for the next one; until then a queue that was put to work stays at work.
  lemma QueuesMove(run: seq<Sys>, actions: seq<Action>, i: nat, k: nat)
    requires Run(run, actions) && i < |actions| && k < |run[i].queues|
    ensures |run[i + 1].queues| == |run[i].queues| && QueueMoved(run[i], actions[i], run[i + 1], k)
  {
    hide Inv, Apply, Enabled, Safe, QueueMoved;
    RunInv(run, actions, i);
    CommandIsFound(run, actions, i);
    if actions[i].Return? {
      ReturnMoves(run[i], actions[i].r, k);
    } else if actions[i].StartCopy? || actions[i].StartLaunch? {
      StartMoves(run[i], actions[i], k);
    } else {
      OtherMoves(run[i], actions[i], k);
    }
  }
}

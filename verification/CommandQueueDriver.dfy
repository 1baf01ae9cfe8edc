// The command queue objects and the driver's handling of them (mgpusim-V1/driver), proved
// equal to the steps of the state machine.
module CommandQueueDriver {
  import opened CommandQueue

  class QueueObject {
    var commands: seq<Command>
    var isRunning: bool
    ghost var enqueued: seq<nat>
    ghost var dequeued: seq<Command>
    ghost var job: Job

    constructor ()
      ensures View() == NEW_QUEUE
    {
      commands, isRunning, enqueued, dequeued, job := [], false, [], [], Job(Noop, [], []);
    }

    ghost function View(): Queue
      reads this
    {
      Queue(commands, isRunning, enqueued, dequeued, job)
    }

    method EnqueueCommand(id: nat, kind: Kind)
      modifies this
      ensures View() ==
              old(View()).(commands := old(commands) + [Command(id, kind, [])], enqueued := old(enqueued) + [id])
    {
      commands := commands + [Command(id, kind, [])];
      enqueued := enqueued + [id];
    }

    method DequeueCommand() returns (c: Command)
      requires commands != []
      modifies this
      ensures View() == Dequeue(old(View())) && c == old(commands[0])
    {
      c := commands[0];
      commands := commands[1..];
      dequeued := dequeued + [c];
    }

    function NumCommand(): nat
      reads this
    {
      |commands|
    }

    // Adds requests to the first command.
    method AddToHead(reqs: seq<Req>, running: bool)
      requires commands != []
      modifies this
      ensures View() == AddReqs(old(View()), reqs).(isRunning := running)
    {
      job := Job(commands[0].kind, reqs, []);
      commands := [commands[0].(reqs := commands[0].reqs + reqs)] + commands[1..];
      isRunning := running;
    }

    // Takes an answered request off the first command, and ends the command with the last one.
    method TakeAnswerOf(r: Req)
      requires commands != [] && r in commands[0].reqs
      modifies this
      ensures View() == TakeAnswer(old(View()), r)
    {
      var reqs := RemoveMsgFromMsgList(r, commands[0].reqs);
      commands := [commands[0].(reqs := reqs)] + commands[1..];
      job := job.(answered := job.answered + [r]);
      assert View() == RemoveReq(old(View()), r);
      if r.kind != FlushReq && reqs == [] {
        isRunning := false;
        var _ := DequeueCommand();
      }
    }
  }

  lemma WithoutFrom(msgs: seq<Req>, i: nat, msg: Req)
    requires i < |msgs| && msg in msgs[i..]
    ensures msgs[i] == msg ==> Without(msgs[i..], msg) == msgs[i + 1..]
    ensures msgs[i] != msg ==>
              msg in msgs[i + 1..] && Without(msgs[i..], msg) == [msgs[i]] + Without(msgs[i + 1..], msg)
  {
    assert msgs[i..][1..] == msgs[i + 1..];
  }

  // Without the premise it panics.
  method RemoveMsgFromMsgList(msg: Req, msgs: seq<Req>) returns (r: seq<Req>)
    requires msg in msgs
    ensures r == Without(msgs, msg)
  {
    hide Without;
    var i := 0;
    assert msgs[0..] == msgs;
    while msgs[i] != msg
      invariant 0 <= i < |msgs| && msg in msgs[i..]
      invariant Without(msgs, msg) == msgs[..i] + Without(msgs[i..], msg)
      decreases |msgs| - i
    {
      WithoutFrom(msgs, i, msg);
      i := i + 1;
    }
    WithoutFrom(msgs, i, msg);
    r := msgs[..i] + msgs[i + 1..];
  }

  // The other way in which a copy to the device takes off a request: keeping all others. It is
  // the same for a request that occurs once.
  method KeepOthers(msg: Req, msgs: seq<Req>) returns (r: seq<Req>)
    requires multiset(msgs)[msg] == 1
    ensures r == Without(msgs, msg)
  {
    r := [];
    for i := 0 to |msgs|
      invariant r == Others(msgs[..i], msg)
    {
      assert msgs[..i + 1][..i] == msgs[..i];
      if msgs[i] != msg {
        r := r + [msgs[i]];
      }
    }
    assert msgs[..|msgs|] == msgs;
    OthersIsWithout(msgs, msg);
  }

  ghost function Others(msgs: seq<Req>, msg: Req): seq<Req> {
    if msgs == [] then []
    else Others(msgs[..|msgs| - 1], msg) + if msgs[|msgs| - 1] == msg then [] else [msgs[|msgs| - 1]]
  }

  lemma {:induction false} OthersOfConcat(a: seq<Req>, b: seq<Req>, msg: Req)
    ensures Others(a + b, msg) == Others(a, msg) + Others(b, msg)
    decreases |b|
  {
    if b == [] {
      assert a + b == a;
    } else {
      assert (a + b)[..|a + b| - 1] == a + b[..|b| - 1];
      OthersOfConcat(a, b[..|b| - 1], msg);
    }
  }

  lemma {:induction false} NoneToDrop(msgs: seq<Req>, msg: Req)
    requires msg !in msgs
    ensures Others(msgs, msg) == msgs
  {
    if msgs != [] {
      NoneToDrop(msgs[..|msgs| - 1], msg);
      assert msgs == msgs[..|msgs| - 1] + [msgs[|msgs| - 1]];
    }
  }

  lemma {:induction false} OthersIsWithout(msgs: seq<Req>, msg: Req)
    requires multiset(msgs)[msg] == 1
    ensures Others(msgs, msg) == Without(msgs, msg)
  {
    var rest := msgs[1..];
    assert msgs == [msgs[0]] + rest;
    OthersOfConcat([msgs[0]], rest, msg);
    OthersOfOne(msgs[0], msg);
    if msgs[0] == msg {
      assert msg !in multiset(rest);
      NoneToDrop(rest, msg);
    } else {
      OthersIsWithout(rest, msg);
    }
  }

  lemma OthersOfOne(x: Req, msg: Req)
    ensures Others([x], msg) == if x == msg then [] else [x]
  {
    assert [x][..0] == [];
  }

  class CommandDriver {
    const queues: seq<QueueObject>
    var awaitingReqs: seq<Req>
    var requestsToSend: seq<Req>
    var cyclesLeft: int
    var nextID: nat

    constructor (queues: seq<QueueObject>)
      ensures this.queues == queues && awaitingReqs == [] && requestsToSend == [] && cyclesLeft == -1 && nextID == 0
    {
      this.queues := queues;
      awaitingReqs, requestsToSend, cyclesLeft, nextID := [], [], -1, 0;
    }

    ghost predicate Shape() {
      forall i, j :: 0 <= i < j < |queues| ==> queues[i] != queues[j]
    }

    ghost function Queues(): (r: seq<Queue>)
      reads queues
      ensures |r| == |queues| && forall k :: 0 <= k < |r| ==> r[k] == queues[k].View()
    {
      seq(|queues|, k requires 0 <= k < |queues| reads queues => queues[k].View())
    }

    // The state of the driver with what is under way outside of it.
    ghost function View(network: multiset<Req>, returned: multiset<Req>): Sys
      reads this, queues
    {
      Sys(Queues(), awaitingReqs, requestsToSend, cyclesLeft, network, returned, nextID)
    }

    // Makes requests with new numbers.
    method MakeReqs(kind: ReqKind, n: nat) returns (reqs: seq<Req>)
      modifies this`nextID
      ensures reqs == NewReqs(kind, old(nextID), n) && nextID == old(nextID) + n
    {
      reqs := [];
      for i := 0 to n
        invariant reqs == NewReqs(kind, old(nextID), i) && nextID == old(nextID) + i
      {
        reqs := reqs + [Req(nextID, kind)];
        nextID := nextID + 1;
      }
    }

    method ProcessNoopCommand(q: nat, ghost network: multiset<Req>, ghost returned: multiset<Req>)
      requires Shape() && Enabled(View(network, returned), StartNoop(q))
      modifies queues[q]
      ensures View(network, returned) == Apply(old(View(network, returned)), StartNoop(q))
    {
      var _ := queues[q].DequeueCommand();
      assert Queues() == old(Queues())[q := queues[q].View()];
    }

    method ProcessLaunchKernelCommand(q: nat, n: nat, ghost network: multiset<Req>, ghost returned: multiset<Req>)
      requires Shape() && Enabled(View(network, returned), StartLaunch(q, n))
      modifies this, queues[q]
      ensures View(network, returned) == Apply(old(View(network, returned)), StartLaunch(q, n))
    {
      hide NewReqs, AddReqs;
      NewSize(LaunchReq, nextID, n);
      var reqs := MakeReqs(LaunchReq, n);
      queues[q].AddToHead(reqs, n > 0);
      requestsToSend := requestsToSend + reqs;
      assert Queues() == old(Queues())[q := queues[q].View()];
      assert reqs + [] == reqs && awaitingReqs + [] == awaitingReqs;
    }

    static lemma NewSize(kind: ReqKind, from: nat, n: nat)
      ensures |NewReqs(kind, from, n)| == n
    {
      NewFacts(kind, from, n);
    }

    method ProcessMemCopyCommand(q: nat, flushes: nat, copies: nat, cycles: int,
                                 ghost network: multiset<Req>, ghost returned: multiset<Req>)
      requires Shape() && Enabled(View(network, returned), StartCopy(q, flushes, copies, cycles))
      modifies this, queues[q]
      ensures View(network, returned) == Apply(old(View(network, returned)), StartCopy(q, flushes, copies, cycles))
    {
      hide NewReqs, AddReqs, Dequeue, TakeAnswer, FindQueue;
      var kind := if queues[q].commands[0].kind == CopyH2D then H2DReq else D2HReq;
      NewSize(FlushReq, nextID, flushes);
      NewSize(kind, nextID + flushes, copies);
      var now := MakeReqs(FlushReq, flushes);
      var later := MakeReqs(kind, copies);
      Start(q, now, later);
      cyclesLeft := cycles;
    }

    // Gives requests to the first command of a queue, to be sent now and later.
    method Start(q: nat, now: seq<Req>, later: seq<Req>)
      requires Shape() && q < |queues| && queues[q].commands != []
      modifies this`requestsToSend, this`awaitingReqs, queues[q]
      ensures Queues() == old(Queues())[q := AddReqs(old(Queues())[q], now + later).(isRunning := true)]
      ensures requestsToSend == old(requestsToSend) + now && awaitingReqs == old(awaitingReqs) + later
    {
      hide AddReqs;
      queues[q].AddToHead(now + later, true);
      requestsToSend := requestsToSend + now;
      awaitingReqs := awaitingReqs + later;
      assert Queues() == old(Queues())[q := queues[q].View()];
    }

    // Counts down, then hands the waiting requests over.
    method Tick(ghost network: multiset<Req>, ghost returned: multiset<Req>) returns (madeProgress: bool)
      modifies this
      ensures View(network, returned) == Apply(old(View(network, returned)), MiddlewareTick)
      ensures madeProgress == (old(cyclesLeft) >= 0)
    {
      madeProgress := cyclesLeft >= 0;
      if cyclesLeft > 0 {
        cyclesLeft := cyclesLeft - 1;
      } else if cyclesLeft == 0 {
        requestsToSend := requestsToSend + awaitingReqs;
        awaitingReqs := [];
        cyclesLeft := -1;
      }
    }

    method SendOne(ghost network: multiset<Req>, ghost returned: multiset<Req>) returns (r: Req)
      requires requestsToSend != []
      modifies this
      ensures View(network + multiset{r}, returned) == Apply(old(View(network, returned)), Send)
    {
      r := requestsToSend[0];
      requestsToSend := requestsToSend[1..];
    }

    // The first queue whose first command is owed a request.
    method FindCommandByReq(r: Req) returns (k: nat)
      ensures k == FindQueue(Queues(), r)
    {
      k := 0;
      while k < |queues| && !(queues[k].NumCommand() > 0 && r in queues[k].commands[0].reqs)
        invariant k <= |queues| && FindQueue(Queues(), r) == k + FindQueue(Queues()[k..], r)
      {
        assert Queues()[k..][0] == queues[k].View() && Queues()[k..][1..] == Queues()[k + 1..];
        k := k + 1;
      }
      if k < |queues| {
        assert Queues()[k..][0] == queues[k].View();
      }
    }

    // Handles the answer to a request. Without the premise it panics.
    method ProcessReturn(r: Req, ghost network: multiset<Req>, ghost returned: multiset<Req>)
      requires Shape() && r in returned && Safe(View(network, returned), Return(r))
      modifies queues
      ensures View(network, returned - multiset{r}) == Apply(old(View(network, returned)), Return(r))
    {
      hide FindQueue, TakeAnswer;
      var k := FindCommandByReq(r);
      queues[k].TakeAnswerOf(r);
      assert Queues() == old(Queues())[k := queues[k].View()];
    }
  }
}

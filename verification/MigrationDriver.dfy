// The driver object that runs the page-migration protocol: its fields, loops and handlers
// (mgpusim-V1/driver/driver.go), each proved equal to the step of the state machine.
module MigrationDriver {
  import opened Wrappers

  import opened PageMigration

  // Ranging over a map meets its keys once each, in any order.
  ghost predicate Permutes(order: seq<nat>, keys: set<nat>) {
    multiset(order) == multiset(keys)
  }

  lemma {:induction false} RequestingBelow(job: Job, n: nat)
    ensures forall g: nat :: g in Requesting(job, n) <==> g < n && g + 1 in job.pages
  {
    if n > 0 {
      RequestingBelow(job, n - 1);
      var r, q := Requesting(job, n), Requesting(job, n - 1);
      forall g: nat ensures g in r <==> g < n && g + 1 in job.pages {
        assert g in r <==> g in q || (g == n - 1 && n in job.pages);
      }
    }
  }

  // Each requesting GPU is listed once.
  lemma {:induction false} RequestingOnce(job: Job, n: nat)
    ensures multiset(Requesting(job, n)) == multiset(set g | g in Requesting(job, n))
  {
    if n > 0 {
      var r, q := Requesting(job, n), Requesting(job, n - 1);
      RequestingOnce(job, n - 1);
      RequestingBelow(job, n - 1);
      if n in job.pages {
        assert (set g | g in r) == (set g | g in q) + {n - 1};
      } else {
        assert r == q;
      }
    }
  }

  lemma PermutesNone(keys: set<nat>)
    ensures Permutes([], keys - keys)
  {
    assert keys - keys == {};
  }

  lemma PermutesMore(order: seq<nat>, keys: set<nat>, remaining: set<nat>, g: nat)
    requires remaining <= keys && g in remaining && Permutes(order, keys - remaining)
    ensures Permutes(order + [g], keys - (remaining - {g}))
  {
    assert keys - (remaining - {g}) == keys - remaining + {g};
  }

  lemma PermutesAll(order: seq<nat>, keys: set<nat>)
    requires Permutes(order, keys - {})
    ensures Permutes(order, keys)
  {
    assert keys - {} == keys;
  }

  lemma NoCopies(job: Job)
    ensures Copies(job, []) == []
  {
  }

  class MigratingDriver {
    const gpus: nat
    var current: Option<Job>
    var handling: bool
    var requestsToSend: seq<Req>
    var migrationReqToSendToCP: seq<Req>
    var migratingOnePage: bool
    var toSendToMMU: Option<seq<nat>>
    var drainACK: int
    var shootDownACK: int
    var pagesMigratingACK: int
    var restartACK: int
    var rdmaRestartACK: int

    constructor (n: nat)
      ensures gpus == n && View() == Driver(n, None, false, [], [], false, None, 0, 0, 0, 0, 0)
    {
      gpus := n;
      current, handling, requestsToSend, migrationReqToSendToCP := None, false, [], [];
      migratingOnePage, toSendToMMU := false, None;
      drainACK, shootDownACK, pagesMigratingACK, restartACK, rdmaRestartACK := 0, 0, 0, 0, 0;
    }

    ghost function View(): Driver
      reads this
    {
      Driver(gpus, current, handling, requestsToSend, migrationReqToSendToCP, migratingOnePage, toSendToMMU,
             drainACK, shootDownACK, pagesMigratingACK, restartACK, rdmaRestartACK)
    }

    // Takes a request of the MMU unless one is being handled.
    method ParseFromMMU(req: Option<Job>) returns (madeProgress: bool)
      modifies this
      ensures madeProgress == (!old(handling) && req.Some?)
      ensures View() == if madeProgress then PageMigration.ParseFromMMU(old(View()), req.value) else old(View())
    {
      if handling || req.None? {
        return false;
      }
      current, handling := req, true;
      InitiateRDMADrain();
      madeProgress := true;
    }

    method InitiateRDMADrain()
      modifies this`requestsToSend, this`drainACK
      ensures requestsToSend == old(requestsToSend) + Drains(gpus)
      ensures drainACK == old(drainACK) + gpus
    {
      for i := 0 to gpus
        invariant requestsToSend == old(requestsToSend) + Drains(i)
        invariant drainACK == old(drainACK) + i
      {
        assert Drains(i + 1) == Drains(i) + [Drain(i)];
        requestsToSend := requestsToSend + [Drain(i)];
        drainACK := drainACK + 1;
      }
    }

    method ProcessRDMADrainRsp()
      requires drainACK == 1 ==> current.Some? && AccessingInRange(current.value, gpus)
      modifies this
      ensures View() == ProcessDrainRsp(old(View()))
    {
      drainACK := drainACK - 1;
      if drainACK == 0 {
        SendShootDownReqs();
      }
    }

    // All requested addresses, gathered GPU by GPU.
    method RequestedVAddrs(job: Job) returns (vAddr: seq<nat>)
      ensures vAddr == Requested(job, gpus)
    {
      vAddr := [];
      for i := 1 to gpus + 1
        invariant vAddr == Requested(job, i - 1)
      {
        if i in job.pages {
          var pages := job.pages[i];
          ghost var before := vAddr;
          for j := 0 to |pages|
            invariant vAddr == before + pages[..j]
          {
            assert pages[..j + 1] == pages[..j] + [pages[j]];
            vAddr := vAddr + [pages[j]];
          }
          assert pages[..|pages|] == pages;
        }
      }
    }

    method SendShootDownReqs()
      requires current.Some? && AccessingInRange(current.value, gpus)
      modifies this`requestsToSend, this`shootDownACK
      ensures requestsToSend == old(requestsToSend) + Shootdowns(current.value, gpus)
      ensures shootDownACK == |current.value.accessing|
    {
      var vAddr := RequestedVAddrs(current.value);
      AddrsAreRequested(current.value, gpus);
      var accessing := current.value.accessing;
      shootDownACK := |accessing|;
      for i := 0 to |accessing|
        invariant shootDownACK == |accessing|
        invariant requestsToSend == old(requestsToSend) + Shootdowns(current.value, gpus)[..i]
      {
        requestsToSend := requestsToSend + [Shootdown(accessing[i] - 1, vAddr)];
      }
      assert Shootdowns(current.value, gpus)[..|accessing|] == Shootdowns(current.value, gpus);
    }

    method FindRequestingGPUs(job: Job) returns (requesting: seq<nat>)
      ensures requesting == Requesting(job, gpus)
    {
      requesting := [];
      for i := 1 to gpus + 1
        invariant requesting == Requesting(job, i - 1)
      {
        if i in job.pages {
          requesting := requesting + [i - 1];
        }
      }
    }

    // The pages of each requesting GPU, as a map over which the order of passes is arbitrary.
    method PageVAddrs(job: Job) returns (pageVAddrs: map<nat, seq<nat>>)
      ensures multiset(pageVAddrs.Keys) == multiset(Requesting(job, gpus))
      ensures forall g: nat :: g in pageVAddrs <==> g < gpus && g + 1 in job.pages
      ensures forall g :: g in pageVAddrs ==> pageVAddrs[g] == job.pages[g + 1]
    {
      hide Requesting;
      var requesting := FindRequestingGPUs(job);
      RequestingBelow(job, gpus);
      pageVAddrs := map[];
      for i := 0 to |requesting|
        invariant pageVAddrs.Keys == set g | g in requesting[..i]
        invariant forall g :: g in pageVAddrs ==> g + 1 in job.pages && pageVAddrs[g] == job.pages[g + 1]
      {
        assert requesting[..i + 1] == requesting[..i] + [requesting[i]];
        assert requesting[i] in requesting;
        pageVAddrs := pageVAddrs[requesting[i] := job.pages[requesting[i] + 1]];
      }
      assert requesting[..|requesting|] == requesting;
      assert forall g: nat :: g in pageVAddrs.Keys <==> g in requesting;
      RequestingOnce(job, gpus);
    }

    // Requests the copies once all accessing GPUs are shot down.
    method ProcessShootdownCompleteRsp() returns (madeProgress: bool, ghost order: seq<nat>)
      requires shootDownACK == 1 ==> current.Some?
      modifies this
      ensures madeProgress == (old(shootDownACK) == 1)
      ensures madeProgress ==> IsOrder(old(current).value, gpus, order)
      ensures View() == ProcessShootdownRsp(old(View()), order)
    {
      order := [];
      shootDownACK := shootDownACK - 1;
      madeProgress := shootDownACK == 0;
      if madeProgress {
        var pageVAddrs := PageVAddrs(current.value);
        order := RequestCopies(pageVAddrs);
      }
    }

    method RequestCopies(pageVAddrs: map<nat, seq<nat>>) returns (ghost order: seq<nat>)
      requires current.Some?
      requires forall g :: g in pageVAddrs ==>
                 g + 1 in current.value.pages && pageVAddrs[g] == current.value.pages[g + 1]
      modifies this`migrationReqToSendToCP, this`pagesMigratingACK
      ensures Permutes(order, pageVAddrs.Keys)
      ensures migrationReqToSendToCP == old(migrationReqToSendToCP) + Copies(current.value, order)
      ensures pagesMigratingACK == old(pagesMigratingACK) + |Copies(current.value, order)|
    {
      hide Copies, Permutes;
      var remaining := pageVAddrs.Keys;
      order := [];
      NoCopies(current.value);
      PermutesNone(remaining);
      while remaining != {}
        invariant remaining <= pageVAddrs.Keys
        invariant Permutes(order, pageVAddrs.Keys - remaining)
        invariant migrationReqToSendToCP == old(migrationReqToSendToCP) + Copies(current.value, order)
        invariant pagesMigratingACK == old(pagesMigratingACK) + |Copies(current.value, order)|
        decreases |remaining|
      {
        var gpuID :| gpuID in remaining;
        CopiesMore(current.value, order, gpuID);
        PermutesMore(order, pageVAddrs.Keys, remaining, gpuID);
        RequestCopiesTo(gpuID, pageVAddrs[gpuID]);
        order := order + [gpuID];
        remaining := remaining - {gpuID};
      }
      PermutesAll(order, pageVAddrs.Keys);
    }

    method RequestCopiesTo(gpuID: nat, vAddrs: seq<nat>)
      modifies this`migrationReqToSendToCP, this`pagesMigratingACK
      ensures migrationReqToSendToCP == old(migrationReqToSendToCP) + CopiesTo(gpuID, vAddrs)
      ensures pagesMigratingACK == old(pagesMigratingACK) + |vAddrs|
    {
      for i := 0 to |vAddrs|
        invariant migrationReqToSendToCP == old(migrationReqToSendToCP) + CopiesTo(gpuID, vAddrs)[..i]
        invariant pagesMigratingACK == old(pagesMigratingACK) + i
      {
        migrationReqToSendToCP := migrationReqToSendToCP + [Copy(gpuID, vAddrs[i])];
        pagesMigratingACK := pagesMigratingACK + 1;
      }
      assert CopiesTo(gpuID, vAddrs)[..|vAddrs|] == CopiesTo(gpuID, vAddrs);
    }

    // Restarts the GPUs and prepares the answer once all pages are copied.
    method ProcessPageMigrationRspFromCP() returns (ghost order: seq<nat>)
      requires pagesMigratingACK == 1 ==> current.Some? && AccessingInRange(current.value, gpus)
      modifies this
      ensures old(pagesMigratingACK) == 1 ==> IsOrder(old(current).value, gpus, order)
      ensures View() == ProcessCopyRsp(old(View()), order)
    {
      order := [];
      pagesMigratingACK := pagesMigratingACK - 1;
      migratingOnePage := false;
      if pagesMigratingACK == 0 {
        PrepareGPURestartReqs();
        order := PreparePageMigrationRspToMMU();
      }
    }

    method PrepareGPURestartReqs()
      requires current.Some? && AccessingInRange(current.value, gpus)
      modifies this`requestsToSend, this`restartACK
      ensures requestsToSend == old(requestsToSend) + Restarts(current.value, gpus)
      ensures restartACK == old(restartACK) + |current.value.accessing|
    {
      var accessing := current.value.accessing;
      for i := 0 to |accessing|
        invariant requestsToSend == old(requestsToSend) + Restarts(current.value, gpus)[..i]
        invariant restartACK == old(restartACK) + i
      {
        requestsToSend := requestsToSend + [Restart(accessing[i] - 1)];
        restartACK := restartACK + 1;
      }
      assert Restarts(current.value, gpus)[..|accessing|] == Restarts(current.value, gpus);
    }

    method PreparePageMigrationRspToMMU() returns (ghost order: seq<nat>)
      requires current.Some?
      modifies this`toSendToMMU
      ensures IsOrder(current.value, gpus, order) && toSendToMMU == Some(Listed(current.value, order))
    {
      var pageVAddrs := PageVAddrs(current.value);
      var vAddr: seq<nat> := [];
      var remaining := pageVAddrs.Keys;
      order := [];
      while remaining != {}
        invariant remaining <= pageVAddrs.Keys
        invariant Permutes(order, pageVAddrs.Keys - remaining)
        invariant vAddr == Listed(current.value, order)
        decreases |remaining|
      {
        var gpuID :| gpuID in remaining;
        ListedMore(current.value, order, gpuID);
        PermutesMore(order, pageVAddrs.Keys, remaining, gpuID);
        vAddr := AppendAll(vAddr, pageVAddrs[gpuID]);
        order := order + [gpuID];
        remaining := remaining - {gpuID};
      }
      toSendToMMU := Some(vAddr);
    }

    static method AppendAll(vAddr: seq<nat>, vAddrs: seq<nat>) returns (all: seq<nat>)
      ensures all == vAddr + vAddrs
    {
      all := vAddr;
      for j := 0 to |vAddrs|
        invariant all == vAddr + vAddrs[..j]
      {
        all := all + [vAddrs[j]];
      }
      assert vAddrs[..|vAddrs|] == vAddrs;
    }

    method HandleGPURestartRsp()
      modifies this
      ensures View() == ProcessRestartRsp(old(View()))
    {
      restartACK := restartACK - 1;
      if restartACK == 0 {
        PrepareRDMARestartReqs();
      }
    }

    method PrepareRDMARestartReqs()
      modifies this`requestsToSend, this`rdmaRestartACK
      ensures requestsToSend == old(requestsToSend) + Undrains(gpus)
      ensures rdmaRestartACK == old(rdmaRestartACK) + gpus
    {
      for i := 0 to gpus
        invariant requestsToSend == old(requestsToSend) + Undrains(i)
        invariant rdmaRestartACK == old(rdmaRestartACK) + i
      {
        assert Undrains(i + 1) == Undrains(i) + [Undrain(i)];
        requestsToSend := requestsToSend + [Undrain(i)];
        rdmaRestartACK := rdmaRestartACK + 1;
      }
    }

    method ProcessRDMARestartRspToDriver()
      modifies this
      ensures View() == ProcessUndrainRsp(old(View()))
    {
      rdmaRestartACK := rdmaRestartACK - 1;
      if rdmaRestartACK == 0 {
        current, handling := None, false;
      }
    }

    // Sending: the port may refuse, and then nothing changes. Otherwise the driver makes the
    // step of the state machine, whatever goes on around it.
    method SendToGPUs(accepts: bool, ghost s: Sys) returns (sent: Option<Req>)
      requires s.d == View()
      modifies this`requestsToSend
      ensures sent.Some? <==> accepts && Enabled(s, Action.SendToGPUs)
      ensures if sent.None? then View() == s.d
              else var r := Apply(s, Action.SendToGPUs);
                View() == r.d && r.network == s.network + multiset{sent.value}
    {
      if requestsToSend == [] || !accepts {
        return None;
      }
      sent := Some(requestsToSend[0]);
      requestsToSend := requestsToSend[1..];
    }

    method SendToMMU(accepts: bool, ghost s: Sys) returns (sent: Option<seq<nat>>)
      requires s.d == View()
      modifies this`toSendToMMU
      ensures sent.Some? <==> accepts && Enabled(s, Action.SendToMMU)
      ensures if sent.None? then View() == s.d
              else var r := Apply(s, Action.SendToMMU); View() == r.d && r.answers == s.answers + [sent.value]
    {
      if toSendToMMU.None? || !accepts {
        return None;
      }
      sent := toSendToMMU;
      toSendToMMU := None;
    }

    // One page at a time.
    method SendMigrationReqToCP(accepts: bool, ghost s: Sys) returns (sent: Option<Req>)
      requires s.d == View()
      modifies this`migrationReqToSendToCP, this`migratingOnePage
      ensures sent.Some? <==> accepts && Enabled(s, SendToCP)
      ensures if sent.None? then View() == s.d
              else var r := Apply(s, SendToCP); View() == r.d && r.network == s.network + multiset{sent.value}
    {
      if migrationReqToSendToCP == [] || migratingOnePage || !accepts {
        return None;
      }
      sent := Some(migrationReqToSendToCP[0]);
      migrationReqToSendToCP := migrationReqToSendToCP[1..];
      migratingOnePage := true;
    }
  }
}

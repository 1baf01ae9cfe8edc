// The busy time of a set of tasks (akita/tracing/busytimetracer.go), over integer ticks: how
// far the sum over clusters of tasks can be from the time that some task was running.
module BusyTime {

  datatype Task = Task(start: int, end: int)

  ghost predicate Forward(tasks: seq<Task>) {
    forall i :: 0 <= i < |tasks| ==> tasks[i].start <= tasks[i].end
  }

  ghost function Range(lo: int, hi: int): (r: set<int>)
    requires lo <= hi
    ensures |r| == hi - lo && forall c :: c in r <==> lo <= c < hi
    decreases hi - lo
  {
    if lo == hi then {} else Range(lo, hi - 1) + {hi - 1}
  }

  // The unit cells of time that a task runs in.
  ghost function Cells(t: Task): (r: set<int>)
    ensures forall c :: c in r <==> t.start <= c < t.end
  {
    if t.start <= t.end then Range(t.start, t.end) else {}
  }

  lemma CellCount(t: Task)
    requires t.start <= t.end
    ensures |Cells(t)| == t.end - t.start
  {
  }

  // ---------- sums and unions over the tasks of a mask ----------

  ghost function SumOf(tasks: seq<Task>, mask: set<int>): int {
    if tasks == [] then 0
    else
      var n := |tasks| - 1;
      SumOf(tasks[..n], mask) + if n in mask then tasks[n].end - tasks[n].start else 0
  }

  ghost function UnionOf(tasks: seq<Task>, mask: set<int>): set<int> {
    if tasks == [] then {}
    else
      var n := |tasks| - 1;
      UnionOf(tasks[..n], mask) + if n in mask then Cells(tasks[n]) else {}
  }

  lemma {:induction false} MaskMore(tasks: seq<Task>, mask: set<int>, j: int)
    requires j !in mask && 0 <= j
    ensures SumOf(tasks, mask + {j}) == SumOf(tasks, mask) + if j < |tasks| then tasks[j].end - tasks[j].start else 0
    ensures UnionOf(tasks, mask + {j}) == UnionOf(tasks, mask) + if j < |tasks| then Cells(tasks[j]) else {}
  {
    hide Cells;
    if tasks != [] {
      MaskMore(tasks[..|tasks| - 1], mask, j);
    }
  }

  lemma {:induction false} NoMask(tasks: seq<Task>)
    ensures SumOf(tasks, {}) == 0 && UnionOf(tasks, {}) == {}
  {
    if tasks != [] {
      NoMask(tasks[..|tasks| - 1]);
    }
  }

  ghost function AllOf(tasks: seq<Task>): (r: set<int>)
    ensures forall i :: i in r <==> 0 <= i < |tasks|
  {
    Range(0, |tasks|)
  }

  // The total length of the tasks, and the time in which some task runs.
  ghost function Total(tasks: seq<Task>): int {
    SumOf(tasks, AllOf(tasks))
  }

  ghost function Running(tasks: seq<Task>): set<int> {
    UnionOf(tasks, AllOf(tasks))
  }

  lemma {:induction false} RunningCells(tasks: seq<Task>, mask: set<int>, c: int)
    ensures c in UnionOf(tasks, mask) <==> exists i :: 0 <= i < |tasks| && i in mask && c in Cells(tasks[i])
  {
    hide Cells;
    if tasks != [] {
      RunningCells(tasks[..|tasks| - 1], mask, c);
    }
  }

  // ---------- overlap ----------

  predicate TaskTimeOverlap(t1: Task, t2: Task) {
    || (t1.start <= t2.start && t1.end >= t2.start)
    || (t1.start <= t2.end && t1.end >= t2.end)
    || (t1.start >= t2.start && t1.end <= t2.end)
  }

  // Tasks overlap exactly if they have a moment in common; the ends count.
  lemma OverlapIff(t1: Task, t2: Task)
    requires t1.start <= t1.end && t2.start <= t2.end
    ensures TaskTimeOverlap(t1, t2) <==> t1.start <= t2.end && t2.start <= t1.end
  {
  }

  function Extended(base: Task, t: Task): Task {
    Task(if t.start < base.start then t.start else base.start, if t.end > base.end then t.end else base.end)
  }

  // Extending a time span by a task that overlaps with part of it leaves no gap, and makes it
  // longer by no more than the length of that task.
  lemma ExtendFacts(t1: Task, ext: Task, t2: Task)
    requires t1.start <= t1.end && t2.start <= t2.end && TaskTimeOverlap(t1, t2)
    requires ext.start <= t1.start && t1.end <= ext.end
    ensures var r := Extended(ext, t2);
            && r.start <= t1.start && t1.end <= r.end
            && Cells(r) == Cells(ext) + Cells(t2)
            && r.end - r.start <= ext.end - ext.start + (t2.end - t2.start)
  {
    hide Cells;
  }

  // ---------- clusters ----------

  ghost function HullSum(hulls: seq<Task>): int {
    if hulls == [] then 0 else HullSum(hulls[..|hulls| - 1]) + hulls[|hulls| - 1].end - hulls[|hulls| - 1].start
  }

  ghost function HullUnion(hulls: seq<Task>): set<int> {
    if hulls == [] then {} else HullUnion(hulls[..|hulls| - 1]) + Cells(hulls[|hulls| - 1])
  }

  lemma HullsMore(hulls: seq<Task>, h: Task)
    ensures HullSum(hulls + [h]) == HullSum(hulls) + h.end - h.start
    ensures HullUnion(hulls + [h]) == HullUnion(hulls) + Cells(h)
  {
    assert (hulls + [h])[..|hulls|] == hulls;
  }

  lemma UnionSize(a: set<int>, b: set<int>)
    ensures |a + b| <= |a| + |b|
    ensures |a + b| == |a| + |b| <==> a !! b
  {
    assert a + b == a + (b - a);
    assert b == (b - a) + (a * b);
    assert |b| == |b - a| + |a * b|;
    assert |a + b| == |a| + |b - a|;
    if |a * b| == 0 {
      assert a * b == {};
    }
  }

  // ---------- who joins which cluster ----------

  // A task starts a cluster if it overlaps with no earlier task that starts one.
  ghost predicate Leads(tasks: seq<Task>, i: int)
    decreases i
  {
    0 <= i < |tasks| && forall l :: 0 <= l < i && Leads(tasks, l) ==> !TaskTimeOverlap(tasks[l], tasks[i])
  }

  ghost function HeadFrom(tasks: seq<Task>, j: nat, l: nat): (h: nat)
    requires l <= j < |tasks| && Forward(tasks)
    requires forall k :: 0 <= k < l && Leads(tasks, k) ==> !TaskTimeOverlap(tasks[k], tasks[j])
    ensures l <= h <= j && Leads(tasks, h) && TaskTimeOverlap(tasks[h], tasks[j])
    ensures forall k :: 0 <= k < h && Leads(tasks, k) ==> !TaskTimeOverlap(tasks[k], tasks[j])
    decreases j - l
  {
    if l == j || (Leads(tasks, l) && TaskTimeOverlap(tasks[l], tasks[j])) then l else HeadFrom(tasks, j, l + 1)
  }

  // The first task that starts a cluster and overlaps with task j.
  ghost function HeadOf(tasks: seq<Task>, j: nat): (h: nat)
    requires j < |tasks| && Forward(tasks)
    ensures h <= j && Leads(tasks, h) && TaskTimeOverlap(tasks[h], tasks[j])
    ensures forall k :: 0 <= k < h && Leads(tasks, k) ==> !TaskTimeOverlap(tasks[k], tasks[j])
  {
    HeadFrom(tasks, j, 0)
  }

  // The time span from the start of the earliest to the end of the latest of tasks[l] and
  // those of the first n tasks whose head is l.
  ghost function HullFrom(tasks: seq<Task>, l: nat, n: nat): (h: Task)
    requires l < |tasks| && n <= |tasks| && Forward(tasks)
    ensures h.start <= tasks[l].start && tasks[l].end <= h.end
  {
    if n == 0 then tasks[l]
    else
      var h := HullFrom(tasks, l, n - 1);
      if HeadOf(tasks, n - 1) == l then Extended(h, tasks[n - 1]) else h
  }

  ghost function HullOf(tasks: seq<Task>, l: nat): (h: Task)
    requires l < |tasks| && Forward(tasks)
    ensures h.start <= tasks[l].start <= tasks[l].end <= h.end
  {
    HullFrom(tasks, l, |tasks|)
  }

  // The hulls of the clusters that the first n tasks start, in that order.
  ghost function HullsFrom(tasks: seq<Task>, n: nat): seq<Task>
    requires n <= |tasks| && Forward(tasks)
  {
    if n == 0 then []
    else if Leads(tasks, n - 1) then HullsFrom(tasks, n - 1) + [HullOf(tasks, n - 1)]
    else HullsFrom(tasks, n - 1)
  }

  ghost function Hulls(tasks: seq<Task>): seq<Task>
    requires Forward(tasks)
  {
    HullsFrom(tasks, |tasks|)
  }

  // No two tasks with different heads have time in common.
  ghost predicate HeadsApart(tasks: seq<Task>)
    requires Forward(tasks)
  {
    forall i, j :: 0 <= i < |tasks| && 0 <= j < |tasks| && HeadOf(tasks, i) != HeadOf(tasks, j) ==>
      Cells(tasks[i]) !! Cells(tasks[j])
  }

  ghost predicate LeadersApart(tasks: seq<Task>, n: nat)
    requires n <= |tasks| && Forward(tasks)
  {
    forall l, m :: 0 <= l < m < n && Leads(tasks, l) && Leads(tasks, m) ==>
      Cells(HullOf(tasks, l)) !! Cells(HullOf(tasks, m))
  }

  ghost predicate JoinsAt(tasks: seq<Task>, l: nat, n: nat, c: int, j: int)
    requires n <= |tasks| && Forward(tasks)
  {
    0 <= j < n && HeadOf(tasks, j) == l && c in Cells(tasks[j])
  }

  // Some task among the first n has head l and runs in cell c.
  ghost predicate Joins(tasks: seq<Task>, l: nat, n: nat, c: int)
    requires n <= |tasks| && Forward(tasks)
  {
    exists j :: JoinsAt(tasks, l, n, c, j)
  }

  lemma JoinsMore(tasks: seq<Task>, l: nat, n: nat, c: int)
    requires 0 < n <= |tasks| && Forward(tasks)
    ensures Joins(tasks, l, n, c) <==>
            Joins(tasks, l, n - 1, c) || (HeadOf(tasks, n - 1) == l && c in Cells(tasks[n - 1]))
  {
    hide Cells, HeadOf;
    if HeadOf(tasks, n - 1) == l && c in Cells(tasks[n - 1]) {
      assert JoinsAt(tasks, l, n, c, n - 1);
    } else if Joins(tasks, l, n - 1, c) {
      var j :| JoinsAt(tasks, l, n - 1, c, j);
      assert JoinsAt(tasks, l, n, c, j);
    } else {
      assert forall j :: JoinsAt(tasks, l, n, c, j) ==> JoinsAt(tasks, l, n - 1, c, j);
    }
  }

  // A hull has no time in it that its first task or one that joined does not have.
  lemma {:induction false} HullCells(tasks: seq<Task>, l: nat, n: nat, c: int)
    requires l < |tasks| && n <= |tasks| && Forward(tasks)
    ensures c in Cells(HullFrom(tasks, l, n)) <==>
            c in Cells(tasks[l]) || Joins(tasks, l, n, c)
  {
    hide Cells, Leads, HeadOf;
    if n > 0 {
      HullCells(tasks, l, n - 1, c);
      JoinsMore(tasks, l, n, c);
      if HeadOf(tasks, n - 1) == l {
        ExtendFacts(tasks[l], HullFrom(tasks, l, n - 1), tasks[n - 1]);
      }
    }
  }

  lemma HeadOfLeader(tasks: seq<Task>, l: nat)
    requires l < |tasks| && Forward(tasks)
    ensures Leads(tasks, l) <==> HeadOf(tasks, l) == l
  {
  }

  // The time in the hull of a cluster is the time of its tasks.
  lemma ClusterCells(tasks: seq<Task>, l: nat, c: int)
    requires l < |tasks| && Forward(tasks) && Leads(tasks, l)
    ensures c in Cells(HullOf(tasks, l)) <==> Joins(tasks, l, |tasks|, c)
  {
    hide Cells, Leads, HeadOf, HullFrom;
    HullCells(tasks, l, |tasks|, c);
    HeadOfLeader(tasks, l);
    assert c in Cells(tasks[l]) ==> JoinsAt(tasks, l, |tasks|, c, l);
  }

  ghost predicate CoveredBy(tasks: seq<Task>, n: nat, c: int, l: int)
    requires n <= |tasks| && Forward(tasks)
  {
    0 <= l < n && Leads(tasks, l) && c in Cells(HullOf(tasks, l))
  }

  ghost predicate Covered(tasks: seq<Task>, n: nat, c: int)
    requires n <= |tasks| && Forward(tasks)
  {
    exists l :: CoveredBy(tasks, n, c, l)
  }

  lemma CoveredMore(tasks: seq<Task>, n: nat, c: int)
    requires 0 < n <= |tasks| && Forward(tasks)
    ensures Covered(tasks, n, c) <==>
            Covered(tasks, n - 1, c) || (Leads(tasks, n - 1) && c in Cells(HullOf(tasks, n - 1)))
  {
    hide Cells, Leads, HullOf;
    if Leads(tasks, n - 1) && c in Cells(HullOf(tasks, n - 1)) {
      assert CoveredBy(tasks, n, c, n - 1);
    } else if Covered(tasks, n - 1, c) {
      var l :| CoveredBy(tasks, n - 1, c, l);
      assert CoveredBy(tasks, n, c, l);
    } else {
      assert forall l :: CoveredBy(tasks, n, c, l) ==> CoveredBy(tasks, n - 1, c, l);
    }
  }

  lemma {:induction false} InHulls(tasks: seq<Task>, n: nat, c: int)
    requires n <= |tasks| && Forward(tasks)
    ensures c in HullUnion(HullsFrom(tasks, n)) <==> Covered(tasks, n, c)
  {
    hide Cells, Leads, HeadOf, HullOf, HullUnion;
    if n == 0 {
      EmptyHulls();
    } else {
      InHulls(tasks, n - 1, c);
      HullsMore(HullsFrom(tasks, n - 1), HullOf(tasks, n - 1));
      CoveredMore(tasks, n, c);
    }
  }

  lemma ApartStep(tasks: seq<Task>, n: nat)
    requires n < |tasks| && Forward(tasks) && Leads(tasks, n)
    ensures LeadersApart(tasks, n + 1) <==>
            LeadersApart(tasks, n) && HullUnion(HullsFrom(tasks, n)) !! Cells(HullOf(tasks, n))
  {
    hide Cells, Leads, HeadOf, HullOf, HullUnion, HullsFrom;
    forall c ensures c in HullUnion(HullsFrom(tasks, n)) <==> Covered(tasks, n, c) {
      InHulls(tasks, n, c);
    }
    if LeadersApart(tasks, n + 1) {
      assert HullUnion(HullsFrom(tasks, n)) !! Cells(HullOf(tasks, n));
    } else if HullUnion(HullsFrom(tasks, n)) !! Cells(HullOf(tasks, n)) {
      forall l | 0 <= l < n && Leads(tasks, l) ensures Cells(HullOf(tasks, l)) !! Cells(HullOf(tasks, n)) {
        assert forall c :: c in Cells(HullOf(tasks, l)) ==> CoveredBy(tasks, n, c, l);
      }
    }
  }

  // The clusters count no time twice exactly if their hulls are disjoint.
  lemma {:induction false} CountedOnceIff(tasks: seq<Task>, n: nat)
    requires n <= |tasks| && Forward(tasks)
    ensures |HullUnion(HullsFrom(tasks, n))| <= HullSum(HullsFrom(tasks, n))
    ensures |HullUnion(HullsFrom(tasks, n))| == HullSum(HullsFrom(tasks, n)) <==> LeadersApart(tasks, n)
  {
    hide Cells, Leads, HeadOf, HullOf, HullUnion, HullSum;
    if n == 0 {
      EmptyHulls();
    } else {
      CountedOnceIff(tasks, n - 1);
      if Leads(tasks, n - 1) {
        var h := HullOf(tasks, n - 1);
        HullsMore(HullsFrom(tasks, n - 1), h);
        CellCount(h);
        UnionSize(HullUnion(HullsFrom(tasks, n - 1)), Cells(h));
        ApartStep(tasks, n - 1);
      }
    }
  }

  // The hulls are disjoint exactly if no two tasks of different clusters share time.
  lemma ApartIff(tasks: seq<Task>)
    requires Forward(tasks)
    ensures LeadersApart(tasks, |tasks|) <==> HeadsApart(tasks)
  {
    hide Cells, Leads, HullOf, HeadOf;
    forall l, c | 0 <= l < |tasks| && Leads(tasks, l)
      ensures c in Cells(HullOf(tasks, l)) <==> Joins(tasks, l, |tasks|, c)
    {
      ClusterCells(tasks, l, c);
    }
    if LeadersApart(tasks, |tasks|) {
      forall i, j | 0 <= i < |tasks| && 0 <= j < |tasks| && HeadOf(tasks, i) != HeadOf(tasks, j)
        ensures Cells(tasks[i]) !! Cells(tasks[j])
      {
        InHull(tasks, i);
        InHull(tasks, j);
        var l, m := HeadOf(tasks, i), HeadOf(tasks, j);
        assert l < m || m < l;
      }
    }
  }

  lemma InHull(tasks: seq<Task>, j: nat)
    requires j < |tasks| && Forward(tasks)
    ensures Leads(tasks, HeadOf(tasks, j)) && Cells(tasks[j]) <= Cells(HullOf(tasks, HeadOf(tasks, j)))
  {
    hide Cells, Leads, HeadOf, HullOf;
    forall c | c in Cells(tasks[j]) ensures c in Cells(HullOf(tasks, HeadOf(tasks, j))) {
      assert JoinsAt(tasks, HeadOf(tasks, j), |tasks|, c, j);
      ClusterCells(tasks, HeadOf(tasks, j), c);
    }
  }

  lemma EmptyHulls()
    ensures HullSum([]) == 0 && HullUnion([]) == {}
  {
  }

  // ---------- the algorithm ----------

  // Exactly the tasks with a head before i are covered.
  ghost predicate CoveredBelow(tasks: seq<Task>, i: nat, covered: set<int>)
    requires Forward(tasks)
  {
    forall j :: 0 <= j < |tasks| ==> (j in covered <==> HeadOf(tasks, j) < i)
  }

  // On the way to j in the cluster of i.
  ghost predicate CoveredUpTo(tasks: seq<Task>, i: nat, j: nat, covered: set<int>)
    requires Forward(tasks)
  {
    forall k :: 0 <= k < |tasks| ==>
      (k in covered <==> HeadOf(tasks, k) < i || k == i || (k < j && HeadOf(tasks, k) == i))
  }

  lemma JoinsIff(tasks: seq<Task>, i: nat, j: nat)
    requires Forward(tasks) && i < |tasks| && j < |tasks| && Leads(tasks, i)
    ensures HeadOf(tasks, j) == i <==> HeadOf(tasks, j) >= i && TaskTimeOverlap(tasks[i], tasks[j])
    ensures HeadOf(tasks, i) == i
  {
    hide Leads;
    HeadOfLeader(tasks, i);
  }

  lemma ClusterStarts(tasks: seq<Task>, i: nat, covered: set<int>)
    requires Forward(tasks) && i < |tasks| && i !in covered && CoveredBelow(tasks, i, covered)
    ensures Leads(tasks, i) && HullFrom(tasks, i, 0) == tasks[i] && CoveredUpTo(tasks, i, 0, covered + {i})
  {
    hide Leads;
    HeadOfLeader(tasks, i);
  }

  lemma ClusterStep(tasks: seq<Task>, i: nat, j: nat, covered: set<int>)
    requires Forward(tasks) && i < |tasks| && j < |tasks| && Leads(tasks, i) && CoveredUpTo(tasks, i, j, covered)
    ensures if j !in covered && TaskTimeOverlap(tasks[i], tasks[j])
            then HullFrom(tasks, i, j + 1) == Extended(HullFrom(tasks, i, j), tasks[j])
              && CoveredUpTo(tasks, i, j + 1, covered + {j})
            else HullFrom(tasks, i, j + 1) == HullFrom(tasks, i, j) && CoveredUpTo(tasks, i, j + 1, covered)
  {
    hide Leads, HeadOf, TaskTimeOverlap;
    JoinsIff(tasks, i, j);
  }

  lemma ClusterEnds(tasks: seq<Task>, i: nat, covered: set<int>, newCovered: set<int>)
    requires Forward(tasks) && i < |tasks| && Leads(tasks, i)
    requires CoveredBelow(tasks, i, covered) && CoveredUpTo(tasks, i, |tasks|, newCovered)
    ensures CoveredBelow(tasks, i + 1, newCovered) && HullOf(tasks, i) == HullFrom(tasks, i, |tasks|)
    ensures forall j :: 0 <= j < |tasks| ==>
      (j in newCovered <==> j in covered || j == i || TaskTimeOverlap(tasks[i], tasks[j]))
  {
    hide Leads, HeadOf, TaskTimeOverlap, HullFrom;
    forall j | 0 <= j < |tasks|
      ensures HeadOf(tasks, j) == i <==> HeadOf(tasks, j) >= i && TaskTimeOverlap(tasks[i], tasks[j])
      ensures HeadOf(tasks, i) == i
    {
      JoinsIff(tasks, i, j);
    }
  }

  // The tasks that overlap with the first one of a cluster join it: covered are the tasks
  // with an earlier head, and those with this one come in.
  method Cluster(tasks: seq<Task>, i: nat, covered: set<int>) returns (ext: Task, newCovered: set<int>)
    requires Forward(tasks) && i < |tasks| && i !in covered && covered <= AllOf(tasks)
    requires CoveredBelow(tasks, i, covered)
    ensures Leads(tasks, i) && ext == HullOf(tasks, i)
    ensures newCovered <= AllOf(tasks) && CoveredBelow(tasks, i + 1, newCovered)
    ensures forall j :: 0 <= j < |tasks| ==>
      (j in newCovered <==> j in covered || j == i || TaskTimeOverlap(tasks[i], tasks[j]))
    ensures UnionOf(tasks, newCovered) == UnionOf(tasks, covered) + Cells(ext)
    ensures ext.end - ext.start <= SumOf(tasks, newCovered) - SumOf(tasks, covered)
  {
    hide SumOf, UnionOf, Cells, Leads, HeadOf, CoveredUpTo, CoveredBelow, HullOf, HullFrom, TaskTimeOverlap;
    newCovered := covered + {i};
    ext := tasks[i];
    MaskMore(tasks, covered, i);
    ClusterStarts(tasks, i, covered);
    for j := 0 to |tasks|
      invariant newCovered <= AllOf(tasks) && CoveredUpTo(tasks, i, j, newCovered)
      invariant ext == HullFrom(tasks, i, j)
      invariant UnionOf(tasks, newCovered) == UnionOf(tasks, covered) + Cells(ext)
      invariant ext.end - ext.start <= SumOf(tasks, newCovered) - SumOf(tasks, covered)
    {
      ClusterStep(tasks, i, j, newCovered);
      if j !in newCovered && TaskTimeOverlap(tasks[i], tasks[j]) {
        MaskMore(tasks, newCovered, j);
        ExtendFacts(tasks[i], ext, tasks[j]);
        newCovered := newCovered + {j};
        ext := Extended(ext, tasks[j]);
      }
    }
    ClusterEnds(tasks, i, covered, newCovered);
  }

  // The busy time is what the hulls of the clusters sum up to. It lies between the time in
  // which some task runs and the total length of the tasks, and is the former exactly if no
  // two tasks of different clusters have time in common.
  method TaskBusyTime(tasks: seq<Task>) returns (busyTime: int)
    requires Forward(tasks)
    ensures busyTime == HullSum(Hulls(tasks)) && HullUnion(Hulls(tasks)) == Running(tasks)
    ensures |Running(tasks)| <= busyTime <= Total(tasks)
    ensures busyTime == |Running(tasks)| <==> HeadsApart(tasks)
  {
    hide *;
    busyTime := 0;
    var coveredMask: set<int> := {};
    NoMask(tasks);
    NoHulls(tasks);
    for i := 0 to |tasks|
      invariant coveredMask <= AllOf(tasks)
      invariant CoveredBelow(tasks, i, coveredMask)
      invariant busyTime == HullSum(HullsFrom(tasks, i))
      invariant HullUnion(HullsFrom(tasks, i)) == UnionOf(tasks, coveredMask)
      invariant busyTime <= SumOf(tasks, coveredMask)
    {
      NextHead(tasks, i, coveredMask);
      if i in coveredMask {
        continue;
      }
      var ext: Task;
      ext, coveredMask := Cluster(tasks, i, coveredMask);
      busyTime := busyTime + ext.end - ext.start;
    }
    AllCovered(tasks, coveredMask);
    CountedOnceIff(tasks, |tasks|);
    ApartIff(tasks);
    HullsAreAll(tasks);
  }

  lemma NoHulls(tasks: seq<Task>)
    requires Forward(tasks)
    ensures HullSum(HullsFrom(tasks, 0)) == 0 && HullUnion(HullsFrom(tasks, 0)) == {}
    ensures CoveredBelow(tasks, 0, {})
  {
    EmptyHulls();
  }

  // A task that is covered when the loop comes to it starts no cluster.
  lemma NextHead(tasks: seq<Task>, i: nat, covered: set<int>)
    requires Forward(tasks) && i < |tasks| && CoveredBelow(tasks, i, covered)
    ensures i in covered ==> CoveredBelow(tasks, i + 1, covered) && HullsFrom(tasks, i + 1) == HullsFrom(tasks, i)
    ensures i !in covered ==>
      && HullSum(HullsFrom(tasks, i + 1)) ==
         HullSum(HullsFrom(tasks, i)) + HullOf(tasks, i).end - HullOf(tasks, i).start
      && HullUnion(HullsFrom(tasks, i + 1)) == HullUnion(HullsFrom(tasks, i)) + Cells(HullOf(tasks, i))
  {
    hide Cells, Leads, HullOf, HullSum, HullUnion, HeadOf;
    HeadOfLeader(tasks, i);
    HullsMore(HullsFrom(tasks, i), HullOf(tasks, i));
    if HeadOf(tasks, i) < i {
      NoHead(tasks, i);
    }
  }

  lemma AllCovered(tasks: seq<Task>, covered: set<int>)
    requires Forward(tasks) && covered <= AllOf(tasks) && CoveredBelow(tasks, |tasks|, covered)
    ensures covered == AllOf(tasks) && UnionOf(tasks, covered) == Running(tasks) &&
            SumOf(tasks, covered) == Total(tasks)
  {
    hide Leads, UnionOf, SumOf;
  }

  lemma HullsAreAll(tasks: seq<Task>)
    requires Forward(tasks)
    ensures Hulls(tasks) == HullsFrom(tasks, |tasks|)
  {
  }

  lemma NoHead(tasks: seq<Task>, i: nat)
    requires Forward(tasks) && i < |tasks| && HeadOf(tasks, i) < i
    ensures forall j :: 0 <= j < |tasks| ==> HeadOf(tasks, j) != i
  {
    hide Leads;
    HeadOfLeader(tasks, i);
  }

  // ---------- an input that counts twice ----------

  const CHAIN := [Task(0, 2), Task(1, 4), Task(3, 5)]

  // Three tasks in a chain: the third one does not overlap with the first, so it makes a
  // cluster of its own, and the time that it shares with the second counts twice.
  lemma ChainCountsTwice()
    ensures Hulls(CHAIN) == [Task(0, 4), Task(3, 5)] && HullSum(Hulls(CHAIN)) == 6
    ensures |Running(CHAIN)| == 5 && !HeadsApart(CHAIN)
  {
    ChainRuns();
    ChainHeads();
    hide Cells, Running, Leads, HeadOf;
    assert HullOf(CHAIN, 0) == Task(0, 4) && HullOf(CHAIN, 2) == Task(3, 5);
    var hulls := [Task(0, 4), Task(3, 5)];
    assert HullsFrom(CHAIN, 1) == [Task(0, 4)];
    assert HullsFrom(CHAIN, 2) == [Task(0, 4)];
    assert hulls[..1] == [Task(0, 4)] && hulls[..1][..0] == [];
    assert HullSum(hulls[..1]) == 4;
    assert 3 in Cells(CHAIN[1]) && 3 in Cells(CHAIN[2]);
    assert HeadOf(CHAIN, 1) != HeadOf(CHAIN, 2);
  }

  lemma ChainHeads()
    ensures Leads(CHAIN, 0) && !Leads(CHAIN, 1) && Leads(CHAIN, 2)
    ensures HeadOf(CHAIN, 0) == 0 && HeadOf(CHAIN, 1) == 0 && HeadOf(CHAIN, 2) == 2
  {
    assert Leads(CHAIN, 0);
    assert TaskTimeOverlap(CHAIN[0], CHAIN[1]);
    assert !TaskTimeOverlap(CHAIN[0], CHAIN[2]);
    assert !Leads(CHAIN, 1);
  }

  lemma ChainRuns()
    ensures |Running(CHAIN)| == 5
  {
    hide Cells, Range, UnionOf;
    forall c ensures c in Running(CHAIN) <==> c in Cells(Task(0, 5)) {
      RunningCells(CHAIN, AllOf(CHAIN), c);
      InChain(c);
    }
    CellCount(Task(0, 5));
    assert Running(CHAIN) == Cells(Task(0, 5));
  }

  lemma InChain(c: int)
    ensures (exists i :: 0 <= i < |CHAIN| && i in AllOf(CHAIN) && c in Cells(CHAIN[i])) <==> c in Cells(Task(0, 5))
  {
    hide Cells, Range;
    assert c in Cells(CHAIN[0]) || c in Cells(CHAIN[1]) || c in Cells(CHAIN[2]) <==> 0 <= c < 5;
  }
}

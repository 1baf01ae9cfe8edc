// The average number of tasks in a time bin, computed by a sweep over the sorted starts and
// ends (akita/daisen/componentinfo.go), over exact reals.
module SweepLine {

  datatype Task = Task(start: real, end: real)

  datatype Timestamp = Timestamp(time: real, isStart: bool)

  function Max(a: real, b: real): real {
    if a < b then b else a
  }

  function Min(a: real, b: real): real {
    if a < b then a else b
  }

  // ---------- the reference ----------

  // How long a task overlaps with a bin.
  ghost function Overlap(t: Task, from: real, to: real): real {
    Max(0.0, Min(t.end, to) - Max(t.start, from))
  }

  ghost function TotalOverlap(tasks: seq<Task>, from: real, to: real): real {
    if tasks == [] then 0.0
    else TotalOverlap(tasks[..|tasks| - 1], from, to) + Overlap(tasks[|tasks| - 1], from, to)
  }

  ghost predicate Forward(tasks: seq<Task>) {
    forall i :: 0 <= i < |tasks| ==> tasks[i].start <= tasks[i].end
  }

  // ---------- weights of timestamps ----------

  ghost function Clamp(t: real, from: real, to: real): real {
    Max(from, Min(t, to))
  }

  // A start adds what is left of the bin, an end takes it away.
  ghost function Weight(s: Timestamp, from: real, to: real): real {
    if s.isStart then to - Clamp(s.time, from, to) else Clamp(s.time, from, to) - to
  }

  ghost function Weights(ts: seq<Timestamp>, from: real, to: real): real {
    if ts == [] then 0.0 else Weights(ts[..|ts| - 1], from, to) + Weight(ts[|ts| - 1], from, to)
  }

  lemma {:induction false} WeightsConcat(a: seq<Timestamp>, b: seq<Timestamp>, from: real, to: real)
    ensures Weights(a + b, from, to) == Weights(a, from, to) + Weights(b, from, to)
    decreases |b|
  {
    hide Weight;
    if b == [] {
      assert a + b == a;
    } else {
      assert (a + b)[..|a + b| - 1] == a + b[..|b| - 1];
      WeightsConcat(a, b[..|b| - 1], from, to);
    }
  }

  lemma WeightsPick(a: seq<Timestamp>, j: nat, from: real, to: real)
    requires j < |a|
    ensures Weights(a, from, to) == Weights(a[..j] + a[j + 1..], from, to) + Weight(a[j], from, to)
    ensures multiset(a) == multiset(a[..j] + a[j + 1..]) + multiset{a[j]}
  {
    var x, y := a[..j], a[j + 1..];
    assert a == x + ([a[j]] + y);
    WeightsConcat(x, [a[j]] + y, from, to);
    WeightsConcat([a[j]], y, from, to);
    WeightsConcat(x, y, from, to);
    assert [a[j]][..0] == [];
  }

  // The order of the timestamps does not matter for the sum.
  lemma {:induction false} WeightsPermute(a: seq<Timestamp>, b: seq<Timestamp>, from: real, to: real)
    requires multiset(a) == multiset(b)
    ensures Weights(a, from, to) == Weights(b, from, to)
    decreases |a|
  {
    hide Weight;
    if a == [] {
      assert |multiset(b)| == 0;
    } else {
      var n := |a| - 1;
      assert a[n] in multiset(b);
      var j :| 0 <= j < |b| && b[j] == a[n];
      WeightsPick(a, n, from, to);
      WeightsPick(b, j, from, to);
      assert multiset(a[..n] + a[n + 1..]) == multiset(a) - multiset{a[n]} == multiset(b[..j] + b[j + 1..]);
      WeightsPermute(a[..n] + a[n + 1..], b[..j] + b[j + 1..], from, to);
    }
  }

  ghost function Stamps(tasks: seq<Task>): seq<Timestamp> {
    if tasks == [] then []
    else
      var t := tasks[|tasks| - 1];
      Stamps(tasks[..|tasks| - 1]) + [Timestamp(t.start, true), Timestamp(t.end, false)]
  }

  lemma PairWeight(t: Task, from: real, to: real)
    requires t.start <= t.end && from <= to
    ensures Weights([Timestamp(t.start, true), Timestamp(t.end, false)], from, to) == Overlap(t, from, to)
  {
    var a, b := Timestamp(t.start, true), Timestamp(t.end, false);
    assert [a, b][..1] == [a] && [a][..0] == [];
    assert Weights([a, b], from, to) == Weights([a], from, to) + Weight(b, from, to);
    assert Weights([a], from, to) == Weight(a, from, to);
  }

  // A task's start and end together weigh its overlap.
  lemma {:induction false} StampsWeigh(tasks: seq<Task>, from: real, to: real)
    requires Forward(tasks) && from <= to
    ensures Weights(Stamps(tasks), from, to) == TotalOverlap(tasks, from, to)
  {
    if tasks != [] {
      var n := |tasks| - 1;
      StampsWeigh(tasks[..n], from, to);
      PairWeight(tasks[n], from, to);
      WeightsConcat(Stamps(tasks[..n]), [Timestamp(tasks[n].start, true), Timestamp(tasks[n].end, false)], from, to);
    }
  }

  // ---------- sorting ----------

  ghost predicate Sorted(ts: seq<Timestamp>) {
    forall i, j :: 0 <= i < j < |ts| ==> ts[i].time <= ts[j].time
  }

  // Stands for the library's sort: any order of equal times would do.
  method Sort(ts: seq<Timestamp>) returns (r: seq<Timestamp>)
    ensures Sorted(r) && multiset(r) == multiset(ts)
  {
    r := [];
    for i := 0 to |ts|
      invariant Sorted(r) && multiset(r) == multiset(ts[..i])
    {
      assert ts[..i + 1] == ts[..i] + [ts[i]];
      r := Insert(r, ts[i]);
    }
    assert ts[..|ts|] == ts;
  }

  method Insert(ts: seq<Timestamp>, s: Timestamp) returns (r: seq<Timestamp>)
    requires Sorted(ts)
    ensures Sorted(r) && multiset(r) == multiset(ts) + multiset{s}
  {
    var k := 0;
    while k < |ts| && ts[k].time <= s.time
      invariant k <= |ts| && forall i :: 0 <= i < k ==> ts[i].time <= s.time
    {
      k := k + 1;
    }
    assert ts == ts[..k] + ts[k..];
    r := ts[..k] + [s] + ts[k..];
  }

  // ---------- the sweep ----------

  method TaskToTimeStamps(tasks: seq<Task>) returns (ts: seq<Timestamp>)
    ensures Sorted(ts) && multiset(ts) == multiset(Stamps(tasks))
  {
    ts := [];
    for i := 0 to |tasks|
      invariant ts == Stamps(tasks[..i])
    {
      assert tasks[..i + 1][..i] == tasks[..i];
      ts := ts + [Timestamp(tasks[i].start, true), Timestamp(tasks[i].end, false)];
    }
    assert tasks[..|tasks|] == tasks;
    ts := Sort(ts);
  }

  lemma WeightsNext(ts: seq<Timestamp>, i: nat, from: real, to: real)
    requires i < |ts|
    ensures Weights(ts[..i + 1], from, to) == Weights(ts[..i], from, to) + Weight(ts[i], from, to)
  {
    assert ts[..i + 1][..i] == ts[..i];
  }

  // From the end of the bin on, nothing weighs anything.
  lemma {:induction false} NoWeightAfter(ts: seq<Timestamp>, i: nat, from: real, to: real)
    requires i <= |ts| && from <= to && forall j :: i <= j < |ts| ==> ts[j].time >= to
    ensures Weights(ts, from, to) == Weights(ts[..i], from, to)
    decreases |ts| - i
  {
    if i == |ts| {
      assert ts[..i] == ts;
    } else {
      NoWeightAfter(ts, i + 1, from, to);
      WeightsNext(ts, i, from, to);
    }
  }

  lemma CountUp(timeByCount: real, duration: real, count: int, left: real)
    ensures timeByCount + duration * count as real + (left - duration) * count as real ==
            timeByCount + left * count as real
  {
    assert (left - duration) * count as real == left * count as real - duration * count as real;
  }

  lemma OneMore(left: real, count: int)
    ensures left * (count + 1) as real == left * count as real + left
    ensures left * (count - 1) as real == left * count as real - left
  {
    assert (count + 1) as real == count as real + 1.0 && (count - 1) as real == count as real - 1.0;
  }

  method CalculateAvgTaskCount(ts: seq<Timestamp>, from: real, to: real) returns (avg: real)
    requires Sorted(ts) && from < to
    ensures avg * (to - from) == Weights(ts, from, to)
  {
    hide Weights;
    var count, timeByCount, prevTime := 0, 0.0, from;
    assert ts[..0] == [];
    EmptyWeighs(from, to);
    var i := 0;
    while i < |ts| && !(ts[i].time >= to && ts[i].time >= from)
      invariant 0 <= i <= |ts| && from <= prevTime <= to
      invariant i < |ts| && ts[i].time >= from ==> prevTime <= ts[i].time
      invariant prevTime > from ==> i > 0 && prevTime == ts[i - 1].time
      invariant timeByCount + (to - prevTime) * count as real == Weights(ts[..i], from, to)
      decreases |ts| - i
    {
      var s := ts[i];
      WeightsNext(ts, i, from, to);
      if s.time < from {
      } else {
        var duration := s.time - prevTime;
        if duration < 0.0 {
          assert false; // the panic "duration is smaller than 0"
        }
        CountUp(timeByCount, duration, count, to - prevTime);
        timeByCount := timeByCount + duration * count as real;
        prevTime := s.time;
      }
      OneMore(to - prevTime, count);
      count := if s.isStart then count + 1 else count - 1;
      i := i + 1;
    }
    NoWeightAfter(ts, i, from, to);
    timeByCount := timeByCount + (to - prevTime) * count as real;
    avg := timeByCount / (to - from);
  }

  lemma EmptyWeighs(from: real, to: real)
    ensures Weights([], from, to) == 0.0
  {
  }

  // ---------- the tasks of a bin ----------

  predicate IsTaskOverlapsWithBin(t: Task, from: real, to: real) {
    !(t.end < from) && !(t.start > to)
  }

  // The filter drops no task that overlaps with the bin.
  method GetTasksInBin(tasks: seq<Task>, from: real, to: real) returns (r: seq<Task>)
    requires Forward(tasks)
    ensures Forward(r) && TotalOverlap(r, from, to) == TotalOverlap(tasks, from, to)
    ensures forall t :: t in r <==> t in tasks && from <= t.end && t.start <= to
  {
    r := [];
    for i := 0 to |tasks|
      invariant Forward(r) && TotalOverlap(r, from, to) == TotalOverlap(tasks[..i], from, to)
      invariant forall t :: t in r <==> t in tasks[..i] && IsTaskOverlapsWithBin(t, from, to)
    {
      assert tasks[..i + 1][..i] == tasks[..i];
      if IsTaskOverlapsWithBin(tasks[i], from, to) {
        assert (r + [tasks[i]])[..|r|] == r;
        r := r + [tasks[i]];
      }
    }
    assert tasks[..|tasks|] == tasks;
  }

  // The average of a bin is the sum of the overlaps over the length of the bin.
  method AverageOfBin(tasks: seq<Task>, from: real, to: real) returns (avg: real)
    requires Forward(tasks) && from < to
    ensures avg * (to - from) == TotalOverlap(tasks, from, to)
  {
    var inBin := GetTasksInBin(tasks, from, to);
    var ts := TaskToTimeStamps(inBin);
    avg := CalculateAvgTaskCount(ts, from, to);
    WeightsPermute(ts, Stamps(inBin), from, to);
    StampsWeigh(inBin, from, to);
  }

  // ---------- all bins together ----------

  lemma {:induction false} OverlapsAdd(tasks: seq<Task>, a: real, b: real, c: real)
    requires Forward(tasks) && a <= b <= c
    ensures TotalOverlap(tasks, a, c) == TotalOverlap(tasks, a, b) + TotalOverlap(tasks, b, c)
  {
    if tasks != [] {
      OverlapsAdd(tasks[..|tasks| - 1], a, b, c);
      OverlapAdds(tasks[|tasks| - 1], a, b, c);
    }
  }

  lemma OverlapAdds(t: Task, a: real, b: real, c: real)
    requires t.start <= t.end && a <= b <= c
    ensures Overlap(t, a, c) == Overlap(t, a, b) + Overlap(t, b, c)
  {
  }

  lemma {:induction false} NoOverlap(tasks: seq<Task>, a: real)
    requires Forward(tasks)
    ensures TotalOverlap(tasks, a, a) == 0.0
  {
    if tasks != [] {
      NoOverlap(tasks[..|tasks| - 1], a);
    }
  }

  ghost function SumOf(values: seq<real>): real {
    if values == [] then 0.0 else SumOf(values[..|values| - 1]) + values[|values| - 1]
  }

  // The area under the averages of bins of one length.
  ghost function Area(data: seq<real>, length: real): real {
    SumOf(data) * length
  }

  lemma NoArea(length: real)
    ensures Area([], length) == 0.0
  {
  }

  lemma AreaMore(data: seq<real>, avg: real, from: real, to: real)
    ensures Area(data + [avg], to - from) == Area(data, to - from) + avg * (to - from)
  {
    assert (data + [avg])[..|data|] == data;
    assert (SumOf(data) + avg) * (to - from) == SumOf(data) * (to - from) + avg * (to - from);
  }

  function BinDuration(start: real, end: real, numDots: nat): real
    requires numDots > 0
  {
    (end - start) / numDots as real
  }

  function BinTime(start: real, length: real, i: nat): real {
    i as real * length + start
  }

  lemma BinsFit(start: real, end: real, numDots: nat)
    requires start < end && numDots > 0
    ensures var d := BinDuration(start, end, numDots);
            d > 0.0 && BinTime(start, d, 0) == start && BinTime(start, d, numDots) == end
            && d * numDots as real == end - start
  {
  }

  lemma NextBin(start: real, length: real, i: nat)
    requires length > 0.0
    ensures start <= BinTime(start, length, i) == start + i as real * length
    ensures BinTime(start, length, i + 1) == BinTime(start, length, i) + length
  {
    assert (i + 1) as real == i as real + 1.0;
  }

  // What is shown of a bin: its middle, and the average.
  datatype Dot = Dot(time: real, value: real)

  ghost function Values(dots: seq<Dot>): seq<real> {
    seq(|dots|, i requires 0 <= i < |dots| => dots[i].value)
  }

  // The dot of the bin that begins at `from`.
  ghost predicate IsDot(tasks: seq<Task>, dot: Dot, from: real, length: real) {
    dot.time == from + length / 2.0 && dot.value * length == TotalOverlap(tasks, from, from + length)
  }

  method NextAverage(tasks: seq<Task>, ghost data: seq<real>, start: real, from: real, to: real) returns (avg: real)
    requires Forward(tasks) && start <= from < to && Area(data, to - from) == TotalOverlap(tasks, start, from)
    ensures Area(data + [avg], to - from) == TotalOverlap(tasks, start, to)
    ensures avg * (to - from) == TotalOverlap(tasks, from, to)
  {
    avg := AverageOfBin(tasks, from, to);
    AreaMore(data, avg, from, to);
    OverlapsAdd(tasks, start, from, to);
  }

  // The next bin's dot, and what has been covered with it.
  method NextDot(tasks: seq<Task>, ghost data: seq<Dot>, start: real, length: real, i: nat) returns (dot: Dot)
    requires Forward(tasks) && length > 0.0
    requires Area(Values(data), length) == TotalOverlap(tasks, start, BinTime(start, length, i))
    ensures IsDot(tasks, dot, BinTime(start, length, i), length)
    ensures Area(Values(data + [dot]), length) == TotalOverlap(tasks, start, BinTime(start, length, i + 1))
  {
    hide TotalOverlap, Area, BinTime;
    NextBin(start, length, i);
    var binStart := BinTime(start, length, i);
    var binEnd := BinTime(start, length, i + 1);
    var avg := NextAverage(tasks, Values(data), start, binStart, binEnd);
    dot := Dot(binStart + 0.5 * length, avg);
    assert Values(data + [dot]) == Values(data) + [avg];
  }

  // Each bin shows its own average, and nothing is lost between the bins: their averages times
  // the length of a bin add up to the overlap of all tasks with the whole time range.
  method CalculateTimeWeightedTaskCount(tasks: seq<Task>, start: real, end: real, numDots: nat)
    returns (data: seq<Dot>)
    requires Forward(tasks) && start < end && numDots > 0
    ensures |data| == numDots
    ensures var length := BinDuration(start, end, numDots);
            && length * numDots as real == end - start
            && (forall i :: 0 <= i < numDots ==> IsDot(tasks, data[i], start + i as real * length, length))
            && Area(Values(data), length) == TotalOverlap(tasks, start, end)
  {
    hide TotalOverlap, Area, BinDuration, BinTime, IsDot, Values;
    BinsFit(start, end, numDots);
    NoOverlap(tasks, start);
    var binDuration := BinDuration(start, end, numDots);
    data := [];
    NoDots(binDuration);
    for i := 0 to numDots
      invariant |data| == i
      invariant Area(Values(data), binDuration) == TotalOverlap(tasks, start, BinTime(start, binDuration, i))
      invariant forall k :: 0 <= k < i ==> IsDot(tasks, data[k], BinTime(start, binDuration, k), binDuration)
    {
      var dot := NextDot(tasks, data, start, binDuration, i);
      data := data + [dot];
    }
    BinsStart(start, binDuration, numDots);
  }

  lemma NoDots(length: real)
    ensures Area(Values([]), length) == 0.0
  {
    assert Values([]) == [];
    NoArea(length);
  }

  lemma BinsStart(start: real, length: real, numDots: nat)
    ensures forall k :: 0 <= k < numDots ==> BinTime(start, length, k) == start + k as real * length
  {
  }
}

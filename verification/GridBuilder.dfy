// The grid builder: counting the work-groups that a filter accepts and yielding them one after
// the other (mgpusim-V1/kernels/gridbuilder.go).
module GridBuilder {
  import opened Wrappers

  import opened MixedRadix
  import opened WorkGroups

  function Min(a: int, b: int): int {
    if a < b then a else b
  }

  datatype WorkGroup = WorkGroup(idx: Idx, size: Idx, currSize: Idx)

  // The size of a work-group along one side, cut off at the end of the grid.
  function CurrSize(grid: nat, wg: nat, id: nat): (n: nat)
    requires grid > 0 && wg > 0 && id < NumWG(grid, wg)
  {
    Left(grid, wg, id);
    Min(grid - id * wg, wg)
  }

  function GroupAt(p: Packet, i: Idx): WorkGroup
    requires ValidPacket(p) && InGrid(p, i)
  {
    WorkGroup(i, Idx(p.wgX, p.wgY, p.wgZ),
              Idx(CurrSize(p.gridX, p.wgX, i.x), CurrSize(p.gridY, p.wgY, i.y), CurrSize(p.gridZ, p.wgZ, i.z)))
  }

  // What is left of a side from a work-group on: nothing past the last one, and no more than
  // one work-group exactly at the last one.
  lemma Left(grid: nat, wg: nat, id: nat)
    requires grid > 0 && wg > 0
    ensures id < NumWG(grid, wg) <==> grid - id * wg > 0
    ensures id + 1 < NumWG(grid, wg) <==> grid - id * wg > wg
  {
    LeftAt((grid - 1) / wg, (grid - 1) % wg, wg, id);
  }

  lemma LeftAt(q: nat, r: nat, wg: nat, id: nat)
    requires r < wg
    ensures id <= q <==> q * wg + r + 1 - id * wg > 0
    ensures id < q <==> q * wg + r + 1 - id * wg > wg
  {
    if id < q {
      MulLess(id, q, wg);
    } else if q < id {
      MulLess(q, id, wg);
    }
  }

  // Every point of a side lies in one work-group, and every place of a work-group on one point.
  lemma PointsTile(grid: nat, wg: nat, id: nat, l: nat)
    requires grid > 0 && wg > 0
    ensures id < NumWG(grid, wg) && l < CurrSize(grid, wg, id) <==>
            l < wg && id * wg + l < grid
    ensures l < wg ==> (id * wg + l) / wg == id && (id * wg + l) % wg == l
  {
    Left(grid, wg, id);
    if l < wg {
      DivMod(id, l, wg);
    }
  }

  // Place l of a work-group is on a point of its side.
  ghost predicate OnSide(grid: nat, wg: nat, id: nat, l: nat) {
    l < wg && id * wg + l < grid
  }

  // A work-group has the nominal size of the packet, and along each side exactly the places
  // that are on points of the grid.
  ghost predicate Fits(p: Packet, w: WorkGroup) {
    && w.size.x == p.wgX && w.size.y == p.wgY && w.size.z == p.wgZ
    && (forall l: nat :: OnSide(p.gridX, p.wgX, w.idx.x, l) <==> l < w.currSize.x)
    && (forall l: nat :: OnSide(p.gridY, p.wgY, w.idx.y, l) <==> l < w.currSize.y)
    && (forall l: nat :: OnSide(p.gridZ, p.wgZ, w.idx.z, l) <==> l < w.currSize.z)
  }

  lemma SideFits(grid: nat, wg: nat, id: nat)
    requires grid > 0 && wg > 0 && id < NumWG(grid, wg)
    ensures forall l: nat :: OnSide(grid, wg, id, l) <==> l < CurrSize(grid, wg, id)
  {
    hide CurrSize, NumWG;
    forall l: nat ensures OnSide(grid, wg, id, l) <==> l < CurrSize(grid, wg, id) {
      PointsTile(grid, wg, id, l);
    }
  }

  lemma GroupFits(p: Packet, i: Idx)
    requires ValidPacket(p) && InGrid(p, i)
    ensures Fits(p, GroupAt(p, i)) && GroupAt(p, i).idx == i
  {
    hide CurrSize, NumWG, OnSide;
    SideFits(p.gridX, p.wgX, i.x);
    SideFits(p.gridY, p.wgY, i.y);
    SideFits(p.gridZ, p.wgZ, i.z);
  }

  // A point of the grid is in a place of a work-group.
  ghost predicate Holds(w: WorkGroup, point: Idx) {
    && HoldsSide(w.size.x, w.idx.x, w.currSize.x, point.x)
    && HoldsSide(w.size.y, w.idx.y, w.currSize.y, point.y)
    && HoldsSide(w.size.z, w.idx.z, w.currSize.z, point.z)
  }

  ghost predicate HoldsSide(wg: nat, id: nat, curr: nat, x: nat) {
    id * wg <= x < id * wg + curr
  }

  ghost predicate IsPoint(p: Packet, point: Idx) {
    point.x < p.gridX && point.y < p.gridY && point.z < p.gridZ
  }

  // The work-group that a point belongs to.
  ghost function GroupOf(p: Packet, point: Idx): Idx
    requires ValidPacket(p)
  {
    Idx(point.x / p.wgX, point.y / p.wgY, point.z / p.wgZ)
  }

  lemma SideHolds(grid: nat, wg: nat, id: nat, curr: nat, x: nat)
    requires wg > 0 && forall l: nat :: OnSide(grid, wg, id, l) <==> l < curr
    ensures HoldsSide(wg, id, curr, x) <==> x < grid && x / wg == id
  {
    var q, r := x / wg, x % wg;
    assert x == q * wg + r;
    if q < id {
      MulLess(q, id, wg);
    } else if q > id {
      MulLess(id, q, wg);
      assert !OnSide(grid, wg, id, x - id * wg);
    } else {
      assert OnSide(grid, wg, id, r) <==> r < curr;
    }
  }

  // Every point of the grid is in one work-group, and a work-group holds no other points.
  lemma PointInGroup(p: Packet, w: WorkGroup, point: Idx)
    requires ValidPacket(p) && InGrid(p, w.idx) && Fits(p, w)
    ensures Holds(w, point) <==> IsPoint(p, point) && w.idx == GroupOf(p, point)
  {
    hide NumWG, OnSide, HoldsSide;
    SideHolds(p.gridX, p.wgX, w.idx.x, w.currSize.x, point.x);
    SideHolds(p.gridY, p.wgY, w.idx.y, w.currSize.y, point.y);
    SideHolds(p.gridZ, p.wgZ, w.idx.z, w.currSize.z, point.z);
  }

  lemma SideInGrid(grid: nat, wg: nat, x: nat)
    requires wg > 0 && x < grid
    ensures x / wg < NumWG(grid, wg)
  {
    assert x == x / wg * wg + x % wg;
    Left(grid, wg, x / wg);
  }

  lemma GroupInGrid(p: Packet, point: Idx)
    requires ValidPacket(p) && IsPoint(p, point)
    ensures InGrid(p, GroupOf(p, point))
  {
    hide NumWG;
    SideInGrid(p.gridX, p.wgX, point.x);
    SideInGrid(p.gridY, p.wgY, point.y);
    SideInGrid(p.gridZ, p.wgZ, point.z);
  }

  // ---------- the accepted work-groups ----------

  ghost predicate PassesAt(p: Packet, filter: Filter, f: nat)
    requires ValidPacket(p)
  {
    Passes(filter, IdxAt(NX(p), NY(p), f))
  }

  // The accepted work-groups from lo to hi, by flattened number.
  ghost function Accepted(p: Packet, filter: Filter, lo: nat, hi: nat): seq<nat>
    requires ValidPacket(p)
    decreases hi - lo
  {
    if lo >= hi then []
    else (if PassesAt(p, filter, lo) then [lo] else []) + Accepted(p, filter, lo + 1, hi)
  }

  ghost function AcceptedSet(p: Packet, filter: Filter, lo: nat, hi: nat): set<nat>
    requires ValidPacket(p)
  {
    set f | lo <= f < hi && PassesAt(p, filter, f)
  }

  lemma AcceptedUnfold(p: Packet, filter: Filter, lo: nat, hi: nat)
    requires ValidPacket(p) && lo < hi
    ensures PassesAt(p, filter, lo) ==>
      && multiset(Accepted(p, filter, lo, hi)) == multiset(Accepted(p, filter, lo + 1, hi)) + multiset{lo}
      && multiset(AcceptedSet(p, filter, lo, hi)) == multiset(AcceptedSet(p, filter, lo + 1, hi)) + multiset{lo}
    ensures !PassesAt(p, filter, lo) ==>
      && Accepted(p, filter, lo, hi) == Accepted(p, filter, lo + 1, hi)
      && AcceptedSet(p, filter, lo, hi) == AcceptedSet(p, filter, lo + 1, hi)
  {
    hide PassesAt;
    if PassesAt(p, filter, lo) {
      assert AcceptedSet(p, filter, lo, hi) == AcceptedSet(p, filter, lo + 1, hi) + {lo};
    } else {
      assert AcceptedSet(p, filter, lo, hi) == AcceptedSet(p, filter, lo + 1, hi);
    }
  }

  // Each accepted work-group occurs once, and nothing else does.
  lemma {:induction false} AcceptedOnce(p: Packet, filter: Filter, lo: nat, hi: nat)
    requires ValidPacket(p)
    ensures multiset(Accepted(p, filter, lo, hi)) == multiset(AcceptedSet(p, filter, lo, hi))
    decreases hi - lo
  {
    if lo >= hi {
      assert AcceptedSet(p, filter, lo, hi) == {};
    } else {
      AcceptedOnce(p, filter, lo + 1, hi);
      AcceptedUnfold(p, filter, lo, hi);
      hide *;
    }
  }

  lemma AcceptedCount(p: Packet, filter: Filter, lo: nat, hi: nat)
    requires ValidPacket(p)
    ensures |Accepted(p, filter, lo, hi)| == |AcceptedSet(p, filter, lo, hi)|
  {
    AcceptedOnce(p, filter, lo, hi);
    assert |multiset(Accepted(p, filter, lo, hi))| == |multiset(AcceptedSet(p, filter, lo, hi))|;
  }

  lemma AcceptedBounds(p: Packet, filter: Filter, lo: nat, hi: nat, i: nat)
    requires ValidPacket(p) && i < |Accepted(p, filter, lo, hi)|
    ensures lo <= Accepted(p, filter, lo, hi)[i] < hi
  {
    AcceptedOnce(p, filter, lo, hi);
    assert Accepted(p, filter, lo, hi)[i] in multiset(Accepted(p, filter, lo, hi));
  }

  // They come in the order of their flattened numbers.
  lemma {:induction false} AcceptedAscends(p: Packet, filter: Filter, lo: nat, hi: nat, i: nat, j: nat)
    requires ValidPacket(p) && i < j < |Accepted(p, filter, lo, hi)|
    ensures Accepted(p, filter, lo, hi)[i] < Accepted(p, filter, lo, hi)[j]
    decreases hi - lo
  {
    hide PassesAt, ValidPacket;
    if PassesAt(p, filter, lo) {
      AcceptedBounds(p, filter, lo + 1, hi, j - 1);
      if i > 0 {
        AcceptedAscends(p, filter, lo + 1, hi, i - 1, j - 1);
      }
    } else {
      AcceptedAscends(p, filter, lo + 1, hi, i, j);
    }
  }

  // So they are yielded layer by layer, in a layer row by row.
  lemma YieldedInRows(p: Packet, filter: Filter, i: nat, j: nat)
    requires ValidPacket(p) && i < j < |Accepted(p, filter, 0, Total(p))|
    ensures var fs := Accepted(p, filter, 0, Total(p));
            && InGrid(p, IdxAt(NX(p), NY(p), fs[i])) && InGrid(p, IdxAt(NX(p), NY(p), fs[j]))
            && Precedes(IdxAt(NX(p), NY(p), fs[i]), IdxAt(NX(p), NY(p), fs[j]))
  {
    hide NumWG, Accepted, IdxAt, Precedes;
    var fs := Accepted(p, filter, 0, Total(p));
    AcceptedAscends(p, filter, 0, Total(p), i, j);
    AcceptedBounds(p, filter, 0, Total(p), i);
    AcceptedBounds(p, filter, 0, Total(p), j);
    AtInBox(NX(p), NY(p), NZ(p), fs[i]);
    AtInBox(NX(p), NY(p), NZ(p), fs[j]);
    FlatAt(NX(p), NY(p), fs[i]);
    FlatAt(NX(p), NY(p), fs[j]);
    FlatOrders(NX(p), NY(p), IdxAt(NX(p), NY(p), fs[i]), IdxAt(NX(p), NY(p), fs[j]));
  }

  // ---------- the builder ----------

  class Builder {
    var packet: Packet
    var filter: Filter
    var numWG: nat
    var xid: nat
    var yid: nat
    var zid: nat

    // The flattened number of the cursor.
    ghost function Pos(): nat
      requires ValidPacket(packet)
      reads this
    {
      Flat(NX(packet), NY(packet), Idx(xid, yid, zid))
    }

    ghost predicate Valid()
      reads this
    {
      && ValidPacket(packet) && xid < NX(packet) && yid < NY(packet)
      && Pos() <= Total(packet)
      && numWG == |Accepted(packet, filter, 0, Total(packet))|
    }

    // The work-groups that are still to be yielded.
    ghost function Remaining(): seq<nat>
      requires ValidPacket(packet)
      reads this
    {
      Accepted(packet, filter, Pos(), Total(packet))
    }

    constructor SetKernel(packet: Packet, filter: Filter)
      requires ValidPacket(packet)
      ensures Valid() && this.packet == packet && this.filter == filter
      ensures Remaining() == Accepted(packet, filter, 0, Total(packet))
    {
      this.packet, this.filter := packet, filter;
      xid, yid, zid := 0, 0, 0;
      var n := CountWG(packet, filter);
      numWG := n;
      new;
      assert Pos() == 0;
    }

    // The next accepted work-group in flattened order; after the last one, nothing forever.
    method NextWG() returns (wg: Option<WorkGroup>)
      requires Valid()
      modifies this`xid, this`yid, this`zid
      ensures Valid()
      ensures old(Remaining()) == [] ==> wg == None && Remaining() == []
      ensures old(Remaining()) != [] ==>
        var f := old(Remaining())[0];
        && wg.Some? && wg.value.idx == IdxAt(NX(packet), NY(packet), f) && InGrid(packet, wg.value.idx)
        && Fits(packet, wg.value)
        && Remaining() == old(Remaining())[1..]
    {
      hide IdxAt, Flat, Accepted, ValidPacket, GroupAt, Yields, InGrid, Fits;
      ghost var before := Remaining();
      wg := None;
      var inGrid := true;
      while inGrid && wg.None?
        invariant Valid()
        invariant wg.None? ==> Remaining() == before
        invariant !inGrid ==> wg.None? && before == []
        invariant wg.Some? ==> Yields(packet, filter, wg.value, before, Remaining())
        decreases if inGrid && wg.None? then Total(packet) + 1 - Pos() else 0
      {
        inGrid, wg := TryNext();
      }
      if wg.Some? {
        YieldsMeans(packet, filter, wg.value, before, Remaining());
        GroupFits(packet, wg.value.idx);
      }
    }

    // One pass of the loop of NextWG: past the end, a work-group that the filter rejects, or
    // one that it accepts.
    method TryNext() returns (inGrid: bool, wg: Option<WorkGroup>)
      requires Valid()
      modifies this`xid, this`yid, this`zid
      ensures Valid() && (inGrid ==> Pos() == old(Pos()) + 1)
      ensures !inGrid ==> wg.None? && Remaining() == old(Remaining()) == []
      ensures wg.None? ==> Remaining() == old(Remaining())
      ensures wg.Some? ==> Yields(packet, filter, wg.value, old(Remaining()), Remaining())
    {
      hide IdxAt, Flat, Accepted, ValidPacket, Yields, Total;
      CursorInGrid(packet, Idx(xid, yid, zid));
      LeftInGrid(packet, Idx(xid, yid, zid));
      var xLeft := packet.gridX - xid * packet.wgX;
      var yLeft := packet.gridY - yid * packet.wgY;
      var zLeft := packet.gridZ - zid * packet.wgZ;
      if xLeft <= 0 || yLeft <= 0 || zLeft <= 0 {
        NothingFrom(packet, filter, Pos());
        return false, None;
      }
      var next := GroupAt(packet, Idx(xid, yid, zid));
      OneStep(packet, filter, next.idx, Pos());
      Advance();
      inGrid := true;
      wg := if Passes(filter, next.idx) then Some(next) else None;
    }

    // Moves the cursor to the next work-group.
    method Advance()
      requires Valid() && InGrid(packet, Idx(xid, yid, zid))
      modifies this`xid, this`yid, this`zid
      ensures Valid() && Pos() == old(Pos()) + 1
    {
      Left(packet.gridX, packet.wgX, xid);
      Left(packet.gridY, packet.wgY, yid);
      AfterInGrid(packet, Idx(xid, yid, zid));
      ghost var next := After(NX(packet), NY(packet), Idx(xid, yid, zid));
      var xLeft := packet.gridX - xid * packet.wgX;
      var yLeft := packet.gridY - yid * packet.wgY;
      var xToAllocate := Min(xLeft, packet.wgX);
      var yToAllocate := Min(yLeft, packet.wgY);
      hide Flat, NumWG;
      xid := xid + 1;
      xLeft := xLeft - xToAllocate;
      if xLeft <= 0 {
        xid := 0;
        yid := yid + 1;
        yLeft := yLeft - yToAllocate;
        if yLeft <= 0 {
          yid := 0;
          zid := zid + 1;
        }
      }
      assert Idx(xid, yid, zid) == next;
    }
  }

  // ---------- steps of the cursor ----------

  // With the cursor within a plane, the grid goes on exactly while flattened numbers are left.
  lemma CursorInGrid(p: Packet, i: Idx)
    requires ValidPacket(p) && i.x < NX(p) && i.y < NY(p)
    ensures InGrid(p, i) <==> Flat(NX(p), NY(p), i) < Total(p)
  {
    hide NumWG;
    if i.z < NZ(p) {
      FlatInBox(NX(p), NY(p), NZ(p), i);
    } else {
      FlatOutside(NX(p), NY(p), NZ(p), i);
    }
  }

  lemma LeftInGrid(p: Packet, i: Idx)
    requires ValidPacket(p)
    ensures InGrid(p, i) <==> p.gridX - i.x * p.wgX > 0 && p.gridY - i.y * p.wgY > 0 && p.gridZ - i.z * p.wgZ > 0
  {
    Left(p.gridX, p.wgX, i.x);
    Left(p.gridY, p.wgY, i.y);
    Left(p.gridZ, p.wgZ, i.z);
    hide NumWG;
  }

  lemma AfterInGrid(p: Packet, i: Idx)
    requires ValidPacket(p) && InGrid(p, i)
    ensures var j := After(NX(p), NY(p), i);
            && j.x < NX(p) && j.y < NY(p)
            && Flat(NX(p), NY(p), j) == Flat(NX(p), NY(p), i) + 1 <= Total(p)
  {
    hide NumWG;
    var f := Flat(NX(p), NY(p), i);
    FlatInBox(NX(p), NY(p), NZ(p), i);
    AtFlat(NX(p), NY(p), i);
    AfterIsNext(NX(p), NY(p), f);
    FlatAt(NX(p), NY(p), f + 1);
  }

  lemma NothingFrom(p: Packet, filter: Filter, pos: nat)
    requires ValidPacket(p) && pos >= Total(p)
    ensures Accepted(p, filter, pos, Total(p)) == []
  {
  }

  // The first of the remaining work-groups is yielded.
  ghost predicate Yields(p: Packet, filter: Filter, wg: WorkGroup, before: seq<nat>, after: seq<nat>)
    requires ValidPacket(p)
  {
    && before != [] && after == before[1..] && InGrid(p, wg.idx) && wg == GroupAt(p, wg.idx)
    && Flat(NX(p), NY(p), wg.idx) == before[0]
  }

  lemma OneStep(p: Packet, filter: Filter, i: Idx, pos: nat)
    requires ValidPacket(p) && InGrid(p, i) && pos == Flat(NX(p), NY(p), i)
    ensures var before, after := Accepted(p, filter, pos, Total(p)), Accepted(p, filter, pos + 1, Total(p));
            if Passes(filter, i) then Yields(p, filter, GroupAt(p, i), before, after) else after == before
  {
    FlatInBox(NX(p), NY(p), NZ(p), i);
    AtFlat(NX(p), NY(p), i);
    hide NumWG, Flat, IdxAt;
    assert PassesAt(p, filter, pos) == Passes(filter, i);
  }

  lemma YieldsMeans(p: Packet, filter: Filter, wg: WorkGroup, before: seq<nat>, after: seq<nat>)
    requires ValidPacket(p) && Yields(p, filter, wg, before, after)
    ensures before != [] && after == before[1..] && wg.idx == IdxAt(NX(p), NY(p), before[0])
    ensures InGrid(p, wg.idx) && wg == GroupAt(p, wg.idx)
  {
    AtFlat(NX(p), NY(p), wg.idx);
  }

  // ---------- counting ----------

  // The order in which the counting loops meet the work-groups: x slowest.
  ghost predicate Before(a: Idx, i: nat, j: nat, k: nat) {
    a.x < i || (a.x == i && (a.y < j || (a.y == j && a.z < k)))
  }

  ghost function Counted(p: Packet, filter: Filter, i: nat, j: nat, k: nat): set<nat>
    requires ValidPacket(p)
  {
    set f | 0 <= f < Total(p) && PassesAt(p, filter, f) && Before(IdxAt(NX(p), NY(p), f), i, j, k)
  }

  lemma BeforeOne(a: Idx, i: nat, j: nat, k: nat)
    ensures Before(a, i, j, k + 1) <==> Before(a, i, j, k) || a == Idx(i, j, k)
    ensures !Before(Idx(i, j, k), i, j, k)
  {
  }

  lemma CountedMore(p: Packet, filter: Filter, i: nat, j: nat, k: nat, f: nat)
    requires ValidPacket(p) && InGrid(p, Idx(i, j, k))
    ensures var g := Flat(NX(p), NY(p), Idx(i, j, k));
            && (f in Counted(p, filter, i, j, k + 1) <==>
                f in Counted(p, filter, i, j, k) || (f == g && Passes(filter, Idx(i, j, k))))
            && g !in Counted(p, filter, i, j, k)
  {
    var g := Flat(NX(p), NY(p), Idx(i, j, k));
    AtFlat(NX(p), NY(p), Idx(i, j, k));
    FlatInBox(NX(p), NY(p), NZ(p), Idx(i, j, k));
    FlatAt(NX(p), NY(p), f);
    hide NumWG, Flat, IdxAt;
    BeforeOne(IdxAt(NX(p), NY(p), f), i, j, k);
  }

  lemma CountOne(p: Packet, filter: Filter, i: nat, j: nat, k: nat)
    requires ValidPacket(p) && InGrid(p, Idx(i, j, k))
    ensures |Counted(p, filter, i, j, k + 1)| ==
            |Counted(p, filter, i, j, k)| + (if Passes(filter, Idx(i, j, k)) then 1 else 0)
  {
    hide NumWG, Flat, Counted, Passes;
    var g := Flat(NX(p), NY(p), Idx(i, j, k));
    CountedMore(p, filter, i, j, k, g);
    var was, now := Counted(p, filter, i, j, k), Counted(p, filter, i, j, k + 1);
    forall f: nat ensures f in now <==> f in was || (f == g && Passes(filter, Idx(i, j, k))) {
      CountedMore(p, filter, i, j, k, f);
    }
    if Passes(filter, Idx(i, j, k)) {
      assert now == was + {g};
    } else {
      assert now == was;
    }
  }

  lemma CountRow(p: Packet, filter: Filter, i: nat, j: nat)
    requires ValidPacket(p)
    ensures Counted(p, filter, i, j, NZ(p)) == Counted(p, filter, i, j + 1, 0)
    ensures Counted(p, filter, i, NY(p), 0) == Counted(p, filter, i + 1, 0, 0)
    ensures Counted(p, filter, 0, 0, 0) == {}
    ensures Counted(p, filter, NX(p), 0, 0) == AcceptedSet(p, filter, 0, Total(p))
  {
    forall f: nat | f < Total(p) ensures InGrid(p, IdxAt(NX(p), NY(p), f)) {
      AtInBox(NX(p), NY(p), NZ(p), f);
    }
    hide NumWG, IdxAt, Total, PassesAt;
  }

  // Without a filter every work-group is yielded, so every point of the grid is in exactly one
  // of those that are.
  lemma {:induction false} AcceptedAll(p: Packet, lo: nat, hi: nat, k: nat)
    requires ValidPacket(p) && lo + k < hi
    ensures |Accepted(p, None, lo, hi)| == hi - lo && Accepted(p, None, lo, hi)[k] == lo + k
    decreases hi - lo
  {
    hide ValidPacket, IdxAt, NX, NY;
    CountAll(p, lo, hi);
    if k > 0 {
      AcceptedAll(p, lo + 1, hi, k - 1);
    }
  }

  ghost predicate HoldsAt(p: Packet, f: nat, point: Idx)
    requires ValidPacket(p) && f < Total(p)
  {
    AtInBox(NX(p), NY(p), NZ(p), f);
    Holds(GroupAt(p, IdxAt(NX(p), NY(p), f)), point)
  }

  lemma HoldsAtIff(p: Packet, f: nat, point: Idx)
    requires ValidPacket(p) && f < Total(p) && IsPoint(p, point)
    ensures HoldsAt(p, f, point) <==> f == Flat(NX(p), NY(p), GroupOf(p, point))
  {
    hide NumWG, IdxAt, Flat, Holds, GroupAt, GroupOf, Fits;
    var i := IdxAt(NX(p), NY(p), f);
    AtInBox(NX(p), NY(p), NZ(p), f);
    GroupInGrid(p, point);
    GroupFits(p, i);
    PointInGroup(p, GroupAt(p, i), point);
    FlatAt(NX(p), NY(p), f);
    AtFlat(NX(p), NY(p), GroupOf(p, point));
  }

  lemma PointOnce(p: Packet, point: Idx) returns (k: nat)
    requires ValidPacket(p) && IsPoint(p, point)
    ensures |Accepted(p, None, 0, Total(p))| == Total(p) && k < Total(p)
    ensures forall j :: 0 <= j < Total(p) ==>
              Accepted(p, None, 0, Total(p))[j] < Total(p)
              && (HoldsAt(p, Accepted(p, None, 0, Total(p))[j], point) <==> j == k)
  {
    hide NumWG, IdxAt, Flat, Total, Accepted, HoldsAt;
    GroupInGrid(p, point);
    FlatIsBelow(p, GroupOf(p, point));
    k := Flat(NX(p), NY(p), GroupOf(p, point));
    AcceptedAll(p, 0, Total(p), k);
    forall j | 0 <= j < Total(p)
      ensures Accepted(p, None, 0, Total(p))[j] < Total(p)
      ensures HoldsAt(p, Accepted(p, None, 0, Total(p))[j], point) <==> j == k
    {
      AcceptedAll(p, 0, Total(p), j);
      HoldsAtIff(p, j, point);
    }
  }

  lemma FlatIsBelow(p: Packet, i: Idx)
    requires ValidPacket(p) && InGrid(p, i)
    ensures Flat(NX(p), NY(p), i) < Total(p)
  {
    FlatInBox(NX(p), NY(p), NZ(p), i);
  }

  // Without a filter everything is counted.
  lemma CountAll(p: Packet, lo: nat, hi: nat)
    requires ValidPacket(p) && lo <= hi
    ensures |Accepted(p, None, lo, hi)| == hi - lo
    decreases hi - lo
  {
    if lo < hi {
      CountAll(p, lo + 1, hi);
    }
  }

  method CountWG(p: Packet, filter: Filter) returns (n: nat)
    requires ValidPacket(p)
    ensures n == |Accepted(p, filter, 0, Total(p))|
  {
    var x, y, z := NX(p), NY(p), NZ(p);
    if filter == None {
      CountAll(p, 0, Total(p));
      return x * y * z;
    }
    hide Counted, NumWG, ValidPacket, Accepted;
    n := 0;
    CountRow(p, filter, 0, 0);
    for i := 0 to x
      invariant n == |Counted(p, filter, i, 0, 0)|
    {
      for j := 0 to y
        invariant n == |Counted(p, filter, i, j, 0)|
      {
        for k := 0 to z
          invariant n == |Counted(p, filter, i, j, k)|
        {
          CountOne(p, filter, i, j, k);
          if Passes(filter, Idx(i, j, k)) {
            n := n + 1;
          }
        }
        CountRow(p, filter, i, j);
      }
      CountRow(p, filter, i, 0);
    }
    CountRow(p, filter, 0, 0);
    AcceptedCount(p, filter, 0, Total(p));
  }

  // ---------- the builders of all GPUs together ----------

  ghost function Range(lo: int, hi: int): seq<nat>
    requires lo >= 0
  {
    if lo >= hi then [] else seq(hi - lo, i requires 0 <= i < hi - lo => lo + i)
  }

  lemma {:induction false} ShareIsRange(p: Packet, lo: int, hi: int, a: nat, b: nat)
    requires ValidPacket(p) && 0 <= lo <= hi && a <= b
    ensures Accepted(p, ShareFilter(p, lo, hi), a, b) == Range(if a < lo then lo else a, Min(hi, b))
    decreases b - a
  {
    if a < b {
      ShareIsRange(p, lo, hi, a + 1, b);
      FlatAt(NX(p), NY(p), a);
      assert PassesAt(p, ShareFilter(p, lo, hi), a) <==> lo <= a < hi;
    }
  }

  // What the first n GPUs yield, one GPU after the other.
  ghost function Yielded(p: Packet, cus: seq<nat>, perCU: int, n: nat): seq<nat>
    requires ValidPacket(p) && n <= |cus|
  {
    if n == 0 then []
    else
      Yielded(p, cus, perCU, n - 1)
      + Accepted(p, ShareFilter(p, DistAt(cus, perCU, n - 1), DistAt(cus, perCU, n)), 0, Total(p))
  }

  lemma {:induction false} YieldedIsRange(p: Packet, cus: seq<nat>, perCU: int, n: nat)
    requires ValidPacket(p) && n <= |cus| && perCU >= 0
    ensures Yielded(p, cus, perCU, n) == Range(0, Min(DistAt(cus, perCU, n), Total(p)))
  {
    if n == 0 {
      assert cus[..0] == [];
    } else {
      YieldedIsRange(p, cus, perCU, n - 1);
      DistMonotone(cus, perCU, 0, n - 1);
      DistMonotone(cus, perCU, n - 1, n);
      assert cus[..0] == [];
      ShareIsRange(p, DistAt(cus, perCU, n - 1), DistAt(cus, perCU, n), 0, Total(p));
    }
  }

  lemma RangeSize(lo: int, hi: int)
    requires 0 <= lo <= hi
    ensures |Range(lo, hi)| == hi - lo
  {
  }

  // The GPUs together yield every work-group of the grid exactly once - their lists, put one
  // after the other, are the flattened grid - if and only if the shares reach the number of
  // work-groups; that is if and only if that number fits in 32 bits, unless there are as many
  // compute units.
  lemma GPUsYieldTheGrid(p: Packet, cus: seq<nat>)
    requires ValidPacket(p) && SumOf(cus) > 0
    ensures Yielded(p, cus, WgPerCU(Wrapped(p), SumOf(cus)), |cus|) == Range(0, Total(p)) <==>
            Total(p) <= Shared(p, cus)
    ensures Total(p) < 0x1_0000_0000 ==>
            Yielded(p, cus, WgPerCU(Wrapped(p), SumOf(cus)), |cus|) == Range(0, Total(p))
    ensures SumOf(cus) < 0x1_0000_0000 ==>
            (Yielded(p, cus, WgPerCU(Wrapped(p), SumOf(cus)), |cus|) == Range(0, Total(p)) <==>
             Total(p) < 0x1_0000_0000)
  {
    hide Total, Yielded, Wrapped, WgPerCU, Range;
    var perCU := WgPerCU(Wrapped(p), SumOf(cus));
    PerCUCovers(Wrapped(p), SumOf(cus));
    DistMonotone(cus, perCU, 0, |cus|);
    assert cus[..0] == [] && SumOf([]) == 0;
    YieldedIsRange(p, cus, perCU, |cus|);
    RangeSize(0, Total(p));
    RangeSize(0, Min(Shared(p, cus), Total(p)));
    SharedIff(p, cus);
  }
}

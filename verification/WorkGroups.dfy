// Splitting the work-groups of a grid over GPUs (mgpusim-V1/driver/driver.go) and building
// them one after the other (mgpusim-V1/kernels/gridbuilder.go).
module WorkGroups {
  import opened Wrappers

  import opened MixedRadix

  type Filter = Option<Idx -> bool>

  // The sizes of a grid (32-bit) and of its work-groups (16-bit).
  datatype Packet = Packet(gridX: nat, gridY: nat, gridZ: nat, wgX: nat, wgY: nat, wgZ: nat)

  ghost predicate ValidPacket(p: Packet) {
    && 1 <= p.gridX < 0x1_0000_0000 && 1 <= p.gridY < 0x1_0000_0000 && 1 <= p.gridZ < 0x1_0000_0000
    && 1 <= p.wgX < 0x1_0000 && 1 <= p.wgY < 0x1_0000 && 1 <= p.wgZ < 0x1_0000
  }

  // The number of work-groups along one side.
  function NumWG(grid: nat, wg: nat): (n: nat)
    requires grid > 0 && wg > 0
    ensures n > 0
  {
    (grid - 1) / wg + 1
  }

  function NX(p: Packet): (n: nat)
    requires p.gridX > 0 && p.wgX > 0
    ensures n > 0
  {
    NumWG(p.gridX, p.wgX)
  }

  function NY(p: Packet): (n: nat)
    requires p.gridY > 0 && p.wgY > 0
    ensures n > 0
  {
    NumWG(p.gridY, p.wgY)
  }

  function NZ(p: Packet): (n: nat)
    requires p.gridZ > 0 && p.wgZ > 0
    ensures n > 0
  {
    NumWG(p.gridZ, p.wgZ)
  }

  ghost function Total(p: Packet): nat
    requires ValidPacket(p)
  {
    NX(p) * NY(p) * NZ(p)
  }

  // ---------- the share of each GPU ----------

  // Division that truncates toward zero.
  function TruncDiv(a: int, b: nat): int
    requires b > 0
  {
    if a >= 0 then a / b else -(-a / b)
  }

  ghost function SumOf(cus: seq<nat>): nat {
    if cus == [] then 0 else SumOf(cus[..|cus| - 1]) + cus[|cus| - 1]
  }

  function WgPerCU(total: nat, cuCount: nat): int
    requires cuCount > 0
  {
    TruncDiv(total - 1, cuCount) + 1
  }

  // The share of a compute unit is the number of work-groups over that of compute units,
  // rounded up; for no work-groups it is one, except with a single compute unit.
  lemma PerCUIsCeiling(total: nat, cuCount: nat)
    requires cuCount > 0
    ensures total > 0 ==> (WgPerCU(total, cuCount) - 1) * cuCount < total <= WgPerCU(total, cuCount) * cuCount
    ensures total == 0 ==> WgPerCU(total, cuCount) == if cuCount == 1 then 0 else 1
  {
    if total > 0 {
      var q := (total - 1) / cuCount;
      assert total - 1 == q * cuCount + (total - 1) % cuCount;
      assert (q + 1) * cuCount == q * cuCount + cuCount;
    } else {
      assert 1 / cuCount == if cuCount == 1 then 1 else 0;
    }
  }

  // The number of work-groups as the driver computes it, in 32 bits.
  ghost function Wrapped(p: Packet): nat
    requires ValidPacket(p)
  {
    Total(p) % 0x1_0000_0000
  }

  // Where the share of GPU i begins.
  ghost function DistAt(cus: seq<nat>, perCU: int, i: nat): int
    requires i <= |cus|
  {
    SumOf(cus[..i]) * perCU
  }

  lemma PerCUCovers(total: nat, cuCount: nat)
    requires cuCount > 0
    ensures WgPerCU(total, cuCount) >= 0 && cuCount * WgPerCU(total, cuCount) >= total
  {
    if total > 0 {
      var q := (total - 1) / cuCount;
      assert total - 1 == q * cuCount + (total - 1) % cuCount;
      assert cuCount * (q + 1) == q * cuCount + cuCount;
    }
  }

  lemma {:induction false} WrapProduct(a: nat, b: nat, c: nat)
    ensures a * b % 0x1_0000_0000 * c % 0x1_0000_0000 == a * b * c % 0x1_0000_0000
  {
    var m := 0x1_0000_0000;
    var q, r := a * b / m, a * b % m;
    assert a * b * c == (q * c) * m + r * c by {
      assert a * b == q * m + r;
      assert (q * m + r) * c == q * m * c + r * c;
      assert q * m * c == (q * c) * m;
    }
    ModDrop(q * c, r * c, m);
  }

  lemma ModDrop(q: nat, r: nat, m: nat)
    requires m > 0
    ensures (q * m + r) % m == r % m
  {
    DivMod(q + r / m, r % m, m);
    assert (q + r / m) * m == q * m + r / m * m;
  }

  lemma {:induction false} DistMonotone(cus: seq<nat>, perCU: int, i: nat, j: nat)
    requires perCU >= 0 && i <= j <= |cus|
    ensures DistAt(cus, perCU, i) <= DistAt(cus, perCU, j)
    decreases j
  {
    if i < j {
      DistMonotone(cus, perCU, i, j - 1);
      assert cus[..j][..j - 1] == cus[..j - 1];
      assert SumOf(cus[..j]) == SumOf(cus[..j - 1]) + cus[j - 1];
      assert SumOf(cus[..j]) * perCU == SumOf(cus[..j - 1]) * perCU + cus[j - 1] * perCU;
    }
  }

  lemma NextDist(cus: seq<nat>, perCU: int, i: nat)
    requires i < |cus|
    ensures DistAt(cus, perCU, i + 1) == DistAt(cus, perCU, i) + cus[i] * perCU && DistAt(cus, perCU, 0) == 0
  {
    assert cus[..i + 1][..i] == cus[..i];
    assert (SumOf(cus[..i]) + cus[i]) * perCU == SumOf(cus[..i]) * perCU + cus[i] * perCU;
  }

  // The shares computed in one pass over the GPUs.
  method DistributeWGToGPUs(cus: seq<nat>, p: Packet) returns (wgDist: array<int>)
    requires ValidPacket(p) && SumOf(cus) > 0
    ensures wgDist.Length == |cus| + 1
    ensures forall i :: 0 <= i <= |cus| ==> wgDist[i] == DistAt(cus, WgPerCU(Wrapped(p), SumOf(cus)), i)
    ensures wgDist[0] == 0 && wgDist[|cus|] >= Wrapped(p)
    ensures forall i :: 0 <= i < |cus| ==> wgDist[i + 1] == wgDist[i] + cus[i] * WgPerCU(Wrapped(p), SumOf(cus))
  {
    wgDist := new int[|cus| + 1](i => 0);
    var totalCUCount: nat := 0;
    for i := 0 to |cus|
      invariant totalCUCount == SumOf(cus[..i])
    {
      assert cus[..i + 1][..i] == cus[..i];
      totalCUCount := totalCUCount + cus[i];
    }
    assert cus[..|cus|] == cus;
    var totalWGCount := NX(p) * NY(p) % 0x1_0000_0000 * NZ(p) % 0x1_0000_0000;
    WrapProduct(NX(p), NY(p), NZ(p));
    var wgPerCU := WgPerCU(totalWGCount, totalCUCount);
    var wgAllocated := 0;
    for i := 0 to |cus|
      invariant wgAllocated == DistAt(cus, wgPerCU, i)
      invariant forall j :: 0 <= j <= i ==> wgDist[j] == DistAt(cus, wgPerCU, j)
    {
      NextDist(cus, wgPerCU, i);
      var wgToAllocate := cus[i] * wgPerCU;
      wgDist[i + 1] := wgAllocated + wgToAllocate;
      wgAllocated := wgAllocated + wgToAllocate;
    }
    forall i | 0 <= i < |cus| ensures wgDist[i + 1] == wgDist[i] + cus[i] * wgPerCU {
      NextDist(cus, wgPerCU, i);
    }
    PerCUCovers(totalWGCount, totalCUCount);
    if wgAllocated < totalWGCount {
      assert false; // the panic "not all wg allocated"
    }
  }

  predicate Passes(filter: Filter, i: Idx) {
    filter.None? || filter.value(i)
  }

  // The filter that the driver gives to the GPU with the share from lo to hi.
  function ShareFilter(p: Packet, lo: int, hi: int): Filter
    requires p.gridX > 0 && p.wgX > 0 && p.gridY > 0 && p.wgY > 0
  {
    var nx, ny := NX(p), NY(p);
    Some(i => lo <= Flat(nx, ny, i) < hi)
  }

  // The filter of GPU i accepts the work-groups of its share.
  ghost predicate Accepts(p: Packet, cus: seq<nat>, i: nat, idx: Idx)
    requires ValidPacket(p) && SumOf(cus) > 0 && i < |cus|
  {
    var perCU := WgPerCU(Wrapped(p), SumOf(cus));
    Passes(ShareFilter(p, DistAt(cus, perCU, i), DistAt(cus, perCU, i + 1)), idx)
  }

  lemma AcceptsShare(p: Packet, cus: seq<nat>, i: nat, idx: Idx)
    requires ValidPacket(p) && SumOf(cus) > 0 && i < |cus|
    ensures var perCU := WgPerCU(Wrapped(p), SumOf(cus));
            Accepts(p, cus, i, idx) <==>
            DistAt(cus, perCU, i) <= Flat(NX(p), NY(p), idx) < DistAt(cus, perCU, i + 1)
  {
  }

  ghost predicate InGrid(p: Packet, idx: Idx)
    requires ValidPacket(p)
  {
    InBox(NX(p), NY(p), NZ(p), idx)
  }

  ghost function Shared(p: Packet, cus: seq<nat>): int
    requires ValidPacket(p) && SumOf(cus) > 0
  {
    DistAt(cus, WgPerCU(Wrapped(p), SumOf(cus)), |cus|)
  }

  // No two GPUs share a work-group.
  lemma AtMostOneGPU(p: Packet, cus: seq<nat>, i: nat, j: nat, idx: Idx)
    requires ValidPacket(p) && SumOf(cus) > 0 && i < |cus| && j < |cus|
    requires Accepts(p, cus, i, idx) && Accepts(p, cus, j, idx)
    ensures i == j
  {
    var perCU := WgPerCU(Wrapped(p), SumOf(cus));
    PerCUCovers(Wrapped(p), SumOf(cus));
    AcceptsShare(p, cus, i, idx);
    AcceptsShare(p, cus, j, idx);
    hide Accepts;
    if i < j {
      DistMonotone(cus, perCU, i + 1, j);
    } else if j < i {
      DistMonotone(cus, perCU, j + 1, i);
    }
  }

  lemma {:induction false} FindShare(cus: seq<nat>, perCU: int, f: nat, n: nat) returns (i: nat)
    requires n <= |cus| && f < DistAt(cus, perCU, n)
    ensures i < n && DistAt(cus, perCU, i) <= f < DistAt(cus, perCU, i + 1)
  {
    if DistAt(cus, perCU, n - 1) <= f {
      i := n - 1;
    } else {
      i := FindShare(cus, perCU, f, n - 1);
    }
  }

  // Every work-group is accepted by some GPU.
  ghost predicate Covered(p: Packet, cus: seq<nat>)
    requires ValidPacket(p) && SumOf(cus) > 0
  {
    forall idx :: InGrid(p, idx) ==> exists i :: 0 <= i < |cus| && Accepts(p, cus, i, idx)
  }

  // That is so if and only if the number of work-groups fits in 32 bits, unless there are as
  // many compute units.
  lemma CoveredIff(p: Packet, cus: seq<nat>)
    requires ValidPacket(p) && 0 < SumOf(cus) < 0x1_0000_0000
    ensures Covered(p, cus) <==> Total(p) < 0x1_0000_0000
  {
    hide Covered, Total, Shared;
    SharedIff(p, cus);
    CoveredIfShared(p, cus);
  }

  // With any number of compute units, if and only if the shares reach the number of
  // work-groups.
  lemma CoveredIfShared(p: Packet, cus: seq<nat>)
    requires ValidPacket(p) && SumOf(cus) > 0
    ensures Covered(p, cus) <==> Total(p) <= Shared(p, cus)
  {
    hide Accepts;
    var perCU := WgPerCU(Wrapped(p), SumOf(cus));
    if Total(p) <= Shared(p, cus) {
      forall idx | InGrid(p, idx) ensures exists i :: 0 <= i < |cus| && Accepts(p, cus, i, idx) {
        FlatInBox(NX(p), NY(p), NZ(p), idx);
        var i := FindShare(cus, perCU, Flat(NX(p), NY(p), idx), |cus|);
        AcceptsShare(p, cus, i, idx);
      }
    } else {
      NotCovered(p, cus);
    }
  }

  lemma BeyondShares(cus: seq<nat>, perCU: int, f: nat, i: nat)
    requires perCU >= 0 && i < |cus| && DistAt(cus, perCU, |cus|) <= f
    ensures DistAt(cus, perCU, i + 1) <= f
  {
    DistMonotone(cus, perCU, i + 1, |cus|);
  }

  lemma NotCovered(p: Packet, cus: seq<nat>)
    requires ValidPacket(p) && SumOf(cus) > 0 && Shared(p, cus) < Total(p)
    ensures exists idx :: InGrid(p, idx) && forall i :: 0 <= i < |cus| ==> !Accepts(p, cus, i, idx)
  {
    hide NumWG, Wrapped, DistAt, WgPerCU, IdxAt, Flat, SumOf, Accepts;
    PerCUCovers(Wrapped(p), SumOf(cus));
    var f := Total(p) - 1;
    var idx := IdxAt(NX(p), NY(p), f);
    AtInBox(NX(p), NY(p), NZ(p), f);
    FlatAt(NX(p), NY(p), f);
    forall i | 0 <= i < |cus| ensures !Accepts(p, cus, i, idx) {
      BeyondShares(cus, WgPerCU(Wrapped(p), SumOf(cus)), f, i);
      AcceptsShare(p, cus, i, idx);
    }
    assert InGrid(p, idx);
  }

  // The shares are no larger than the number they are computed from by one work-group for
  // each compute unit.
  lemma PerCUBound(total: nat, cuCount: nat)
    requires cuCount > 0
    ensures cuCount * WgPerCU(total, cuCount) <= total + cuCount
  {
    if total > 0 {
      var q := (total - 1) / cuCount;
      assert total - 1 == q * cuCount + (total - 1) % cuCount;
      assert cuCount * (q + 1) == q * cuCount + cuCount;
    } else {
      assert 1 / cuCount == 0 || cuCount == 1;
    }
  }

  lemma SharedIff(p: Packet, cus: seq<nat>)
    requires ValidPacket(p) && SumOf(cus) > 0
    ensures Total(p) < 0x1_0000_0000 ==> Total(p) <= Shared(p, cus)
    ensures SumOf(cus) < 0x1_0000_0000 ==> (Total(p) <= Shared(p, cus) <==> Total(p) < 0x1_0000_0000)
  {
    hide NumWG, WgPerCU;
    PerCUCovers(Wrapped(p), SumOf(cus));
    PerCUBound(Wrapped(p), SumOf(cus));
    assert cus[..|cus|] == cus;
    WrappedSmaller(Total(p));
  }

  lemma WrappedSmaller(total: nat)
    ensures total < 0x1_0000_0000 ==> total % 0x1_0000_0000 == total
    ensures total >= 0x1_0000_0000 ==> total % 0x1_0000_0000 <= total - 0x1_0000_0000
  {
  }

  // A grid with more work-groups, of which most are given to no GPU although nothing panics.
  lemma WrapLosesWorkGroups()
    ensures var p := Packet(0x1_0000, 0x1_0001, 1, 1, 1, 1);
            ValidPacket(p) && SumOf([1]) == 1 && Total(p) == 0x1_0001_0000 && Shared(p, [1]) == 0x1_0000
  {
    var p := Packet(0x1_0000, 0x1_0001, 1, 1, 1, 1);
    TotalOf(p, 0x1_0000, 0x1_0001, 1);
    OneCU();
    hide *;
    assert Wrapped(p) == 0x1_0000 by {
      WrappedOf(p, 1, 0x1_0000);
    }
    SharedOf(p);
  }

  lemma OneCU()
    ensures SumOf([1]) == 1
  {
    assert [1][..0] == [];
  }

  lemma WrappedOf(p: Packet, q: nat, r: nat)
    requires ValidPacket(p) && Total(p) == q * 0x1_0000_0000 + r && r < 0x1_0000_0000
    ensures Wrapped(p) == r
  {
    DivMod(q, r, 0x1_0000_0000);
  }

  lemma SharedOf(p: Packet)
    requires ValidPacket(p) && Wrapped(p) > 0 && SumOf([1]) == 1
    ensures Shared(p, [1]) == Wrapped(p)
  {
    assert [1][..1] == [1];
    assert WgPerCU(Wrapped(p), 1) == Wrapped(p);
  }

  lemma TotalOf(p: Packet, nx: nat, ny: nat, nz: nat)
    requires ValidPacket(p) && p.wgX == p.wgY == p.wgZ == 1 && p.gridX == nx && p.gridY == ny && p.gridZ == nz
    ensures Total(p) == nx * ny * nz
  {
    OneByOne(nx);
    OneByOne(ny);
    OneByOne(nz);
    hide NumWG;
  }

  lemma OneByOne(grid: nat)
    requires grid > 0
    ensures NumWG(grid, 1) == grid
  {
  }
}

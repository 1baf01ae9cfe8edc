// Spreading consecutive pages over GPUs (mgpusim-V1/driver/distributor.go).
module Distributor {
  import opened MixedRadix

  // A call of the memory allocator: a range of addresses moves to the GPU in a place of the list.
  datatype Remap = Remap(addr: nat, size: nat, place: nat, gpuID: int)

  // The ranges follow each other without gap or overlap.
  ghost predicate Tiles(remaps: seq<Remap>, addr: nat, size: nat) {
    if remaps == [] then size == 0
    else
      var last := remaps[|remaps| - 1];
      && last.size <= size && last.addr == addr + (size - last.size)
      && Tiles(remaps[..|remaps| - 1], addr, size - last.size)
  }

  // Each byte of the tiled area is in exactly one range, and no other byte in any.
  lemma {:induction false} TilesOnce(remaps: seq<Remap>, addr: nat, size: nat, a: nat)
    requires Tiles(remaps, addr, size)
    ensures forall i, j :: 0 <= i < |remaps| && 0 <= j < |remaps| && Holds(remaps[i], a) && Holds(remaps[j], a) ==>
            i == j
    ensures (exists i :: 0 <= i < |remaps| && Holds(remaps[i], a)) <==> addr <= a < addr + size
  {
    if remaps != [] {
      var n := |remaps| - 1;
      TilesOnce(remaps[..n], addr, size - remaps[n].size, a);
      forall i | 0 <= i < n ensures remaps[i] == remaps[..n][i] {
      }
      if Holds(remaps[n], a) {
        forall i | 0 <= i < n ensures !Holds(remaps[i], a) {
          assert remaps[..n][i] == remaps[i];
        }
      } else if addr <= a < addr + size {
        var i :| 0 <= i < n && Holds(remaps[..n][i], a);
        assert Holds(remaps[i], a);
      }
    }
  }

  ghost predicate Holds(r: Remap, a: nat) {
    r.addr <= a < r.addr + r.size
  }

  // The bytes that went to a place of the list.
  ghost function BytesOf(remaps: seq<Remap>, place: nat): nat {
    if remaps == [] then 0
    else BytesOf(remaps[..|remaps| - 1], place)
         + if remaps[|remaps| - 1].place == place then remaps[|remaps| - 1].size else 0
  }

  ghost predicate PlacesOk(remaps: seq<Remap>, gpuIDs: seq<int>) {
    forall i :: 0 <= i < |remaps| ==> remaps[i].place < |gpuIDs| && remaps[i].gpuID == gpuIDs[remaps[i].place]
  }

  lemma TilesMore(remaps: seq<Remap>, addr: nat, size: nat, r: Remap)
    requires Tiles(remaps, addr, size) && r.addr == addr + size
    ensures Tiles(remaps + [r], addr, size + r.size)
    ensures forall p :: BytesOf(remaps + [r], p) == BytesOf(remaps, p) + if r.place == p then r.size else 0
  {
    assert (remaps + [r])[..|remaps|] == remaps;
  }

  ghost function Sum(bytes: seq<nat>): nat {
    if bytes == [] then 0 else Sum(bytes[..|bytes| - 1]) + bytes[|bytes| - 1]
  }

  lemma {:induction false} SumUpdate(bytes: seq<nat>, i: nat, n: nat)
    requires i < |bytes|
    ensures Sum(bytes[i := bytes[i] + n]) == Sum(bytes) + n
  {
    var k := |bytes| - 1;
    var r: seq<nat> := bytes[i := bytes[i] + n];
    if i < k {
      assert r[..k] == bytes[..k][i := bytes[..k][i] + n];
      SumUpdate(bytes[..k], i, n);
    } else {
      assert r[..k] == bytes[..k];
    }
  }

  lemma {:induction false} SumZeros(bytes: seq<nat>)
    requires forall i :: 0 <= i < |bytes| ==> bytes[i] == 0
    ensures Sum(bytes) == 0
  {
    if bytes != [] {
      SumZeros(bytes[..|bytes| - 1]);
    }
  }

  // ---------- how many pages go where ----------

  function NumPages(byteSize: nat, pageSize: nat): (n: nat)
    requires byteSize > 0 && pageSize > 0
    ensures n > 0
  {
    (byteSize - 1) / pageSize + 1
  }

  lemma PagesCover(byteSize: nat, pageSize: nat)
    requires byteSize > 0 && pageSize > 0
    ensures byteSize <= NumPages(byteSize, pageSize) * pageSize < byteSize + pageSize
  {
    var q := (byteSize - 1) / pageSize;
    assert byteSize - 1 == q * pageSize + (byteSize - 1) % pageSize;
    assert (q + 1) * pageSize == q * pageSize + pageSize;
  }

  // The number of GPUs that get an equal share: all of them, or none if there are fewer pages
  // than GPUs.
  function GPUsToUse(numPages: nat, numGPUs: nat): (n: nat)
    requires numGPUs > 0
    ensures n == if numPages < numGPUs then 0 else numGPUs
  {
    var perGPU := numPages / numGPUs;
    UsesAll(numPages, numGPUs);
    var use := if perGPU > 0 then numPages / perGPU else 0;
    if use > numGPUs then numGPUs else use
  }

  lemma UsesAll(numPages: nat, numGPUs: nat)
    requires numGPUs > 0
    ensures numPages / numGPUs > 0 <==> numPages >= numGPUs
    ensures numPages / numGPUs > 0 ==> numPages / (numPages / numGPUs) >= numGPUs
  {
    var perGPU := numPages / numGPUs;
    assert numPages == perGPU * numGPUs + numPages % numGPUs;
    if perGPU > 0 {
      var u := numPages / perGPU;
      assert numPages == u * perGPU + numPages % perGPU;
      if u < numGPUs {
        MulMonotone(u + 1, numGPUs, perGPU);
        assert false;
      }
    } else {
      assert numPages == numPages % numGPUs;
    }
  }

  // The page from which on the single pages are handed out.
  lemma SharesAndRest(numPages: nat, numGPUs: nat)
    requires numGPUs > 0
    ensures numPages / numGPUs * GPUsToUse(numPages, numGPUs) + numPages % numGPUs == numPages
  {
    assert numPages == numPages / numGPUs * numGPUs + numPages % numGPUs;
    UsesAll(numPages, numGPUs);
  }

  // What a GPU is to get: an equal share, and the rest for the last GPU, or everything for the
  // first one if there are fewer pages than GPUs.
  ghost function Share(numPages: nat, numGPUs: nat, place: nat): nat
    requires numGPUs > 0
  {
    if numPages < numGPUs then (if place == 0 then numPages else 0)
    else numPages / numGPUs + if place == numGPUs - 1 then numPages % numGPUs else 0
  }

  // The page with which the part of a GPU begins: the parts follow each other in the order of
  // the list.
  ghost function FirstPage(numPages: nat, numGPUs: nat, place: nat): nat
    requires numGPUs > 0
  {
    if place == 0 then 0
    else if place >= numGPUs || numPages < numGPUs then numPages
    else place * (numPages / numGPUs)
  }

  // The part of a GPU is as long as its share. With a page for each GPU all get the same but the
  // last one, which exceeds the others by fewer pages than there are GPUs; else the first one
  // gets all.
  lemma PartIsShare(numPages: nat, numGPUs: nat, place: nat)
    requires place < numGPUs
    ensures var share := Share(numPages, numGPUs, place);
            && FirstPage(numPages, numGPUs, place + 1) == FirstPage(numPages, numGPUs, place) + share
            && (if numPages < numGPUs then share == if place == 0 then numPages else 0
                else if place + 1 < numGPUs then share * numGPUs <= numPages < (share + 1) * numGPUs
                else Share(numPages, numGPUs, 0) <= share < Share(numPages, numGPUs, 0) + numGPUs)
    ensures FirstPage(numPages, numGPUs, 0) == 0 && FirstPage(numPages, numGPUs, numGPUs) == numPages
  {
    var perGPU := numPages / numGPUs;
    assert numPages == perGPU * numGPUs + numPages % numGPUs;
    assert (perGPU + 1) * numGPUs == perGPU * numGPUs + numGPUs;
    assert (place + 1) * perGPU == place * perGPU + perGPU;
    if place + 1 == numGPUs {
      assert (place + 1) * perGPU == perGPU * numGPUs;
    }
  }

  // A range lies in the part of its GPU.
  ghost predicate InPart(r: Remap, addr: nat, numPages: nat, numGPUs: nat, pageSize: nat)
    requires numGPUs > 0
  {
    && addr + FirstPage(numPages, numGPUs, r.place) * pageSize <= r.addr
    && r.addr + r.size <= addr + FirstPage(numPages, numGPUs, r.place + 1) * pageSize
  }

  lemma ShareInPart(i: nat, addr: nat, numPages: nat, numGPUs: nat, pageSize: nat, gpuID: int)
    requires i < numGPUs <= numPages
    ensures var perGPU := numPages / numGPUs;
            InPart(Remap(addr + ShareStart(i, perGPU, pageSize), perGPU * pageSize, i, gpuID),
                   addr, numPages, numGPUs, pageSize)
  {
    var perGPU := numPages / numGPUs;
    NextShare(i, perGPU, pageSize);
    assert numPages == perGPU * numGPUs + numPages % numGPUs;
    assert numGPUs * perGPU == perGPU * numGPUs;
    if i + 1 == numGPUs {
      MulMonotone(numGPUs * perGPU, numPages, pageSize);
    }
  }

  lemma RestInPart(i: nat, last: nat, addr: nat, numPages: nat, numGPUs: nat, pageSize: nat, gpuID: int)
    requires numGPUs > 0 && numPages > 0 && i < numPages % numGPUs
    requires last == if numPages < numGPUs then 0 else numGPUs - 1
    ensures var pages := numPages / numGPUs * GPUsToUse(numPages, numGPUs);
            InPart(Remap(addr + PageStart(pages, i, pageSize), pageSize, last, gpuID),
                   addr, numPages, numGPUs, pageSize)
  {
    var perGPU := numPages / numGPUs;
    var pages := perGPU * GPUsToUse(numPages, numGPUs);
    SharesAndRest(numPages, numGPUs);
    NextPage(pages, i, pageSize);
    MulMonotone(pages + i + 1, numPages, pageSize);
    if numPages >= numGPUs {
      MulMonotone(last, numGPUs, perGPU);
      assert numGPUs * perGPU == pages;
      MulMonotone(FirstPage(numPages, numGPUs, last), pages + i, pageSize);
    }
  }

  // What has been remapped, returned and summed up so far.
  ghost predicate Done(remaps: seq<Remap>, bytes: seq<nat>, addr: nat, size: nat, gpuIDs: seq<int>) {
    && |bytes| == |gpuIDs| && Tiles(remaps, addr, size) && PlacesOk(remaps, gpuIDs) && Sum(bytes) == size
    && forall p :: 0 <= p < |bytes| ==> bytes[p] == BytesOf(remaps, p)
  }

  lemma DoneMore(remaps: seq<Remap>, bytes: seq<nat>, addr: nat, size: nat, gpuIDs: seq<int>, p: nat, n: nat)
    requires Done(remaps, bytes, addr, size, gpuIDs) && p < |gpuIDs|
    ensures Done(remaps + [Remap(addr + size, n, p, gpuIDs[p])], bytes[p := bytes[p] + n], addr, size + n, gpuIDs)
  {
    TilesMore(remaps, addr, size, Remap(addr + size, n, p, gpuIDs[p]));
    SumUpdate(bytes, p, n);
    hide Tiles, Sum, BytesOf;
  }

  lemma NothingDone(bytes: seq<nat>, addr: nat, gpuIDs: seq<int>)
    requires |bytes| == |gpuIDs| && forall i :: 0 <= i < |bytes| ==> bytes[i] == 0
    ensures Done([], bytes, addr, 0, gpuIDs)
  {
    SumZeros(bytes);
  }

  // Where the equal share of a GPU starts, from the first address on.
  function ShareStart(i: nat, perGPU: nat, pageSize: nat): nat {
    i * perGPU * pageSize
  }

  lemma NextShare(i: nat, perGPU: nat, pageSize: nat)
    ensures ShareStart(0, perGPU, pageSize) == 0
    ensures ShareStart(i + 1, perGPU, pageSize) == ShareStart(i, perGPU, pageSize) + perGPU * pageSize
  {
    assert (i + 1) * perGPU == i * perGPU + perGPU;
    assert (i * perGPU + perGPU) * pageSize == i * perGPU * pageSize + perGPU * pageSize;
  }

  // Where a single page starts.
  function PageStart(pages: nat, i: nat, pageSize: nat): nat {
    (pages + i) * pageSize
  }

  lemma NextPage(pages: nat, i: nat, pageSize: nat)
    ensures PageStart(pages, i + 1, pageSize) == PageStart(pages, i, pageSize) + pageSize
    ensures (i + 1) * pageSize == i * pageSize + pageSize && 0 * pageSize == 0
  {
  }

  lemma SharesMeetPages(use: nat, perGPU: nat, pageSize: nat, rest: nat, numPages: nat)
    requires perGPU * use + rest == numPages
    ensures ShareStart(use, perGPU, pageSize) == PageStart(perGPU * use, 0, pageSize)
    ensures PageStart(perGPU * use, rest, pageSize) == numPages * pageSize
  {
    assert use * perGPU == perGPU * use;
  }

  // Equal shares for the first GPUs.
  method RemapShares(pageSize: nat, addr: nat, perGPU: nat, use: nat, gpuIDs: seq<int>, bytes: array<nat>)
    returns (remaps: seq<Remap>, last: nat)
    requires bytes.Length == |gpuIDs| && use <= |gpuIDs| && forall p :: 0 <= p < |gpuIDs| ==> bytes[p] == 0
    modifies bytes
    ensures Done(remaps, bytes[..], addr, ShareStart(use, perGPU, pageSize), gpuIDs)
    ensures forall p :: 0 <= p < |gpuIDs| ==> bytes[p] == if p < use then perGPU * pageSize else 0
    ensures last == if use == 0 then 0 else use - 1
    ensures |remaps| == use
    ensures forall i :: 0 <= i < use ==>
              remaps[i] == Remap(addr + ShareStart(i, perGPU, pageSize), perGPU * pageSize, i, gpuIDs[i])
  {
    hide Done, ShareStart;
    remaps, last := [], 0;
    NothingDone(bytes[..], addr, gpuIDs);
    NextShare(0, perGPU, pageSize);
    for i := 0 to use
      invariant Done(remaps, bytes[..], addr, ShareStart(i, perGPU, pageSize), gpuIDs)
      invariant forall p :: 0 <= p < |gpuIDs| ==> bytes[p] == if p < i then perGPU * pageSize else 0
      invariant last == if i == 0 then 0 else i - 1
      invariant |remaps| == i
      invariant forall k :: 0 <= k < i ==>
                  remaps[k] == Remap(addr + ShareStart(k, perGPU, pageSize), perGPU * pageSize, k, gpuIDs[k])
    {
      NextShare(i, perGPU, pageSize);
      DoneMore(remaps, bytes[..], addr, ShareStart(i, perGPU, pageSize), gpuIDs, i, perGPU * pageSize);
      remaps := remaps + [Remap(addr + ShareStart(i, perGPU, pageSize), perGPU * pageSize, i, gpuIDs[i])];
      bytes[i] := bytes[i] + perGPU * pageSize;
      last := i;
    }
  }

  // The remaining pages, one by one, for one GPU.
  method RemapRest(pageSize: nat, addr: nat, pages: nat, rest: nat, gpuIDs: seq<int>, last: nat, bytes: array<nat>,
                   done: seq<Remap>)
    returns (remaps: seq<Remap>)
    requires bytes.Length == |gpuIDs| && last < |gpuIDs|
    requires Done(done, bytes[..], addr, PageStart(pages, 0, pageSize), gpuIDs)
    modifies bytes
    ensures Done(remaps, bytes[..], addr, PageStart(pages, rest, pageSize), gpuIDs)
    ensures forall p :: 0 <= p < |gpuIDs| ==> bytes[p] == old(bytes[p]) + if p == last then rest * pageSize else 0
    ensures |remaps| == |done| + rest && remaps[..|done|] == done
    ensures forall i :: |done| <= i < |remaps| ==>
              remaps[i] == Remap(addr + PageStart(pages, i - |done|, pageSize), pageSize, last, gpuIDs[last])
  {
    hide Done, PageStart;
    remaps := done;
    NextPage(pages, 0, pageSize);
    for i := 0 to rest
      invariant Done(remaps, bytes[..], addr, PageStart(pages, i, pageSize), gpuIDs)
      invariant forall p :: 0 <= p < |gpuIDs| ==> bytes[p] == old(bytes[p]) + if p == last then i * pageSize else 0
      invariant |remaps| == |done| + i && remaps[..|done|] == done
      invariant forall k :: |done| <= k < |remaps| ==>
                  remaps[k] == Remap(addr + PageStart(pages, k - |done|, pageSize), pageSize, last, gpuIDs[last])
    {
      NextPage(pages, i, pageSize);
      DoneMore(remaps, bytes[..], addr, PageStart(pages, i, pageSize), gpuIDs, last, pageSize);
      remaps := remaps + [Remap(addr + PageStart(pages, i, pageSize), pageSize, last, gpuIDs[last])];
      bytes[last] := bytes[last] + pageSize;
    }
  }

  // The remapped ranges tile exactly the pages that hold the bytes, and each lies in the part
  // of its GPU; the result says what each GPU got, and adds up.
  method Distribute(pageSize: nat, addr: nat, byteSize: nat, gpuIDs: seq<int>)
    returns (bytes: array<nat>, remaps: seq<Remap>)
    requires pageSize > 0 && addr % pageSize == 0 && byteSize > 0 && |gpuIDs| > 0
    ensures bytes.Length == |gpuIDs| && PlacesOk(remaps, gpuIDs)
    ensures Tiles(remaps, addr, NumPages(byteSize, pageSize) * pageSize)
    ensures forall p :: 0 <= p < |gpuIDs| ==>
              bytes[p] == BytesOf(remaps, p) == Share(NumPages(byteSize, pageSize), |gpuIDs|, p) * pageSize
    ensures Sum(bytes[..]) == NumPages(byteSize, pageSize) * pageSize
    ensures forall i :: 0 <= i < |remaps| ==>
              InPart(remaps[i], addr, NumPages(byteSize, pageSize), |gpuIDs|, pageSize)
  {
    hide Done, Tiles, Sum, BytesOf, NumPages, ShareStart, PageStart, Share, InPart;
    var numPages, numGPUs := NumPages(byteSize, pageSize), |gpuIDs|;
    var perGPU, rest, use := numPages / numGPUs, numPages % numGPUs, GPUsToUse(numPages, numGPUs);
    SharesAndRest(numPages, numGPUs);
    SharesMeetPages(use, perGPU, pageSize, rest, numPages);
    bytes := new nat[numGPUs](i => 0);
    var last: nat;
    remaps, last := RemapShares(pageSize, addr, perGPU, use, gpuIDs, bytes);
    ghost var shares := remaps;
    remaps := RemapRest(pageSize, addr, perGPU * use, rest, gpuIDs, last, bytes, remaps);
    forall i | 0 <= i < |remaps| ensures InPart(remaps[i], addr, numPages, numGPUs, pageSize) {
      if i < use {
        assert remaps[..use][i] == remaps[i];
        ShareInPart(i, addr, numPages, numGPUs, pageSize, gpuIDs[i]);
      } else {
        RestInPart(i - use, last, addr, numPages, numGPUs, pageSize, gpuIDs[last]);
      }
    }
    DoneMeans(remaps, bytes[..], addr, numPages * pageSize, gpuIDs);
    forall p | 0 <= p < numGPUs ensures bytes[p] == Share(numPages, numGPUs, p) * pageSize {
      ShareOf(numPages, numGPUs, p, perGPU, last, pageSize);
    }
  }

  lemma ShareOf(numPages: nat, numGPUs: nat, p: nat, perGPU: nat, last: nat, pageSize: nat)
    requires numGPUs > 0 && p < numGPUs && perGPU == numPages / numGPUs
    requires last == if numPages < numGPUs then 0 else numGPUs - 1
    ensures Share(numPages, numGPUs, p) * pageSize ==
            (if p < GPUsToUse(numPages, numGPUs) then perGPU * pageSize else 0)
            + if p == last then numPages % numGPUs * pageSize else 0
  {
    var rest := numPages % numGPUs;
    assert numPages == perGPU * numGPUs + rest;
    UsesAll(numPages, numGPUs);
    assert (perGPU + rest) * pageSize == perGPU * pageSize + rest * pageSize;
  }

  lemma DoneMeans(remaps: seq<Remap>, bytes: seq<nat>, addr: nat, size: nat, gpuIDs: seq<int>)
    requires Done(remaps, bytes, addr, size, gpuIDs)
    ensures |bytes| == |gpuIDs| && Tiles(remaps, addr, size) && PlacesOk(remaps, gpuIDs) && Sum(bytes) == size
    ensures forall p :: 0 <= p < |bytes| ==> bytes[p] == BytesOf(remaps, p)
  {
  }
}

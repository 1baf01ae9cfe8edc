// Copies between host and device memory, page by page (mgpusim-V1/driver/memorycopyglobalstorage.go),
// and the emulator's paged reads and writes (mgpusim-V1/emu/storageaccessor.go), against one
// flat virtual memory.
module PagedCopy {
  import opened Wrappers

  import opened MixedRadix

  type Byte = b: int | 0 <= b < 256

  datatype Page = Page(vAddr: nat, pAddr: nat, size: nat)

  // ---------- translation ----------

  predicate Covers(p: Page, a: nat) {
    p.vAddr <= a < p.vAddr + p.size
  }

  ghost predicate Apart(a: nat, n: nat, b: nat, m: nat) {
    a + n <= b || b + m <= a
  }

  // Pages cover disjoint addresses and have disjoint frames within the storage.
  ghost predicate ValidTable(pages: seq<Page>, capacity: nat) {
    && (forall i :: 0 <= i < |pages| ==> pages[i].size > 0 && pages[i].pAddr + pages[i].size <= capacity)
    && (forall i, j :: 0 <= i < j < |pages| ==>
          && Apart(pages[i].vAddr, pages[i].size, pages[j].vAddr, pages[j].size)
          && Apart(pages[i].pAddr, pages[i].size, pages[j].pAddr, pages[j].size))
  }

  function Find(pages: seq<Page>, a: nat): (r: Option<Page>)
    ensures r.Some? ==> r.value in pages && Covers(r.value, a)
    ensures r.None? ==> forall p :: p in pages ==> !Covers(p, a)
  {
    if pages == [] then None
    else if Covers(pages[0], a) then Some(pages[0])
    else Find(pages[1..], a)
  }

  ghost predicate Mapped(pages: seq<Page>, a: nat) {
    Find(pages, a).Some?
  }

  // Where a virtual address is stored.
  ghost function Phys(pages: seq<Page>, a: nat): nat {
    if Find(pages, a).Some? then Find(pages, a).value.pAddr + (a - Find(pages, a).value.vAddr) else 0
  }

  lemma PageUnique(pages: seq<Page>, capacity: nat, p: Page, a: nat)
    requires ValidTable(pages, capacity) && p in pages && Covers(p, a)
    ensures Find(pages, a) == Some(p)
  {
    var q := Find(pages, a).value;
    var i :| 0 <= i < |pages| && pages[i] == p;
    var j :| 0 <= j < |pages| && pages[j] == q;
    if i != j {
      PagesApart(pages, capacity, i, j);
      assert false;
    }
  }

  lemma PagesApart(pages: seq<Page>, capacity: nat, i: nat, j: nat)
    requires ValidTable(pages, capacity) && i < |pages| && j < |pages| && i != j
    ensures Apart(pages[i].vAddr, pages[i].size, pages[j].vAddr, pages[j].size)
    ensures Apart(pages[i].pAddr, pages[i].size, pages[j].pAddr, pages[j].size)
  {
  }

  // Within a page, addresses and places go together.
  lemma PhysLinear(pages: seq<Page>, capacity: nat, a: nat, b: nat)
    requires ValidTable(pages, capacity) && Mapped(pages, a) && a <= b && Covers(Find(pages, a).value, b)
    ensures Mapped(pages, b) && Phys(pages, b) == Phys(pages, a) + (b - a) < capacity
  {
    PageUnique(pages, capacity, Find(pages, a).value, b);
  }

  // Different addresses are stored in different places.
  lemma PhysInjective(pages: seq<Page>, capacity: nat, a: nat, b: nat)
    requires ValidTable(pages, capacity) && Mapped(pages, a) && Mapped(pages, b) && a != b
    ensures Phys(pages, a) != Phys(pages, b)
  {
    var p, q := Find(pages, a).value, Find(pages, b).value;
    if p != q {
      var i :| 0 <= i < |pages| && pages[i] == p;
      var j :| 0 <= j < |pages| && pages[j] == q;
      PagesApart(pages, capacity, i, j);
    }
  }

  // ---------- flat virtual memory ----------

  // A range of mapped addresses, in a valid table.
  ghost predicate Stored(pages: seq<Page>, capacity: nat, addr: nat, n: nat) {
    ValidTable(pages, capacity) && forall a :: addr <= a < addr + n ==> Mapped(pages, a)
  }

  lemma PhysInStorage(pages: seq<Page>, capacity: nat, a: nat)
    requires ValidTable(pages, capacity) && Mapped(pages, a)
    ensures Phys(pages, a) < capacity
  {
    PhysLinear(pages, capacity, a, a);
  }

  ghost function At(s: seq<Byte>, pages: seq<Page>, a: nat): Byte {
    if Phys(pages, a) < |s| then s[Phys(pages, a)] else 0
  }

  // The bytes at a range of virtual addresses.
  ghost function FlatRead(s: seq<Byte>, pages: seq<Page>, addr: nat, n: nat): seq<Byte> {
    seq<Byte>(n, (i: nat) => At(s, pages, addr + i))
  }

  ghost predicate Hit(pages: seq<Page>, addr: nat, n: nat, q: nat) {
    exists a :: addr <= a < addr + n && Phys(pages, a) == q
  }

  // t is s with data written to a range of virtual addresses, and no other place changed.
  ghost predicate FlatWritten(s: seq<Byte>, t: seq<Byte>, pages: seq<Page>, addr: nat, data: seq<Byte>) {
    && |t| == |s|
    && (forall a :: addr <= a < addr + |data| ==> At(t, pages, a) == data[a - addr])
    && (forall q :: 0 <= q < |s| && !Hit(pages, addr, |data|, q) ==> t[q] == s[q])
  }

  // What was written is read back ...
  lemma RoundTrip(s: seq<Byte>, t: seq<Byte>, pages: seq<Page>, addr: nat, data: seq<Byte>)
    requires FlatWritten(s, t, pages, addr, data)
    ensures FlatRead(t, pages, addr, |data|) == data
  {
    hide At;
    forall i | 0 <= i < |data| ensures FlatRead(t, pages, addr, |data|)[i] == data[i] {
      assert At(t, pages, addr + i) == data[addr + i - addr];
    }
  }

  // ... and every other virtual address keeps its byte.
  lemma OthersKept(s: seq<Byte>, t: seq<Byte>, pages: seq<Page>, addr: nat, data: seq<Byte>, a: nat)
    requires Stored(pages, |s|, addr, |data|) && FlatWritten(s, t, pages, addr, data)
    requires Mapped(pages, a) && !(addr <= a < addr + |data|)
    ensures At(t, pages, a) == At(s, pages, a)
  {
    PhysInStorage(pages, |s|, a);
    if Hit(pages, addr, |data|, Phys(pages, a)) {
      var b :| addr <= b < addr + |data| && Phys(pages, b) == Phys(pages, a);
      PhysInjective(pages, |s|, b, a);
      assert false;
    }
  }

  // ---------- one step of a copy ----------

  // Writing physically consecutive bytes.
  ghost predicate PhysWritten(s: seq<Byte>, t: seq<Byte>, pAddr: nat, data: seq<Byte>) {
    && |t| == |s| && pAddr + |data| <= |s|
    && forall q :: 0 <= q < |s| ==> t[q] == if pAddr <= q < pAddr + |data| then data[q - pAddr] else s[q]
  }

  // A range of addresses that is stored in one piece.
  ghost predicate Linear(pages: seq<Page>, addr: nat, n: nat) {
    forall a :: addr <= a < addr + n ==> Phys(pages, a) == Phys(pages, addr) + (a - addr)
  }

  lemma LinearInPage(pages: seq<Page>, capacity: nat, addr: nat, n: nat)
    requires ValidTable(pages, capacity) && Mapped(pages, addr) && n > 0 &&
             Covers(Find(pages, addr).value, addr + n - 1)
    ensures Linear(pages, addr, n) && Phys(pages, addr) + n <= capacity
  {
    hide ValidTable, Find, Phys;
    forall a | addr <= a < addr + n ensures Phys(pages, a) == Phys(pages, addr) + (a - addr) {
      PhysLinear(pages, capacity, addr, a);
    }
    PhysLinear(pages, capacity, addr, addr + n - 1);
  }

  // A copy continued by a physically consecutive piece.
  lemma WriteMore(s: seq<Byte>, t: seq<Byte>, u: seq<Byte>, pages: seq<Page>, addr: nat, done: seq<Byte>,
                  piece: seq<Byte>)
    requires Stored(pages, |s|, addr, |done| + |piece|) && FlatWritten(s, t, pages, addr, done)
    requires Linear(pages, addr + |done|, |piece|) && PhysWritten(t, u, Phys(pages, addr + |done|), piece) &&
             piece != []
    ensures FlatWritten(s, u, pages, addr, done + piece)
  {
    hide Phys, Linear, Stored;
    var k, all := |done|, done + piece;
    forall a | addr <= a < addr + |all| ensures At(u, pages, a) == all[a - addr] {
      PieceByte(pages, |s|, addr, k, |piece|, a);
      assert a < addr + k ==> At(t, pages, a) == done[a - addr];
    }
    forall q | 0 <= q < |s| && !Hit(pages, addr, |all|, q) ensures u[q] == s[q] {
      PieceHits(pages, addr, k, |piece|, q);
    }
  }

  // Where a byte of a copy lies relative to the piece written last.
  lemma PieceByte(pages: seq<Page>, capacity: nat, addr: nat, k: nat, n: nat, a: nat)
    requires Stored(pages, capacity, addr, k + n) && Linear(pages, addr + k, n) && addr <= a < addr + k + n
    ensures Phys(pages, a) < capacity
    ensures a < addr + k ==> !(Phys(pages, addr + k) <= Phys(pages, a) < Phys(pages, addr + k) + n)
    ensures a >= addr + k ==> Phys(pages, a) == Phys(pages, addr + k) + (a - addr - k)
  {
    hide Phys, ValidTable;
    PhysInStorage(pages, capacity, a);
    if a < addr + k && Phys(pages, addr + k) <= Phys(pages, a) < Phys(pages, addr + k) + n {
      var b := addr + k + (Phys(pages, a) - Phys(pages, addr + k));
      assert Phys(pages, b) == Phys(pages, a);
      PhysInjective(pages, capacity, a, b);
      assert false;
    }
  }

  lemma InLinear(pages: seq<Page>, addr: nat, n: nat, q: nat)
    requires Linear(pages, addr, n) && Phys(pages, addr) <= q < Phys(pages, addr) + n
    ensures Hit(pages, addr, n, q)
  {
    hide Phys;
    assert Phys(pages, addr + (q - Phys(pages, addr))) == q;
  }

  lemma PieceHits(pages: seq<Page>, addr: nat, k: nat, n: nat, q: nat)
    requires Linear(pages, addr + k, n) && !Hit(pages, addr, k + n, q)
    ensures !Hit(pages, addr, k, q) && !(Phys(pages, addr + k) <= q < Phys(pages, addr + k) + n)
  {
    hide Phys;
    if Phys(pages, addr + k) <= q < Phys(pages, addr + k) + n {
      InLinear(pages, addr + k, n, q);
    }
  }

  lemma ReadMore(s: seq<Byte>, pages: seq<Page>, addr: nat, k: nat, n: nat)
    requires Linear(pages, addr + k, n) && Phys(pages, addr + k) + n <= |s|
    ensures FlatRead(s, pages, addr, k + n) ==
            FlatRead(s, pages, addr, k) + s[Phys(pages, addr + k)..Phys(pages, addr + k) + n]
  {
    hide Phys;
    var p, all := Phys(pages, addr + k), FlatRead(s, pages, addr, k + n);
    var parts := FlatRead(s, pages, addr, k) + s[p..p + n];
    forall i | 0 <= i < |all| ensures all[i] == parts[i] {
      if i >= k {
        assert Phys(pages, addr + i) == p + (i - k);
      }
    }
  }

  // ---------- the driver's copies ----------

  // Stands for the storage's write.
  method StorageWrite(storage: array<Byte>, pAddr: nat, data: seq<Byte>)
    requires pAddr + |data| <= storage.Length
    modifies storage
    ensures PhysWritten(old(storage[..]), storage[..], pAddr, data)
  {
    for i := 0 to |data|
      invariant forall q :: 0 <= q < storage.Length ==>
                  storage[q] == if pAddr <= q < pAddr + i then data[q - pAddr] else old(storage[q])
    {
      storage[pAddr + i] := data[i];
    }
  }

  function Min(a: nat, b: nat): nat {
    if a < b then a else b
  }

  // How much of a copy fits in the page of an address.
  function PageSizeToCopy(p: Page, addr: nat, sizeLeft: nat): (n: nat)
    requires Covers(p, addr) && sizeLeft > 0
    ensures 0 < n <= sizeLeft && Covers(p, addr + n - 1)
  {
    var sizeLeftInPage := p.size - (addr - p.vAddr);
    if sizeLeft < sizeLeftInPage then sizeLeft else sizeLeftInPage
  }

  lemma NothingYet(s: seq<Byte>, pages: seq<Page>, addr: nat)
    ensures FlatWritten(s, s, pages, addr, []) && FlatRead(s, pages, addr, 0) == []
  {
  }

  // What a step of a copy needs to know about the page that it finds.
  lemma FoundPage(pages: seq<Page>, capacity: nat, addr: nat, total: nat, offset: nat)
    requires Stored(pages, capacity, addr, total) && offset < total
    ensures var r := Find(pages, addr + offset);
            r.Some? && Covers(r.value, addr + offset) && r.value in pages
            && Phys(pages, addr + offset) == r.value.pAddr + (addr + offset - r.value.vAddr)
  {
    assert Mapped(pages, addr + offset);
  }

  lemma PieceIsLinear(pages: seq<Page>, capacity: nat, addr: nat, total: nat, offset: nat, n: nat)
    requires Stored(pages, capacity, addr, total) && offset + n <= total && n > 0 && Mapped(pages, addr + offset)
    requires Covers(Find(pages, addr + offset).value, addr + offset + n - 1)
    ensures Linear(pages, addr + offset, n) && Phys(pages, addr + offset) + n <= capacity
    ensures Stored(pages, capacity, addr, offset + n)
  {
    LinearInPage(pages, capacity, addr + offset, n);
  }

  // Copies bytes to a range of virtual addresses. Panics if a page is missing.
  method MemCopyH2D(storage: array<Byte>, pages: seq<Page>, dst: nat, src: seq<Byte>)
    requires Stored(pages, storage.Length, dst, |src|)
    modifies storage
    ensures FlatWritten(old(storage[..]), storage[..], pages, dst, src)
  {
    hide Stored, FlatWritten, Phys, PhysWritten, Linear, Find;
    ghost var was := storage[..];
    var offset, addr, sizeLeft := 0, dst, |src|;
    NothingYet(was, pages, dst);
    assert src[..0] == [];
    while sizeLeft > 0
      invariant 0 <= offset && 0 <= sizeLeft && addr == dst + offset && offset + sizeLeft == |src|
      invariant FlatWritten(was, storage[..], pages, dst, src[..offset])
      decreases sizeLeft
    {
      FoundPage(pages, storage.Length, dst, |src|, offset);
      var page := Find(pages, addr).value;
      var sizeToCopy := PageSizeToCopy(page, addr, sizeLeft);
      PieceIsLinear(pages, storage.Length, dst, |src|, offset, sizeToCopy);
      ghost var before := storage[..];
      StorageWrite(storage, page.pAddr + (addr - page.vAddr), src[offset..offset + sizeToCopy]);
      WriteMore(was, before, storage[..], pages, dst, src[..offset], src[offset..offset + sizeToCopy]);
      assert src[..offset + sizeToCopy] == src[..offset] + src[offset..offset + sizeToCopy];
      offset, addr, sizeLeft := offset + sizeToCopy, addr + sizeToCopy, sizeLeft - sizeToCopy;
    }
    assert src[..offset] == src;
  }

  // Copies the bytes of a range of virtual addresses out.
  method MemCopyD2H(storage: array<Byte>, pages: seq<Page>, src: nat, n: nat) returns (rawData: array<Byte>)
    requires Stored(pages, storage.Length, src, n)
    ensures rawData[..] == FlatRead(storage[..], pages, src, n)
  {
    hide Stored, FlatRead, Phys, Linear, Find;
    rawData := new Byte[n](i => 0);
    var offset, addr, sizeLeft := 0, src, n;
    NothingYet(storage[..], pages, src);
    while sizeLeft > 0
      invariant 0 <= offset && 0 <= sizeLeft && addr == src + offset && offset + sizeLeft == n
      invariant rawData[..offset] == FlatRead(storage[..], pages, src, offset)
      decreases sizeLeft
    {
      FoundPage(pages, storage.Length, src, n, offset);
      var page := Find(pages, addr).value;
      var sizeToCopy := PageSizeToCopy(page, addr, sizeLeft);
      PieceIsLinear(pages, storage.Length, src, n, offset, sizeToCopy);
      ReadMore(storage[..], pages, src, offset, sizeToCopy);
      CopyBytes(rawData, offset, storage, page.pAddr + (addr - page.vAddr), sizeToCopy);
      offset, addr, sizeLeft := offset + sizeToCopy, addr + sizeToCopy, sizeLeft - sizeToCopy;
    }
    assert rawData[..offset] == rawData[..];
  }

  method CopyBytes(to: array<Byte>, offset: nat, from: array<Byte>, pAddr: nat, n: nat)
    requires offset + n <= to.Length && pAddr + n <= from.Length && to != from
    modifies to
    ensures to[..offset + n] == old(to[..offset]) + from[pAddr..pAddr + n]
  {
    for i := 0 to n
      invariant to[..offset + i] == old(to[..offset]) + from[pAddr..pAddr + i]
    {
      to[offset + i] := from[pAddr + i];
      assert to[..offset + i + 1] == to[..offset + i] + [from[pAddr + i]];
    }
  }

  // ---------- the emulator's accesses ----------

  // Every page consists of whole blocks of the emulator's page size.
  ghost predicate Blocks(pages: seq<Page>, pageSize: nat)
    requires pageSize > 0
  {
    forall p :: p in pages ==> p.vAddr % pageSize == 0 && p.size % pageSize == 0
  }

  function NextPageStart(a: nat, pageSize: nat): nat
    requires pageSize > 0
  {
    (a / pageSize + 1) * pageSize
  }

  lemma NextStartBounds(a: nat, pageSize: nat)
    requires pageSize > 0
    ensures a < NextPageStart(a, pageSize) <= a + pageSize
  {
    assert a == a / pageSize * pageSize + a % pageSize;
  }

  // An aligned page reaches as far as the blocks of its addresses.
  lemma BlockInPage(p: Page, a: nat, pageSize: nat)
    requires pageSize > 0 && p.vAddr % pageSize == 0 && p.size % pageSize == 0 && Covers(p, a)
    ensures NextPageStart(a, pageSize) <= p.vAddr + p.size
  {
    var v, n, q := p.vAddr / pageSize, p.size / pageSize, a / pageSize;
    assert p.vAddr + p.size == (v + n) * pageSize;
    assert a == q * pageSize + a % pageSize;
    if v + n <= q {
      MulMonotone(v + n, q, pageSize);
      assert false;
    }
    MulMonotone(q + 1, v + n, pageSize);
  }

  function BlockSizeToCopy(a: nat, pageSize: nat, sizeLeft: nat): (n: nat)
    requires pageSize > 0 && sizeLeft > 0
    ensures 0 < n <= sizeLeft && a + n <= NextPageStart(a, pageSize)
  {
    NextStartBounds(a, pageSize);
    Min(NextPageStart(a, pageSize) - a, sizeLeft)
  }

  // The bytes that the emulator reads: block by block, each from the place of its first
  // address on.
  ghost function BlockRead(s: seq<Byte>, pages: seq<Page>, pageSize: nat, a: nat, left: nat): (r: seq<Byte>)
    requires pageSize > 0 && BlocksFound(pages, pageSize, |s|, a, left)
    ensures |r| == left
    decreases left
  {
    if left == 0 then []
    else
      var n := BlockSizeToCopy(a, pageSize, left);
      s[Phys(pages, a)..Phys(pages, a) + n] + BlockRead(s, pages, pageSize, a + n, left - n)
  }

  // The first address of every block has a page, and the block lies within the storage.
  ghost predicate BlocksFound(pages: seq<Page>, pageSize: nat, capacity: nat, a: nat, left: nat)
    requires pageSize > 0
    decreases left
  {
    left == 0 ||
    var n := BlockSizeToCopy(a, pageSize, left);
    Mapped(pages, a) && Phys(pages, a) + n <= capacity && BlocksFound(pages, pageSize, capacity, a + n, left - n)
  }

  // Every block of the range is stored in one piece.
  ghost predicate BlocksLinear(pages: seq<Page>, pageSize: nat, a: nat, left: nat)
    requires pageSize > 0
    decreases left
  {
    left == 0 ||
    var n := BlockSizeToCopy(a, pageSize, left);
    Linear(pages, a, n) && BlocksLinear(pages, pageSize, a + n, left - n)
  }

  // Panics if the page of a block is missing or a block reaches over the end of the storage.
  method Read(storage: array<Byte>, pages: seq<Page>, pageSize: nat, vAddr: nat, byteSize: nat)
    returns (data: array<Byte>)
    requires pageSize > 0 && BlocksFound(pages, pageSize, storage.Length, vAddr, byteSize)
    ensures data[..] == BlockRead(storage[..], pages, pageSize, vAddr, byteSize)
  {
    hide Phys, Find, NextPageStart, BlocksFound, BlockRead;
    data := new Byte[byteSize](i => 0);
    var sizeLeft, offset := byteSize, 0;
    ghost var s := storage[..];
    while sizeLeft > 0
      invariant 0 <= offset && 0 <= sizeLeft && offset + sizeLeft == byteSize
      invariant BlocksFound(pages, pageSize, |s|, vAddr + offset, sizeLeft)
      invariant data[..offset] + BlockRead(s, pages, pageSize, vAddr + offset, sizeLeft) ==
                BlockRead(s, pages, pageSize, vAddr, byteSize)
      decreases sizeLeft
    {
      var currVAddr := vAddr + offset;
      var sizeToRead := BlockSizeToCopy(currVAddr, pageSize, sizeLeft);
      ReadStep(s, pages, pageSize, currVAddr, sizeLeft, data[..offset]);
      PlaceOf(pages, currVAddr);
      var page := Find(pages, currVAddr).value;
      CopyBytes(data, offset, storage, page.pAddr + (currVAddr - page.vAddr), sizeToRead);
      offset, sizeLeft := offset + sizeToRead, sizeLeft - sizeToRead;
    }
    ReadEnd(s, pages, pageSize, vAddr + offset);
    assert data[..offset] == data[..] == data[..] + [];
  }

  lemma ReadStep(s: seq<Byte>, pages: seq<Page>, pageSize: nat, a: nat, left: nat, done: seq<Byte>)
    requires pageSize > 0 && left > 0 && BlocksFound(pages, pageSize, |s|, a, left)
    ensures var n := BlockSizeToCopy(a, pageSize, left);
            && Mapped(pages, a) && Phys(pages, a) + n <= |s| && BlocksFound(pages, pageSize, |s|, a + n, left - n)
            && done + BlockRead(s, pages, pageSize, a, left) ==
               done + s[Phys(pages, a)..Phys(pages, a) + n] + BlockRead(s, pages, pageSize, a + n, left - n)
  {
    hide Phys, Find, NextPageStart;
  }

  lemma ReadEnd(s: seq<Byte>, pages: seq<Page>, pageSize: nat, a: nat)
    requires pageSize > 0
    ensures BlocksFound(pages, pageSize, |s|, a, 0) && BlockRead(s, pages, pageSize, a, 0) == []
  {
  }

  lemma PlaceOf(pages: seq<Page>, a: nat)
    requires Mapped(pages, a)
    ensures var p := Find(pages, a).value; Covers(p, a) && Phys(pages, a) == p.pAddr + (a - p.vAddr)
  {
  }

  // The first address that is read of the block of b, in a range from a on.
  function BlockFirst(a: nat, b: nat, pageSize: nat): nat
    requires pageSize > 0
  {
    var start := b / pageSize * pageSize;
    if start < a then a else start
  }

  lemma SameBlock(a: nat, b: nat, pageSize: nat)
    requires pageSize > 0 && a <= b
    ensures b < NextPageStart(a, pageSize) ==> BlockFirst(a, b, pageSize) == a
    ensures b >= NextPageStart(a, pageSize) ==>
              BlockFirst(a, b, pageSize) == BlockFirst(NextPageStart(a, pageSize), b, pageSize)
  {
    BlockStarts(a / pageSize, a % pageSize, b / pageSize, b % pageSize, pageSize);
  }

  lemma BlockStarts(p: nat, r: nat, q: nat, u: nat, n: nat)
    requires r < n && u < n
    ensures q * n + u < (p + 1) * n ==> q * n <= p * n + r
    ensures q * n + u >= (p + 1) * n ==> q * n >= (p + 1) * n
  {
    assert (p + 1) * n == p * n + n;
    if q <= p {
      MulMonotone(q, p, n);
    } else {
      MulMonotone(p + 1, q, n);
    }
  }

  // Each byte is read as far from the place of the first address of its block as it lies behind
  // that address.
  lemma {:induction false} ReadByte(s: seq<Byte>, pages: seq<Page>, pageSize: nat, a: nat, left: nat, i: nat)
    requires pageSize > 0 && BlocksFound(pages, pageSize, |s|, a, left) && i < left
    ensures var first := BlockFirst(a, a + i, pageSize);
            && Mapped(pages, first) && first <= a + i && Phys(pages, first) + (a + i - first) < |s|
            && BlockRead(s, pages, pageSize, a, left)[i] == s[Phys(pages, first) + (a + i - first)]
    decreases left
  {
    hide Phys, Find, NextPageStart, BlockFirst, BlockSizeToCopy, Mapped, BlocksFound, BlockRead;
    var n := BlockSizeToCopy(a, pageSize, left);
    SameBlock(a, a + i, pageSize);
    ReadStep(s, pages, pageSize, a, left, []);
    var piece := s[Phys(pages, a)..Phys(pages, a) + n];
    assert [] + BlockRead(s, pages, pageSize, a, left) == BlockRead(s, pages, pageSize, a, left);
    assert [] + piece == piece;
    if i >= n {
      FullBlock(a, pageSize, left);
      ReadByte(s, pages, pageSize, a + n, left - n, i - n);
    }
  }

  lemma FullBlock(a: nat, pageSize: nat, left: nat)
    requires pageSize > 0 && left > 0
    ensures BlockSizeToCopy(a, pageSize, left) < left ==>
              a + BlockSizeToCopy(a, pageSize, left) == NextPageStart(a, pageSize)
  {
  }

  // What the emulator reads are the bytes of the virtual range, whatever is stored, exactly if
  // every block is stored in one piece.
  lemma ReadIsFlatIff(pages: seq<Page>, pageSize: nat, capacity: nat, a: nat, n: nat)
    requires pageSize > 0 && Stored(pages, capacity, a, n) && BlocksFound(pages, pageSize, capacity, a, n)
    ensures BlocksLinear(pages, pageSize, a, n) <==>
            forall s: seq<Byte> :: |s| == capacity ==>
              BlockRead(s, pages, pageSize, a, n) == FlatRead(s, pages, a, n)
  {
    hide BlocksLinear, BlockRead, FlatRead, BlocksFound, Stored;
    if BlocksLinear(pages, pageSize, a, n) {
      forall s: seq<Byte> | |s| == capacity
        ensures BlockRead(s, pages, pageSize, a, n) == FlatRead(s, pages, a, n)
      {
        LinearReadIsFlat(s, pages, pageSize, a, n);
      }
    } else {
      var s := ScatteredRead(pages, pageSize, capacity, a, n);
    }
  }

  lemma FlatReadSplit(s: seq<Byte>, pages: seq<Page>, a: nat, k: nat, n: nat)
    requires k <= n
    ensures FlatRead(s, pages, a, n) == FlatRead(s, pages, a, k) + FlatRead(s, pages, a + k, n - k)
  {
    hide At;
    var all, parts := FlatRead(s, pages, a, n), FlatRead(s, pages, a, k) + FlatRead(s, pages, a + k, n - k);
    forall i | 0 <= i < n ensures all[i] == parts[i] {
      if i >= k {
        assert a + k + (i - k) == a + i;
      }
    }
  }

  lemma {:induction false} LinearReadIsFlat(s: seq<Byte>, pages: seq<Page>, pageSize: nat, a: nat, left: nat)
    requires pageSize > 0 && BlocksFound(pages, pageSize, |s|, a, left) && BlocksLinear(pages, pageSize, a, left)
    ensures BlockRead(s, pages, pageSize, a, left) == FlatRead(s, pages, a, left)
    decreases left
  {
    hide Phys, FlatRead, Linear, Find, NextPageStart;
    NothingYet(s, pages, a);
    if left > 0 {
      var n := BlockSizeToCopy(a, pageSize, left);
      LinearReadIsFlat(s, pages, pageSize, a + n, left - n);
      ReadMore(s, pages, a, 0, n);
      FlatReadSplit(s, pages, a, n, left);
    }
  }

  // A storage from which the emulator reads something else.
  lemma {:induction false} ScatteredRead(pages: seq<Page>, pageSize: nat, capacity: nat, a: nat, left: nat)
    returns (s: seq<Byte>)
    requires pageSize > 0 && Stored(pages, capacity, a, left) && BlocksFound(pages, pageSize, capacity, a, left)
    requires !BlocksLinear(pages, pageSize, a, left)
    ensures |s| == capacity && BlockRead(s, pages, pageSize, a, left) != FlatRead(s, pages, a, left)
    decreases left
  {
    hide Phys, FlatRead, Find, NextPageStart, ValidTable, Mapped, BlockRead, Linear, BlockSizeToCopy;
    var n := BlockSizeToCopy(a, pageSize, left);
    if Linear(pages, a, n) {
      s := ScatteredRead(pages, pageSize, capacity, a + n, left - n);
      ReadStep(s, pages, pageSize, a, left, []);
      FlatReadSplit(s, pages, a, n, left);
      FlatReadSize(s, pages, a, n);
      TailsDiffer([] + s[Phys(pages, a)..Phys(pages, a) + n], BlockRead(s, pages, pageSize, a + n, left - n),
                  FlatRead(s, pages, a, n), FlatRead(s, pages, a + n, left - n));
      assert [] + BlockRead(s, pages, pageSize, a, left) == BlockRead(s, pages, pageSize, a, left);
    } else {
      s := ScatteredBlock(pages, pageSize, capacity, a, left);
    }
  }

  lemma ScatteredBlock(pages: seq<Page>, pageSize: nat, capacity: nat, a: nat, left: nat) returns (s: seq<Byte>)
    requires pageSize > 0 && Stored(pages, capacity, a, left) && BlocksFound(pages, pageSize, capacity, a, left)
    requires left > 0 && !Linear(pages, a, BlockSizeToCopy(a, pageSize, left))
    ensures |s| == capacity && BlockRead(s, pages, pageSize, a, left) != FlatRead(s, pages, a, left)
  {
    hide Phys, FlatRead, Find, NextPageStart, ValidTable, Mapped, BlockRead, BlocksFound, BlockFirst;
    var n := BlockSizeToCopy(a, pageSize, left);
    var b :| a <= b < a + n && Phys(pages, b) != Phys(pages, a) + (b - a);
    PhysInStorage(pages, capacity, b);
    s := Marked(capacity, Phys(pages, b), 1);
    SameBlock(a, b, pageSize);
    assert a + (b - a) == b;
    ReadByte(s, pages, pageSize, a, left, b - a);
    FlatReadAt(s, pages, a, left, b - a);
  }

  lemma FlatReadSize(s: seq<Byte>, pages: seq<Page>, a: nat, n: nat)
    ensures |FlatRead(s, pages, a, n)| == n
  {
  }

  lemma FlatReadAt(s: seq<Byte>, pages: seq<Page>, a: nat, n: nat, i: nat)
    requires i < n && Phys(pages, a + i) < |s|
    ensures |FlatRead(s, pages, a, n)| == n && FlatRead(s, pages, a, n)[i] == s[Phys(pages, a + i)]
  {
    hide Phys;
    assert FlatRead(s, pages, a, n)[i] == At(s, pages, a + i);
  }

  lemma TailsDiffer(x: seq<Byte>, u: seq<Byte>, y: seq<Byte>, v: seq<Byte>)
    requires |x| == |y| && u != v
    ensures x + u != y + v
  {
    assert (x + u)[|x|..] == u && (y + v)[|y|..] == v;
  }

  // With pages of whole blocks the emulator reads the same bytes as the driver copies out.
  lemma AlignedReadIsFlat(s: seq<Byte>, pages: seq<Page>, pageSize: nat, a: nat, n: nat)
    requires pageSize > 0 && Stored(pages, |s|, a, n) && Blocks(pages, pageSize)
    ensures BlocksFound(pages, pageSize, |s|, a, n)
    ensures BlockRead(s, pages, pageSize, a, n) == FlatRead(s, pages, a, n)
  {
    AlignedBlocks(pages, pageSize, |s|, a, n);
    LinearReadIsFlat(s, pages, pageSize, a, n);
  }

  lemma {:induction false} AlignedBlocks(pages: seq<Page>, pageSize: nat, capacity: nat, a: nat, left: nat)
    requires pageSize > 0 && Stored(pages, capacity, a, left) && Blocks(pages, pageSize)
    ensures BlocksFound(pages, pageSize, capacity, a, left) && BlocksLinear(pages, pageSize, a, left)
    decreases left
  {
    hide Phys, Find, NextPageStart, Linear, ValidTable;
    if left > 0 {
      var n := BlockSizeToCopy(a, pageSize, left);
      assert Mapped(pages, a);
      FoundPage(pages, capacity, a, left, 0);
      BlockInPage(Find(pages, a).value, a, pageSize);
      PieceIsLinear(pages, capacity, a, left, 0, n);
      AlignedBlocks(pages, pageSize, capacity, a + n, left - n);
    }
  }

  lemma PhysWriteMore(s: seq<Byte>, t: seq<Byte>, u: seq<Byte>, pAddr: nat, done: seq<Byte>, piece: seq<Byte>)
    requires PhysWritten(s, t, pAddr, done) && PhysWritten(t, u, pAddr + |done|, piece)
    ensures PhysWritten(s, u, pAddr, done + piece)
  {
  }

  // The emulator's write looks up the page of the first address only, so it writes to
  // consecutive places from there on.
  method Write(storage: array<Byte>, pages: seq<Page>, pageSize: nat, vAddr: nat, data: seq<Byte>)
    requires pageSize > 0 && (data != [] ==> Mapped(pages, vAddr))
    requires Phys(pages, vAddr) + |data| <= storage.Length
    modifies storage
    ensures PhysWritten(old(storage[..]), storage[..], Phys(pages, vAddr), data)
  {
    hide NextPageStart, PhysWritten, Find;
    ghost var was := storage[..];
    var sizeLeft, offset := |data|, 0;
    assert data[..0] == [];
    NothingPhysWritten(was, Phys(pages, vAddr));
    while sizeLeft > 0
      invariant 0 <= offset && 0 <= sizeLeft && offset + sizeLeft == |data|
      invariant PhysWritten(was, storage[..], Phys(pages, vAddr), data[..offset])
      decreases sizeLeft
    {
      var currVAddr := vAddr + offset;
      var sizeToWrite := BlockSizeToCopy(currVAddr, pageSize, sizeLeft);
      var page := Find(pages, vAddr).value;
      ghost var before := storage[..];
      StorageWrite(storage, page.pAddr + (currVAddr - page.vAddr), data[offset..offset + sizeToWrite]);
      PhysWriteMore(was, before, storage[..], Phys(pages, vAddr), data[..offset], data[offset..offset + sizeToWrite]);
      assert data[..offset + sizeToWrite] == data[..offset] + data[offset..offset + sizeToWrite];
      offset, sizeLeft := offset + sizeToWrite, sizeLeft - sizeToWrite;
    }
    assert data[..offset] == data;
  }

  lemma NothingPhysWritten(s: seq<Byte>, pAddr: nat)
    requires pAddr <= |s|
    ensures PhysWritten(s, s, pAddr, [])
  {
  }

  // That is the flat write of every byte sequence exactly if the range is physically
  // consecutive, for example within one page.
  lemma WriteIsFlatIff(s: seq<Byte>, pages: seq<Page>, addr: nat, n: nat)
    requires Stored(pages, |s|, addr, n) && Phys(pages, addr) + n <= |s|
    ensures Linear(pages, addr, n) <==>
            forall t, data :: |data| == n && PhysWritten(s, t, Phys(pages, addr), data) ==>
              FlatWritten(s, t, pages, addr, data)
  {
    hide Phys, PhysWritten, FlatWritten, Stored;
    if Linear(pages, addr, n) {
      forall t: seq<Byte>, data: seq<Byte> | |data| == n && PhysWritten(s, t, Phys(pages, addr), data)
        ensures FlatWritten(s, t, pages, addr, data)
      {
        LinearWriteIsFlat(s, t, pages, addr, data);
      }
    } else {
      var a :| addr <= a < addr + n && Phys(pages, a) != Phys(pages, addr) + (a - addr);
      ScatteredIsNot(s, pages, addr, n, a);
    }
  }

  // Two pages of four bytes that change places in the storage.
  const SWAPPED := [Page(0, 4, 4), Page(4, 0, 4)]

  // A write of four bytes across their border puts the last two behind the first page, where
  // no address is stored, and not on the second page.
  lemma WriteAcrossPages(t: seq<Byte>)
    requires PhysWritten(seq<Byte>(12, i => 0), t, Phys(SWAPPED, 2), [1, 2, 3, 4])
    ensures Stored(SWAPPED, 12, 2, 4) && Blocks(SWAPPED, 4) && !Linear(SWAPPED, 2, 4)
    ensures FlatRead(t, SWAPPED, 2, 4) == [1, 2, 0, 0] && t[8..10] == [3, 4]
  {
    SwappedPlaces();
    assert FlatRead(t, SWAPPED, 2, 4) == [At(t, SWAPPED, 2), At(t, SWAPPED, 3), At(t, SWAPPED, 4), At(t, SWAPPED, 5)];
  }

  lemma SwappedPlaces()
    ensures ValidTable(SWAPPED, 12)
    ensures Phys(SWAPPED, 2) == 6 && Phys(SWAPPED, 3) == 7 && Phys(SWAPPED, 4) == 0 && Phys(SWAPPED, 5) == 1
    ensures Mapped(SWAPPED, 2) && Mapped(SWAPPED, 3) && Mapped(SWAPPED, 4) && Mapped(SWAPPED, 5)
  {
    assert SWAPPED[1..] == [Page(4, 0, 4)];
  }

  lemma LinearWriteIsFlat(s: seq<Byte>, t: seq<Byte>, pages: seq<Page>, addr: nat, data: seq<Byte>)
    requires Linear(pages, addr, |data|) && PhysWritten(s, t, Phys(pages, addr), data)
    ensures FlatWritten(s, t, pages, addr, data)
  {
    hide Phys;
    forall q | 0 <= q < |s| && !Hit(pages, addr, |data|, q) ensures t[q] == s[q] {
      if Phys(pages, addr) <= q < Phys(pages, addr) + |data| {
        InLinear(pages, addr, |data|, q);
      }
    }
  }

  // Writing a byte that differs from all others shows up in the wrong place.
  lemma ScatteredIsNot(s: seq<Byte>, pages: seq<Page>, addr: nat, n: nat, a: nat)
    requires Stored(pages, |s|, addr, n) && Phys(pages, addr) + n <= |s|
    requires addr <= a < addr + n && Phys(pages, a) != Phys(pages, addr) + (a - addr)
    ensures exists t, data ::
              |data| == n && PhysWritten(s, t, Phys(pages, addr), data) && !FlatWritten(s, t, pages, addr, data)
  {
    hide Phys, ValidTable;
    var p, q := Phys(pages, addr), Phys(pages, a);
    PhysInStorage(pages, |s|, a);
    var there: Byte := if p <= q < p + n then 0 else s[q];
    var data := Marked(n, a - addr, if there == 0 then 1 else 0);
    var t := Overwritten(s, p, data);
    assert t[q] == there && data[a - addr] != there;
    assert At(t, pages, a) != data[a - addr];
    assert !FlatWritten(s, t, pages, addr, data);
  }

  // Zeros, but for one byte.
  ghost function Marked(n: nat, i: nat, b: Byte): (data: seq<Byte>)
    requires i < n
    ensures |data| == n && forall j :: 0 <= j < n ==> data[j] == if j == i then b else 0
  {
    seq(n, (j: nat) => if j == i then b else 0)
  }

  ghost function Overwritten(s: seq<Byte>, p: nat, data: seq<Byte>): (t: seq<Byte>)
    requires p + |data| <= |s|
    ensures PhysWritten(s, t, p, data)
  {
    s[..p] + data + s[p + |data|..]
  }
}

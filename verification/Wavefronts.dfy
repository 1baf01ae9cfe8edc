// Cutting a work-group into work-items and 64-lane wavefronts (mgpusim-V1/kernels), and
// finding each lane's position again in the compute unit (mgpusim-V1/emu/computeunit.go).
module Wavefronts {
  import opened MixedRadix

  const LANES: nat := 64

  // The lanes whose bit is set in the initial execution mask are a set.
  datatype Wavefront = Wavefront(first: nat, items: seq<Idx>, mask: set<nat>)

  // ---------- work-items ----------

  // A work-group of nominal size sx, sy that holds cx, cy, cz work-items.
  ghost predicate ValidSizes(sx: nat, sy: nat, cx: nat, cy: nat, cz: nat) {
    1 <= cx <= sx && 1 <= cy <= sy && 1 <= cz
  }

  ghost function Items(cx: nat, cy: nat, cz: nat): seq<Idx>
    requires cx > 0 && cy > 0
  {
    seq(cx * cy * cz, f requires 0 <= f < cx * cy * cz => IdxAt(cx, cy, f))
  }

  lemma FlatOfRows(cx: nat, cy: nat, x: nat, y: nat, z: nat)
    ensures Flat(cx, cy, Idx(cx, y, z)) == Flat(cx, cy, Idx(0, y + 1, z))
    ensures Flat(cx, cy, Idx(0, cy, z)) == Flat(cx, cy, Idx(0, 0, z + 1))
    ensures Flat(cx, cy, Idx(x + 1, y, z)) == Flat(cx, cy, Idx(x, y, z)) + 1
    ensures Flat(cx, cy, Idx(0, 0, z)) == cx * cy * z
    ensures Flat(cx, cy, Idx(0, 0, 0)) == 0
  {
    assert z * cx * cy == cx * cy * z;
    assert (z + 1) * cx * cy == z * cx * cy + cy * cx;
  }

  ghost predicate ItemsUpTo(cx: nat, cy: nat, items: seq<Idx>, i: Idx)
    requires cx > 0 && cy > 0
  {
    |items| == Flat(cx, cy, i) && forall f :: 0 <= f < |items| ==> items[f] == IdxAt(cx, cy, f)
  }

  // They are the positions of the box,
  lemma ItemsAreTheBox(cx: nat, cy: nat, cz: nat)
    requires cx > 0 && cy > 0
    ensures forall wi :: wi in Items(cx, cy, cz) <==> InBox(cx, cy, cz, wi)
  {
    hide Flat, IdxAt;
    var items := Items(cx, cy, cz);
    forall f | 0 <= f < cx * cy * cz ensures InBox(cx, cy, cz, items[f]) {
      AtInBox(cx, cy, cz, f);
    }
    forall wi | InBox(cx, cy, cz, wi) ensures wi in items {
      FlatInBox(cx, cy, cz, wi);
      AtFlat(cx, cy, wi);
      assert items[Flat(cx, cy, wi)] == wi;
    }
  }

  // in order, so each occurs once.
  lemma ItemsInOrder(cx: nat, cy: nat, cz: nat, i: nat, j: nat)
    requires cx > 0 && cy > 0 && i < j < |Items(cx, cy, cz)|
    ensures Precedes(Items(cx, cy, cz)[i], Items(cx, cy, cz)[j])
  {
    hide Flat, IdxAt, Precedes;
    FlatAt(cx, cy, i);
    FlatAt(cx, cy, j);
    AtInBox(cx, cy, cz, i);
    AtInBox(cx, cy, cz, j);
    FlatOrders(cx, cy, IdxAt(cx, cy, i), IdxAt(cx, cy, j));
  }

  method SpawnWorkItems(cx: nat, cy: nat, cz: nat) returns (items: seq<Idx>)
    requires cx > 0 && cy > 0
    ensures items == Items(cx, cy, cz)
    ensures forall wi :: wi in items <==> InBox(cx, cy, cz, wi)
    ensures forall i, j :: 0 <= i < j < |items| ==> Precedes(items[i], items[j])
  {
    hide Flat, IdxAt, Precedes;
    items := [];
    FlatOfRows(cx, cy, 0, 0, 0);
    for z := 0 to cz
      invariant ItemsUpTo(cx, cy, items, Idx(0, 0, z))
    {
      for y := 0 to cy
        invariant ItemsUpTo(cx, cy, items, Idx(0, y, z))
      {
        for x := 0 to cx
          invariant ItemsUpTo(cx, cy, items, Idx(x, y, z))
        {
          AtFlat(cx, cy, Idx(x, y, z));
          FlatOfRows(cx, cy, x, y, z);
          items := items + [Idx(x, y, z)];
        }
        FlatOfRows(cx, cy, 0, y, z);
      }
      FlatOfRows(cx, cy, 0, 0, z);
    }
    FlatOfRows(cx, cy, 0, 0, cz);
    assert items == Items(cx, cy, cz);
    ItemsAreTheBox(cx, cy, cz);
    forall i, j | 0 <= i < j < |items| ensures Precedes(items[i], items[j]) {
      ItemsInOrder(cx, cy, cz, i, j);
    }
  }

  // The flattened numbers of the work-items ascend, also in a work-group that is cut off.
  ghost predicate Ascending(sx: nat, sy: nat, items: seq<Idx>) {
    forall i, j :: 0 <= i < j < |items| ==> Flat(sx, sy, items[i]) < Flat(sx, sy, items[j])
  }

  lemma AfterIsLater(sx: nat, sy: nat, cx: nat, cy: nat, i: Idx)
    requires 1 <= cx <= sx && 1 <= cy <= sy && i.x < cx && i.y < cy
    ensures Flat(sx, sy, i) < Flat(sx, sy, After(cx, cy, i))
  {
    var j := After(cx, cy, i);
    FlatByRows(sx, sy, i);
    FlatByRows(sx, sy, j);
    if i.x + 1 < cx {
    } else if i.y + 1 < cy {
      assert (i.z * sy + i.y + 1) * sx == (i.z * sy + i.y) * sx + sx;
    } else {
      assert (i.z + 1) * sy == i.z * sy + sy;
      MulLess(i.z * sy + i.y, (i.z + 1) * sy, sx);
    }
  }

  lemma {:induction false} ItemsAscend(sx: nat, sy: nat, cx: nat, cy: nat, f: nat, g: nat)
    requires 1 <= cx <= sx && 1 <= cy <= sy && f < g
    ensures Flat(sx, sy, IdxAt(cx, cy, f)) < Flat(sx, sy, IdxAt(cx, cy, g))
    decreases g
  {
    AfterIsNext(cx, cy, g - 1);
    AfterIsLater(sx, sy, cx, cy, IdxAt(cx, cy, g - 1));
    if f < g - 1 {
      ItemsAscend(sx, sy, cx, cy, f, g - 1);
    }
  }

  // ---------- wavefronts ----------

  ghost predicate StartsAtZero(sx: nat, sy: nat, items: seq<Idx>) {
    items != [] ==> Flat(sx, sy, items[0]) == 0
  }

  // A work-item whose number is a multiple of 64 opens a wavefront; any other one joins the
  // last wavefront.
  function Join(sx: nat, sy: nat, wfs: seq<Wavefront>, wi: Idx): seq<Wavefront>
    requires wfs == [] ==> Flat(sx, sy, wi) % LANES == 0
  {
    var id := Flat(sx, sy, wi);
    if id % LANES == 0 then wfs + [Wavefront(id, [wi], {0})]
    else
      var w := wfs[|wfs| - 1];
      wfs[|wfs| - 1 := Wavefront(w.first, w.items + [wi], w.mask + {id % LANES})]
  }

  ghost function Form(sx: nat, sy: nat, items: seq<Idx>): (wfs: seq<Wavefront>)
    requires StartsAtZero(sx, sy, items)
    ensures items != [] ==> wfs != []
  {
    if items == [] then [] else Join(sx, sy, Form(sx, sy, items[..|items| - 1]), items[|items| - 1])
  }

  method FormWavefronts(sx: nat, sy: nat, items: seq<Idx>) returns (wfs: seq<Wavefront>)
    requires StartsAtZero(sx, sy, items)
    ensures wfs == Form(sx, sy, items)
  {
    hide Flat, Join;
    wfs := [];
    for i := 0 to |items|
      invariant wfs == Form(sx, sy, items[..i])
    {
      assert items[..i + 1][..i] == items[..i];
      assert i == 0 ==> Flat(sx, sy, items[i]) % LANES == 0;
      wfs := Join(sx, sy, wfs, items[i]);
    }
    assert items[..|items|] == items;
  }

  ghost function AllItems(wfs: seq<Wavefront>): seq<Idx> {
    if wfs == [] then [] else AllItems(wfs[..|wfs| - 1]) + wfs[|wfs| - 1].items
  }

  lemma {:induction false} JoinItems(sx: nat, sy: nat, wfs: seq<Wavefront>, wi: Idx)
    requires wfs == [] ==> Flat(sx, sy, wi) % LANES == 0
    ensures AllItems(Join(sx, sy, wfs, wi)) == AllItems(wfs) + [wi]
  {
    hide Flat;
    var r := Join(sx, sy, wfs, wi);
    if Flat(sx, sy, wi) % LANES == 0 {
      assert r[..|r| - 1] == wfs;
    } else {
      assert r[..|r| - 1] == wfs[..|wfs| - 1];
    }
  }

  // Every work-item is in exactly one wavefront, whatever the sizes: the wavefronts one after
  // the other hold exactly the work-items.
  lemma {:induction false} EachInOneWavefront(sx: nat, sy: nat, items: seq<Idx>)
    requires StartsAtZero(sx, sy, items)
    ensures AllItems(Form(sx, sy, items)) == items
  {
    hide AllItems, Join, Flat;
    if items == [] {
      NoItems();
    } else {
      var init := items[..|items| - 1];
      EachInOneWavefront(sx, sy, init);
      JoinItems(sx, sy, Form(sx, sy, init), items[|items| - 1]);
      assert items == init + [items[|items| - 1]];
    }
  }

  lemma NoItems()
    ensures AllItems([]) == []
  {
  }

  lemma {:induction false} FindWavefront(wfs: seq<Wavefront>, wi: Idx) returns (k: nat)
    requires wi in AllItems(wfs)
    ensures k < |wfs| && wi in wfs[k].items
  {
    if wi in wfs[|wfs| - 1].items {
      k := |wfs| - 1;
    } else {
      k := FindWavefront(wfs[..|wfs| - 1], wi);
    }
  }

  lemma {:induction false} InAllItems(wfs: seq<Wavefront>, k: nat, wi: Idx)
    requires k < |wfs| && wi in wfs[k].items
    ensures wi in AllItems(wfs)
  {
    if k < |wfs| - 1 {
      InAllItems(wfs[..|wfs| - 1], k, wi);
    }
  }

  // The flattened number at which the 64-block of a work-item starts.
  function BlockStart(id: nat): nat {
    id / LANES * LANES
  }

  // A wavefront starts at its first work-item, and its mask has the lanes of its items.
  ghost predicate WellFormed(sx: nat, sy: nat, w: Wavefront) {
    && w.items != [] && Flat(sx, sy, w.items[0]) == w.first && w.first % LANES == 0
    && (forall l :: l in w.mask <==> exists d :: d in w.items && Flat(sx, sy, d) % LANES == l)
  }

  lemma {:induction false} FormIsWellFormed(sx: nat, sy: nat, items: seq<Idx>, k: nat)
    requires StartsAtZero(sx, sy, items) && k < |Form(sx, sy, items)|
    ensures WellFormed(sx, sy, Form(sx, sy, items)[k])
  {
    hide Flat;
    var init, wi := items[..|items| - 1], items[|items| - 1];
    var was := Form(sx, sy, init);
    if k < |was| {
      FormIsWellFormed(sx, sy, init, k);
      if Flat(sx, sy, wi) % LANES != 0 && k == |was| - 1 {
        MoreLanes(sx, sy, was[k], wi);
      }
    }
  }

  lemma MoreLanes(sx: nat, sy: nat, w: Wavefront, wi: Idx)
    requires WellFormed(sx, sy, w)
    ensures WellFormed(sx, sy, Wavefront(w.first, w.items + [wi], w.mask + {Flat(sx, sy, wi) % LANES}))
  {
    hide Flat;
    var r := Wavefront(w.first, w.items + [wi], w.mask + {Flat(sx, sy, wi) % LANES});
    forall l ensures l in r.mask <==> exists d :: d in r.items && Flat(sx, sy, d) % LANES == l {
      if l == Flat(sx, sy, wi) % LANES {
        assert wi in r.items;
      }
    }
  }

  // ---------- when the lanes are right ----------

  ghost predicate Occupied(sx: nat, sy: nat, items: seq<Idx>, id: nat) {
    exists j :: 0 <= j < |items| && Flat(sx, sy, items[j]) == id
  }

  // Every occupied 64-block has its first number occupied.
  ghost predicate BlocksStart(sx: nat, sy: nat, items: seq<Idx>) {
    forall i :: 0 <= i < |items| ==> Occupied(sx, sy, items, BlockStart(Flat(sx, sy, items[i])))
  }

  lemma InBlock(id: nat)
    ensures BlockStart(id) <= id < BlockStart(id) + LANES && BlockStart(id) % LANES == 0
    ensures id == BlockStart(id) + id % LANES
  {
  }

  lemma BlockOf(first: nat, lane: nat)
    requires first % LANES == 0 && lane < LANES
    ensures BlockStart(first + lane) == first && (first + lane) % LANES == lane
  {
  }

  // Every work-item is in the wavefront of its own block.
  ghost predicate InOwnBlock(sx: nat, sy: nat, w: Wavefront) {
    forall d :: d in w.items ==> w.first == BlockStart(Flat(sx, sy, d))
  }

  lemma EarlierOccupied(sx: nat, sy: nat, items: seq<Idx>, n: nat, i: nat, id: nat)
    requires Ascending(sx, sy, items) && i < n <= |items| && id <= Flat(sx, sy, items[i]) && Occupied(sx, sy, items, id)
    ensures Occupied(sx, sy, items[..n], id)
  {
    hide Flat;
    var j :| 0 <= j < |items| && Flat(sx, sy, items[j]) == id;
    assert items[..n][j] == items[j];
  }

  lemma PrefixBlocks(sx: nat, sy: nat, items: seq<Idx>, n: nat)
    requires Ascending(sx, sy, items) && BlocksStart(sx, sy, items) && n <= |items|
    ensures BlocksStart(sx, sy, items[..n])
  {
    hide Flat, Occupied, BlockStart, Ascending;
    forall i | 0 <= i < n ensures Occupied(sx, sy, items[..n], BlockStart(Flat(sx, sy, items[..n][i]))) {
      assert items[..n][i] == items[i];
      InBlock(Flat(sx, sy, items[i]));
      EarlierOccupied(sx, sy, items, n, i, BlockStart(Flat(sx, sy, items[i])));
    }
  }

  // The last wavefront is that of the last multiple of 64.
  lemma {:induction false} LastBlock(sx: nat, sy: nat, items: seq<Idx>, j: nat)
    requires StartsAtZero(sx, sy, items) && Ascending(sx, sy, items) && j < |items|
    requires Flat(sx, sy, items[j]) % LANES == 0
    requires Flat(sx, sy, items[|items| - 1]) < Flat(sx, sy, items[j]) + LANES
    ensures var wfs := Form(sx, sy, items); wfs[|wfs| - 1].first == Flat(sx, sy, items[j])
  {
    hide Flat, Form;
    var n := |items|;
    var init := items[..n - 1];
    FormLast(sx, sy, items);
    if j < n - 1 {
      assert Flat(sx, sy, items[j]) < Flat(sx, sy, items[n - 1]);
      assert Flat(sx, sy, init[|init| - 1]) <= Flat(sx, sy, items[n - 1]);
      LastBlock(sx, sy, init, j);
    }
  }

  lemma FormLast(sx: nat, sy: nat, items: seq<Idx>)
    requires StartsAtZero(sx, sy, items) && items != []
    ensures Form(sx, sy, items) == Join(sx, sy, Form(sx, sy, items[..|items| - 1]), items[|items| - 1])
  {
    hide Flat, Join;
  }

  lemma {:induction false} GoodIsPlaced(sx: nat, sy: nat, items: seq<Idx>, k: nat)
    requires StartsAtZero(sx, sy, items) && Ascending(sx, sy, items) && BlocksStart(sx, sy, items)
    requires k < |Form(sx, sy, items)|
    ensures InOwnBlock(sx, sy, Form(sx, sy, items)[k])
  {
    hide Flat, BlocksStart;
    var n := |items|;
    var init, wi := items[..n - 1], items[n - 1];
    var was := Form(sx, sy, init);
    PrefixBlocks(sx, sy, items, n - 1);
    if k < |was| {
      GoodIsPlaced(sx, sy, init, k);
    }
    if Flat(sx, sy, wi) % LANES != 0 {
      LastIsPlaced(sx, sy, items);
    }
  }

  lemma LastIsPlaced(sx: nat, sy: nat, items: seq<Idx>)
    requires StartsAtZero(sx, sy, items) && Ascending(sx, sy, items) && BlocksStart(sx, sy, items) && items != []
    ensures var wfs := Form(sx, sy, items);
            wfs[|wfs| - 1].first == BlockStart(Flat(sx, sy, items[|items| - 1]))
  {
    hide Flat, BlockStart, Form, StartsAtZero;
    var id := Flat(sx, sy, items[|items| - 1]);
    assert Occupied(sx, sy, items, BlockStart(id));
    var j :| 0 <= j < |items| && Flat(sx, sy, items[j]) == BlockStart(id);
    InBlock(id);
    LastBlock(sx, sy, items, j);
  }

  ghost predicate AllInOwnBlocks(sx: nat, sy: nat, wfs: seq<Wavefront>) {
    forall k :: 0 <= k < |wfs| ==> InOwnBlock(sx, sy, wfs[k])
  }

  // All work-items are in the wavefronts of their own blocks if and only if every occupied
  // block has its first number occupied.
  lemma PlacedIffBlocksStart(sx: nat, sy: nat, items: seq<Idx>)
    requires StartsAtZero(sx, sy, items) && Ascending(sx, sy, items)
    ensures AllInOwnBlocks(sx, sy, Form(sx, sy, items)) <==> BlocksStart(sx, sy, items)
  {
    hide Flat, Form, BlocksStart, InOwnBlock, StartsAtZero, Ascending;
    if BlocksStart(sx, sy, items) {
      forall k | 0 <= k < |Form(sx, sy, items)| ensures InOwnBlock(sx, sy, Form(sx, sy, items)[k]) {
        GoodIsPlaced(sx, sy, items, k);
      }
    } else if AllInOwnBlocks(sx, sy, Form(sx, sy, items)) {
      PlacedHasStarts(sx, sy, items);
    }
  }

  lemma FirstOccupied(sx: nat, sy: nat, items: seq<Idx>, k: nat)
    requires StartsAtZero(sx, sy, items) && k < |Form(sx, sy, items)|
    ensures Occupied(sx, sy, items, Form(sx, sy, items)[k].first)
  {
    hide Flat, Form, StartsAtZero;
    var wfs := Form(sx, sy, items);
    FormIsWellFormed(sx, sy, items, k);
    EachInOneWavefront(sx, sy, items);
    InAllItems(wfs, k, wfs[k].items[0]);
    var j :| 0 <= j < |items| && items[j] == wfs[k].items[0];
  }

  lemma PlacedHasStarts(sx: nat, sy: nat, items: seq<Idx>)
    requires StartsAtZero(sx, sy, items)
    requires AllInOwnBlocks(sx, sy, Form(sx, sy, items))
    ensures BlocksStart(sx, sy, items)
  {
    hide Flat, Form, StartsAtZero, BlockStart, Occupied;
    EachInOneWavefront(sx, sy, items);
    forall i | 0 <= i < |items| ensures Occupied(sx, sy, items, BlockStart(Flat(sx, sy, items[i]))) {
      var k := FindWavefront(Form(sx, sy, items), items[i]);
      FirstOccupied(sx, sy, items, k);
      assert InOwnBlock(sx, sy, Form(sx, sy, items)[k]);
    }
  }

  // The lanes in the mask of a wavefront whose items are all of its own block.
  lemma MaskMeans(sx: nat, sy: nat, w: Wavefront, lane: nat)
    requires WellFormed(sx, sy, w) && InOwnBlock(sx, sy, w) && lane < LANES
    ensures lane in w.mask <==> exists d :: d in w.items && Flat(sx, sy, d) == w.first + lane
  {
    hide Flat, BlockStart;
    BlockOf(w.first, lane);
    forall d | d in w.items ensures Flat(sx, sy, d) == w.first + Flat(sx, sy, d) % LANES {
      InBlock(Flat(sx, sy, d));
    }
  }

  // Then bit i of a wavefront's mask is set exactly when the work-item i after its first one
  // exists, and that work-item is in this wavefront.
  lemma MaskIsExact(sx: nat, sy: nat, items: seq<Idx>, k: nat, lane: nat)
    requires StartsAtZero(sx, sy, items) && Ascending(sx, sy, items) && BlocksStart(sx, sy, items)
    requires k < |Form(sx, sy, items)| && lane < LANES
    ensures var w := Form(sx, sy, items)[k];
            && (lane in w.mask <==> exists wi :: wi in items && Flat(sx, sy, wi) == w.first + lane)
            && (forall wi :: wi in items && Flat(sx, sy, wi) == w.first + lane ==> wi in w.items)
  {
    hide Flat, Form, StartsAtZero, BlockStart, Ascending, BlocksStart;
    var wfs := Form(sx, sy, items);
    var w := wfs[k];
    FormIsWellFormed(sx, sy, items, k);
    GoodIsPlaced(sx, sy, items, k);
    EachInOneWavefront(sx, sy, items);
    MaskMeans(sx, sy, w, lane);
    BlockOf(w.first, lane);
    hide WellFormed, InOwnBlock;
    forall wi | wi in items && Flat(sx, sy, wi) == w.first + lane ensures wi in w.items {
      OwnWavefront(sx, sy, items, k, wi);
    }
    forall d | d in w.items ensures d in items {
      InAllItems(wfs, k, d);
    }
  }

  lemma OwnWavefront(sx: nat, sy: nat, items: seq<Idx>, k: nat, wi: Idx)
    requires StartsAtZero(sx, sy, items) && Ascending(sx, sy, items) && BlocksStart(sx, sy, items)
    requires k < |Form(sx, sy, items)| && wi in items
    requires BlockStart(Flat(sx, sy, wi)) == Form(sx, sy, items)[k].first
    ensures wi in Form(sx, sy, items)[k].items
  {
    hide Flat, Form, StartsAtZero, BlockStart, Ascending, BlocksStart;
    var wfs := Form(sx, sy, items);
    EachInOneWavefront(sx, sy, items);
    var j := FindWavefront(wfs, wi);
    GoodIsPlaced(sx, sy, items, j);
    if j < k {
      FirstsAscend(sx, sy, items, j, k);
    } else if k < j {
      FirstsAscend(sx, sy, items, k, j);
    }
  }

  lemma {:induction false} FirstsAscend(sx: nat, sy: nat, items: seq<Idx>, j: nat, k: nat)
    requires StartsAtZero(sx, sy, items) && Ascending(sx, sy, items)
    requires j < k < |Form(sx, sy, items)|
    ensures Form(sx, sy, items)[j].first < Form(sx, sy, items)[k].first
  {
    hide Flat;
    var init, wi := items[..|items| - 1], items[|items| - 1];
    var was := Form(sx, sy, init);
    if k < |was| {
      FirstsAscend(sx, sy, init, j, k);
    } else {
      FormIsWellFormed(sx, sy, init, j);
      EachInOneWavefront(sx, sy, init);
      InAllItems(was, j, was[j].items[0]);
      var i :| 0 <= i < |init| && init[i] == was[j].items[0];
      assert Flat(sx, sy, items[i]) < Flat(sx, sy, wi);
    }
  }

  // ---------- which work-groups have all blocks started ----------

  lemma ItemsStart(sx: nat, sy: nat, cx: nat, cy: nat, cz: nat)
    requires ValidSizes(sx, sy, cx, cy, cz)
    ensures StartsAtZero(sx, sy, Items(cx, cy, cz)) && Ascending(sx, sy, Items(cx, cy, cz))
  {
    var items := Items(cx, cy, cz);
    forall i, j | 0 <= i < j < |items| ensures Flat(sx, sy, items[i]) < Flat(sx, sy, items[j]) {
      ItemsAscend(sx, sy, cx, cy, i, j);
    }
    FlatOfRows(cx, cy, 0, 0, 0);
    AtFlat(cx, cy, Idx(0, 0, 0));
    FlatOfRows(sx, sy, 0, 0, 0);
  }

  // A work-group that is full in x and y numbers its items without gaps.
  lemma FullGroupsAreGood(sx: nat, sy: nat, cz: nat)
    requires ValidSizes(sx, sy, sx, sy, cz)
    ensures BlocksStart(sx, sy, Items(sx, sy, cz))
  {
    var items := Items(sx, sy, cz);
    forall i | 0 <= i < |items| ensures Flat(sx, sy, items[i]) == i {
      FlatAt(sx, sy, i);
    }
    hide Flat, IdxAt, Items, BlockStart;
    forall i | 0 <= i < |items| ensures Occupied(sx, sy, items, BlockStart(Flat(sx, sy, items[i]))) {
      InBlock(i);
      assert Flat(sx, sy, items[BlockStart(i)]) == BlockStart(i);
    }
  }

  // A work-group of 100 x 2 cut off after 50 columns: its item (0, 1) has number 100, but
  // nobody has number 64, so it ends up in the wavefront that starts at 0.
  lemma CutGroupIsNot()
    ensures ValidSizes(100, 2, 50, 2, 1) && !BlocksStart(100, 2, Items(50, 2, 1))
  {
    Item50();
    ItemsAreTheBox(50, 2, 1);
    hide Items, Flat;
    var items := Items(50, 2, 1);
    assert BlockStart(100) == 64;
    assert Flat(100, 2, Idx(0, 1, 0)) == 100 by {
      FlatByRows(100, 2, Idx(0, 1, 0));
    }
    forall j | 0 <= j < |items| ensures Flat(100, 2, items[j]) != 64 {
      assert items[j] in items;
      Not64(items[j]);
    }
    assert !Occupied(100, 2, items, 64);
  }

  lemma Item50()
    ensures |Items(50, 2, 1)| == 100 && Items(50, 2, 1)[50] == Idx(0, 1, 0)
  {
  }

  lemma Not64(i: Idx)
    requires i.x < 50 && i.z == 0
    ensures Flat(100, 2, i) != 64
  {
  }

  // ---------- the way back ----------

  // The position that the compute unit computes for a flattened number.
  function Decode(sx: nat, sy: nat, f: nat): Idx
    requires sx > 0 && sy > 0
  {
    assert sx * sy > 0;
    Idx(f % (sx * sy) % sx, f % (sx * sy) / sx, f / (sx * sy))
  }

  lemma DecodeFlat(sx: nat, sy: nat, i: Idx)
    requires i.x < sx && i.y < sy
    ensures Decode(sx, sy, Flat(sx, sy, i)) == i
  {
    hide Flat;
    var rest := i.y * sx + i.x;
    FlatByLayers(sx, sy, i);
    MulLess(i.y, sy, sx);
    assert rest < sx * sy;
    DivMod(i.z, rest, sx * sy);
    DivMod(i.y, i.x, sx);
  }

  lemma FlatByLayers(sx: nat, sy: nat, i: Idx)
    ensures Flat(sx, sy, i) == i.z * (sx * sy) + (i.y * sx + i.x)
  {
    assert i.z * sx * sy == i.z * (sx * sy);
  }

  lemma LaneDecodes(sx: nat, sy: nat, items: seq<Idx>, k: nat, lane: nat)
    requires StartsAtZero(sx, sy, items) && Ascending(sx, sy, items) && BlocksStart(sx, sy, items) && sx > 0 && sy > 0
    requires forall wi :: wi in items ==> wi.x < sx && wi.y < sy
    requires k < |Form(sx, sy, items)| && lane < LANES
    ensures var w := Form(sx, sy, items)[k];
            && (lane in w.mask <==> Decode(sx, sy, w.first + lane) in items)
            && (lane in w.mask ==> Decode(sx, sy, w.first + lane) in w.items)
  {
    hide Flat, Form, Decode, BlocksStart, Ascending, StartsAtZero;
    var w := Form(sx, sy, items)[k];
    MaskIsExact(sx, sy, items, k, lane);
    FlatDecode(sx, sy, w.first + lane);
    forall wi | wi in items && Flat(sx, sy, wi) == w.first + lane ensures Decode(sx, sy, w.first + lane) == wi {
      DecodeFlat(sx, sy, wi);
    }
  }

  // If every occupied block is started, a lane set in a wavefront's mask decodes to the
  // position of the one work-item with that number, which is in that wavefront.
  lemma LanesDecode(sx: nat, sy: nat, cx: nat, cy: nat, cz: nat, k: nat, lane: nat)
    requires ValidSizes(sx, sy, cx, cy, cz) && BlocksStart(sx, sy, Items(cx, cy, cz)) && lane < LANES
    ensures StartsAtZero(sx, sy, Items(cx, cy, cz))
    ensures k < |Form(sx, sy, Items(cx, cy, cz))| ==>
      var w := Form(sx, sy, Items(cx, cy, cz))[k];
      && (lane in w.mask <==> Decode(sx, sy, w.first + lane) in Items(cx, cy, cz))
      && (lane in w.mask ==> Decode(sx, sy, w.first + lane) in w.items)
  {
    hide Flat, Form, Decode, BlocksStart, Ascending, StartsAtZero, Items;
    ItemsStart(sx, sy, cx, cy, cz);
    ItemsAreTheBox(cx, cy, cz);
    if k < |Form(sx, sy, Items(cx, cy, cz))| {
      LaneDecodes(sx, sy, Items(cx, cy, cz), k, lane);
    }
  }

  // Lane `lane` of wavefront k is switched on and computes the position of the work-item.
  ghost predicate DecodedAt(sx: nat, sy: nat, wfs: seq<Wavefront>, wi: Idx, k: nat, lane: nat)
    requires sx > 0 && sy > 0
  {
    k < |wfs| && lane in wfs[k].mask && Decode(sx, sy, wfs[k].first + lane) == wi
  }

  ghost predicate Decoded(sx: nat, sy: nat, wfs: seq<Wavefront>, wi: Idx)
    requires sx > 0 && sy > 0
  {
    exists k, lane :: DecodedAt(sx, sy, wfs, wi, k, lane)
  }

  // The way there and back: every work-item is the position that some lane computes, if and
  // only if every occupied block is started.
  lemma EveryItemDecodedIff(sx: nat, sy: nat, cx: nat, cy: nat, cz: nat)
    requires ValidSizes(sx, sy, cx, cy, cz)
    ensures StartsAtZero(sx, sy, Items(cx, cy, cz))
    ensures (forall wi :: wi in Items(cx, cy, cz) ==> Decoded(sx, sy, Form(sx, sy, Items(cx, cy, cz)), wi)) <==>
            BlocksStart(sx, sy, Items(cx, cy, cz))
  {
    hide Flat, Form, Decode, BlockStart, Ascending, StartsAtZero, Items, Occupied, Decoded;
    var items := Items(cx, cy, cz);
    ItemsStart(sx, sy, cx, cy, cz);
    ItemsAreTheBox(cx, cy, cz);
    var wfs := Form(sx, sy, items);
    if BlocksStart(sx, sy, items) {
      forall wi | wi in items ensures Decoded(sx, sy, wfs, wi) {
        StartedIsDecoded(sx, sy, items, wi);
      }
    } else if forall wi :: wi in items ==> Decoded(sx, sy, wfs, wi) {
      forall i | 0 <= i < |items| ensures Occupied(sx, sy, items, BlockStart(Flat(sx, sy, items[i]))) {
        DecodedIsStarted(sx, sy, items, items[i]);
      }
    }
  }

  lemma StartedIsDecoded(sx: nat, sy: nat, items: seq<Idx>, wi: Idx)
    requires StartsAtZero(sx, sy, items) && Ascending(sx, sy, items) && BlocksStart(sx, sy, items)
    requires wi in items && wi.x < sx && wi.y < sy
    ensures Decoded(sx, sy, Form(sx, sy, items), wi)
  {
    hide Flat, Form, Decode, BlocksStart, BlockStart, Ascending, StartsAtZero;
    EachInOneWavefront(sx, sy, items);
    var k := FindWavefront(Form(sx, sy, items), wi);
    FormIsWellFormed(sx, sy, items, k);
    GoodIsPlaced(sx, sy, items, k);
    InBlock(Flat(sx, sy, wi));
    DecodeFlat(sx, sy, wi);
    assert DecodedAt(sx, sy, Form(sx, sy, items), wi, k, Flat(sx, sy, wi) % LANES);
  }

  lemma DecodedIsStarted(sx: nat, sy: nat, items: seq<Idx>, wi: Idx)
    requires StartsAtZero(sx, sy, items) && sx > 0 && sy > 0 && Decoded(sx, sy, Form(sx, sy, items), wi)
    ensures Occupied(sx, sy, items, BlockStart(Flat(sx, sy, wi)))
  {
    hide Flat, Form, Decode, BlockStart, StartsAtZero, Occupied;
    var k: nat, lane: nat :| DecodedAt(sx, sy, Form(sx, sy, items), wi, k, lane);
    FormIsWellFormed(sx, sy, items, k);
    FlatDecode(sx, sy, Form(sx, sy, items)[k].first + lane);
    BlockOf(Form(sx, sy, items)[k].first, lane);
    FirstOccupied(sx, sy, items, k);
  }

  lemma FlatDecode(sx: nat, sy: nat, f: nat)
    requires sx > 0 && sy > 0
    ensures Flat(sx, sy, Decode(sx, sy, f)) == f
  {
    assert sx * sy > 0;
    var q, r := f / (sx * sy), f % (sx * sy);
    assert f == q * (sx * sy) + r;
    assert q * (sx * sy) == q * sx * sy;
    assert r == r / sx * sx + r % sx;
  }

  // Writing the positions into the registers of all lanes; y and z only if enabled.
  method InitWorkItemIDs(sx: nat, sy: nat, first: nat, enabled: nat, v0: array<nat>, v1: array<nat>, v2: array<nat>)
    requires sx > 0 && sy > 0 && v0.Length == v1.Length == v2.Length == LANES
    requires v0 != v1 && v0 != v2 && v1 != v2
    modifies v0, v1, v2
    ensures forall lane :: 0 <= lane < LANES ==> v0[lane] == Decode(sx, sy, first + lane).x
    ensures forall lane :: 0 <= lane < LANES ==>
              v1[lane] == if enabled > 0 then Decode(sx, sy, first + lane).y else old(v1[lane])
    ensures forall lane :: 0 <= lane < LANES ==>
              v2[lane] == if enabled > 1 then Decode(sx, sy, first + lane).z else old(v2[lane])
  {
    hide Decode;
    for i := first to first + LANES
      invariant forall lane :: 0 <= lane < i - first ==> v0[lane] == Decode(sx, sy, first + lane).x
      invariant forall lane :: 0 <= lane < LANES ==>
                  v1[lane] == if enabled > 0 && lane < i - first then Decode(sx, sy, first + lane).y else old(v1[lane])
      invariant forall lane :: 0 <= lane < LANES ==>
                  v2[lane] == if enabled > 1 && lane < i - first then Decode(sx, sy, first + lane).z else old(v2[lane])
    {
      var at := Decode(sx, sy, i);
      var laneID := i - first;
      assert first + laneID == i;
      v0[laneID] := at.x;
      if enabled > 0 {
        v1[laneID] := at.y;
      }
      if enabled > 1 {
        v2[laneID] := at.z;
      }
    }
  }
}

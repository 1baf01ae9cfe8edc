// Positions in a box and their flattened numbers, x fastest.
module MixedRadix {

  datatype Idx = Idx(x: nat, y: nat, z: nat)

  ghost predicate InBox(nx: nat, ny: nat, nz: nat, i: Idx) {
    i.x < nx && i.y < ny && i.z < nz
  }

  // The flattened number of a position, for rows of nx and planes of nx * ny.
  function Flat(nx: nat, ny: nat, i: Idx): nat {
    i.z * nx * ny + i.y * nx + i.x
  }

  function IdxAt(nx: nat, ny: nat, f: nat): Idx
    requires nx > 0 && ny > 0
  {
    Idx(f % nx, f / nx % ny, f / nx / ny)
  }

  lemma MulLess(a: nat, b: nat, c: nat)
    requires a < b && c > 0
    ensures a * c + c <= b * c
  {
    var d := b - a - 1;
    assert (a + 1 + d) * c == a * c + c + d * c;
  }

  lemma MulMonotone(a: nat, b: nat, c: nat)
    requires a <= b
    ensures a * c <= b * c
  {
    assert b * c == a * c + (b - a) * c;
  }

  lemma DivMod(q: nat, r: nat, d: nat)
    requires r < d
    ensures (q * d + r) / d == q && (q * d + r) % d == r
  {
    var a := q * d + r;
    if a / d < q {
      MulLess(a / d, q, d);
    } else if a / d > q {
      MulLess(q, a / d, d);
    }
  }

  lemma FlatByRows(nx: nat, ny: nat, i: Idx)
    ensures Flat(nx, ny, i) == (i.z * ny + i.y) * nx + i.x
  {
    assert i.z * nx * ny == i.z * ny * nx;
  }

  // Flattening keeps a position inside its box ...
  lemma FlatInBox(nx: nat, ny: nat, nz: nat, i: Idx)
    requires InBox(nx, ny, nz, i)
    ensures Flat(nx, ny, i) < nx * ny * nz
  {
    FlatByRows(nx, ny, i);
    MulLess(i.z, nz, ny);
    MulLess(i.z * ny + i.y, nz * ny, nx);
    assert nz * ny * nx == nx * ny * nz;
  }

  // ... and is undone by taking it apart,
  lemma AtFlat(nx: nat, ny: nat, i: Idx)
    requires i.x < nx && i.y < ny
    ensures IdxAt(nx, ny, Flat(nx, ny, i)) == i
  {
    FlatByRows(nx, ny, i);
    DivMod(i.z * ny + i.y, i.x, nx);
    DivMod(i.z, i.y, ny);
  }

  // in both directions.
  lemma FlatAt(nx: nat, ny: nat, f: nat)
    requires nx > 0 && ny > 0
    ensures Flat(nx, ny, IdxAt(nx, ny, f)) == f
  {
    FlatByRows(nx, ny, IdxAt(nx, ny, f));
  }

  lemma FlatOutside(nx: nat, ny: nat, nz: nat, i: Idx)
    requires nz <= i.z
    ensures nx * ny * nz <= Flat(nx, ny, i)
  {
    var d := i.z - nz;
    assert (nz + d) * nx * ny == nz * nx * ny + d * nx * ny;
    assert nx * ny * nz == nz * nx * ny;
  }

  lemma AtInBox(nx: nat, ny: nat, nz: nat, f: nat)
    requires nx > 0 && ny > 0 && f < nx * ny * nz
    ensures InBox(nx, ny, nz, IdxAt(nx, ny, f))
  {
    FlatAt(nx, ny, f);
    if nz <= IdxAt(nx, ny, f).z {
      FlatOutside(nx, ny, nz, IdxAt(nx, ny, f));
    }
  }

  // One position comes before another: layer by layer, in a layer row by row.
  predicate Precedes(a: Idx, b: Idx) {
    a.z < b.z || (a.z == b.z && (a.y < b.y || (a.y == b.y && a.x < b.x)))
  }

  // That is the order of the flattened numbers.
  lemma FlatOrders(nx: nat, ny: nat, a: Idx, b: Idx)
    requires a.x < nx && a.y < ny && b.x < nx && b.y < ny
    ensures Flat(nx, ny, a) < Flat(nx, ny, b) <==> Precedes(a, b)
  {
    if Precedes(a, b) {
      BeforeIsLess(nx, ny, a, b);
    } else if a != b {
      BeforeIsLess(nx, ny, b, a);
    }
  }

  lemma BeforeIsLess(nx: nat, ny: nat, a: Idx, b: Idx)
    requires a.x < nx && a.y < ny && b.x < nx && b.y < ny && Precedes(a, b)
    ensures Flat(nx, ny, a) < Flat(nx, ny, b)
  {
    FlatByRows(nx, ny, a);
    FlatByRows(nx, ny, b);
    if a.z < b.z {
      MulLess(a.z, b.z, ny);
    }
    if a.z < b.z || a.y < b.y {
      MulLess(a.z * ny + a.y, b.z * ny + b.y, nx);
    }
  }

  // The position after a position, in the order of the flattened numbers.
  function After(nx: nat, ny: nat, i: Idx): Idx {
    if i.x + 1 < nx then Idx(i.x + 1, i.y, i.z)
    else if i.y + 1 < ny then Idx(0, i.y + 1, i.z)
    else Idx(0, 0, i.z + 1)
  }

  lemma AfterIsNext(nx: nat, ny: nat, f: nat)
    requires nx > 0 && ny > 0
    ensures After(nx, ny, IdxAt(nx, ny, f)) == IdxAt(nx, ny, f + 1)
  {
    var i := IdxAt(nx, ny, f);
    var j := After(nx, ny, i);
    FlatAt(nx, ny, f);
    FlatByRows(nx, ny, i);
    FlatByRows(nx, ny, j);
    if i.x + 1 < nx {
    } else if i.y + 1 < ny {
      assert (i.z * ny + i.y + 1) * nx == (i.z * ny + i.y) * nx + nx;
    } else {
      assert (i.z + 1) * ny == i.z * ny + i.y + 1;
      assert (i.z * ny + i.y + 1) * nx == (i.z * ny + i.y) * nx + nx;
    }
    assert Flat(nx, ny, j) == f + 1;
    AtFlat(nx, ny, j);
  }
}

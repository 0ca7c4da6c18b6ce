/** RegionMergeUtils.hpp: the earlier box compressor. Cells are keyed by a
    packed encoding relative to the scanned bounds; from each seed, six axis
    orders are tried and the first candidate of largest volume is emitted;
    its cells are then removed by one of three strategies. */
module RegionMergeSix {
  import opened LittleEndian
  import opened Structs
  import opened RegionMerge
  import opened Bits

  // ---------------------------------------------------------------------------
  // CoordRange

  datatype CoordRange = CoordRange(xMin: int, xMax: int, yMin: int, yMax: int, zMin: int, zMax: int,
                                   xBits: nat, yBits: nat, zBits: nat)
  {
    /** Every coordinate lies within the scanned bounds. */
    predicate Contains(x: int, y: int, z: int) {
      xMin <= x <= xMax && yMin <= y <= yMax && zMin <= z <= zMax
    }
  }

  /** `CoordRange::init`: the bounds, and the bits for each axis extent. */
  function InitRange(xm: int, xM: int, ym: int, yM: int, zm: int, zM: int): (r: CoordRange)
    ensures xm <= xM ==> Pow2(r.xBits) >= xM - xm + 1
    ensures ym <= yM ==> Pow2(r.yBits) >= yM - ym + 1
    ensures zm <= zM ==> Pow2(r.zBits) >= zM - zm + 1
  {
    CoordRange(xm, xM, ym, yM, zm, zM, CeilLog2(xM - xm + 1), CeilLog2(yM - ym + 1), CeilLog2(zM - zm + 1))
  }

  /** `encode`: each offset masked to its axis's bits, laid out x | y | z from
      the high end. The fields occupy disjoint bits, so `|` is `+`. */
  function Encode(r: CoordRange, x: Coord, y: Coord, z: Coord): nat {
    ((x - r.xMin) % Pow2(r.xBits)) * (Pow2(r.yBits) * Pow2(r.zBits))
      + ((y - r.yMin) % Pow2(r.yBits)) * Pow2(r.zBits)
      + (z - r.zMin) % Pow2(r.zBits)
  }

  /** `decode`: each field is stored into a Coord, then the bound is added and
      the sum stored into a Coord again; both stores wrap at 16 bits. */
  function Decode(r: CoordRange, key: nat): (Coord, Coord, Coord) {
    var z := WrapI16(key % Pow2(r.zBits));
    var y := WrapI16((key / Pow2(r.zBits)) % Pow2(r.yBits));
    var x := WrapI16((key / (Pow2(r.yBits) * Pow2(r.zBits))) % Pow2(r.xBits));
    (WrapI16(x + r.xMin), WrapI16(y + r.yMin), WrapI16(z + r.zMin))
  }

  /** Storing an offset, then the offset plus its bound, into 16 bits gives the
      coordinate back. */
  lemma {:induction false} WrapBack(o: nat, m: int, c: Coord)
    requires c == o + m
    ensures WrapI16(WrapI16(o) + m) == c
  {
    var w := WrapI16(o);
    assert (w - o) % 0x1_0000 == 0;
    var v := WrapI16(w + m);
    assert (v - (w + m)) % 0x1_0000 == 0;
    assert (v - c) % 0x1_0000 == 0 by {
      assert v - c == (v - (w + m)) + (w - o);
    }
  }

  lemma {:induction false} MulMono(a: nat, b: nat, d: nat)
    requires a <= b
    ensures a * d <= b * d
  {
    assert b * d == a * d + (b - a) * d;
  }

  lemma {:induction false} MulStep(a: nat, b: nat, d: nat)
    ensures a < b ==> a * d + d <= b * d
  {
    if a < b {
      MulMono(a + 1, b, d);
      assert (a + 1) * d == a * d + d;
    }
  }

  /** Quotient and remainder are unique. */
  lemma {:induction false} DivModUnique(q: nat, m: nat, d: nat)
    requires m < d
    ensures (q * d + m) / d == q && (q * d + m) % d == m
  {
    var k := q * d + m;
    var q', m' := k / d, k % d;
    assert k == q' * d + m';
    MulStep(q', q, d);
    MulStep(q, q', d);
  }

  lemma {:induction false} DivMod3(a: nat, b: nat, c: nat, X: nat, Y: nat, Z: nat)
    requires a < X && b < Y && c < Z
    ensures var key := a * (Y * Z) + b * Z + c;
      key % Z == c && (key / Z) % Y == b && (key / (Y * Z)) % X == a
  {
    var key := a * (Y * Z) + b * Z + c;
    assert a * (Y * Z) == (a * Y) * Z;
    assert (a * Y) * Z + b * Z == (a * Y + b) * Z;
    DivModUnique(a * Y + b, c, Z);
    DivModUnique(a, b, Y);
    MulMono(b, Y - 1, Z);
    assert (Y - 1) * Z + Z == Y * Z;
    DivModUnique(a, b * Z + c, Y * Z);
    DivModUnique(0, a, X);
  }

  /** Within the scanned bounds, decoding an encoded cell gives the cell back,
      so distinct cells have distinct keys. */
  lemma {:induction false} DecodeEncode(r: CoordRange, x: Coord, y: Coord, z: Coord)
    requires r.Contains(x, y, z)
    requires Pow2(r.xBits) >= r.xMax - r.xMin + 1
    requires Pow2(r.yBits) >= r.yMax - r.yMin + 1
    requires Pow2(r.zBits) >= r.zMax - r.zMin + 1
    ensures Decode(r, Encode(r, x, y, z)) == (x, y, z)
  {
    var X, Y, Z := Pow2(r.xBits), Pow2(r.yBits), Pow2(r.zBits);
    var a, b, c: nat := x - r.xMin, y - r.yMin, z - r.zMin;
    DivModUnique(0, a, X);
    DivModUnique(0, b, Y);
    DivModUnique(0, c, Z);
    var key := Encode(r, x, y, z);
    assert key == a * (Y * Z) + b * Z + c;
    DivMod3(a, b, c, X, Y, Z);
    WrapBack(a, r.xMin, x);
    WrapBack(b, r.yMin, y);
    WrapBack(c, r.zMin, z);
  }

  lemma {:induction false} EncodeInjective(r: CoordRange, x: Coord, y: Coord, z: Coord, x': Coord, y': Coord, z': Coord)
    requires r.Contains(x, y, z) && r.Contains(x', y', z')
    requires Pow2(r.xBits) >= r.xMax - r.xMin + 1
    requires Pow2(r.yBits) >= r.yMax - r.yMin + 1
    requires Pow2(r.zBits) >= r.zMax - r.zMin + 1
    requires Encode(r, x, y, z) == Encode(r, x', y', z')
    ensures (x, y, z) == (x', y', z')
  {
    DecodeEncode(r, x, y, z);
    DecodeEncode(r, x', y', z');
  }

  /** The key set a grid is built into. */
  function EncodeAll(r: CoordRange, cells: set<Cell>): (keys: set<nat>)
    requires forall c :: c in cells ==> -0x8000 <= c.0 < 0x8000 && -0x8000 <= c.1 < 0x8000 && -0x8000 <= c.2 < 0x8000
    ensures forall c :: c in cells ==> Encode(r, c.0, c.1, c.2) in keys
  {
    set c | c in cells :: Encode(r, c.0, c.1, c.2)
  }

  /** `has` as written: the encoded key is looked up with no bounds test. */
  function HasAsWritten(r: CoordRange, keys: set<nat>, x: Coord, y: Coord, z: Coord): bool {
    Encode(r, x, y, z) in keys
  }

  /** Two cells in a row along x: the x extent is 2, one bit, and the other
      extents are 1, no bits. */
  const RowCells: set<Cell> := {(0, 0, 0), (1, 0, 0)}
  const RowRange := CoordRange(0, 1, 0, 0, 0, 0, 1, 0, 0)

  lemma {:induction false} RowRangeIsScanned()
    ensures InitRange(0, 1, 0, 0, 0, 0) == RowRange
  {
    assert CeilLog2(2) == 1 + CeilLog2(1) == 1;
  }

  lemma {:induction false} EncodeRow(n: Coord)
    requires n >= 0
    ensures Encode(RowRange, n, 0, 0) == n % 2
  {
    var r := RowRange;
    assert Pow2(1) == 2 && Pow2(0) == 1;
    assert (0 - r.yMin) % Pow2(r.yBits) == 0 && (0 - r.zMin) % Pow2(r.zBits) == 0;
    assert Encode(r, n, 0, 0) == ((n - 0) % 2) * (1 * 1) + 0 * 1 + 0;
  }

  /** Past the row's end the key of x wraps to x mod 2, so every x along the
      row is reported present, and `expandX` from (0, 0, 0) never meets an
      absent face. */
  lemma {:induction false} HasAsWrittenAliases(n: Coord)
    requires n >= 0
    ensures InitRange(0, 1, 0, 0, 0, 0) == RowRange
    ensures HasAsWritten(RowRange, EncodeAll(RowRange, RowCells), n, 0, 0)
  {
    RowRangeIsScanned();
    var k: Coord := n % 2;
    EncodeRow(n);
    EncodeRow(k);
    KeyInGrid(RowRange, RowCells, (k, 0, 0), Encode(RowRange, n, 0, 0));
  }

  lemma {:induction false} KeyInGrid(r: CoordRange, cells: set<Cell>, c: Cell, key: nat)
    requires forall c :: c in cells ==> -0x8000 <= c.0 < 0x8000 && -0x8000 <= c.1 < 0x8000 && -0x8000 <= c.2 < 0x8000
    requires c in cells && key == Encode(r, c.0, c.1, c.2)
    ensures key in EncodeAll(r, cells)
  {
  }

  /** The membership test meant: a cell outside the scanned bounds is absent. */
  function HasInRange(r: CoordRange, keys: set<nat>, x: Coord, y: Coord, z: Coord): bool {
    r.Contains(x, y, z) && Encode(r, x, y, z) in keys
  }

  /** With the bounds enclosing the cells, the bounded lookup is exact
      membership, which is how the grids of this model are kept. */
  lemma {:induction false} HasInRangeExact(r: CoordRange, cells: set<Cell>, x: Coord, y: Coord, z: Coord)
    requires forall c :: c in cells ==> r.Contains(c.0, c.1, c.2) && -0x8000 <= c.0 < 0x8000 && -0x8000 <= c.1 < 0x8000 && -0x8000 <= c.2 < 0x8000
    requires Pow2(r.xBits) >= r.xMax - r.xMin + 1
    requires Pow2(r.yBits) >= r.yMax - r.yMin + 1
    requires Pow2(r.zBits) >= r.zMax - r.zMin + 1
    ensures HasInRange(r, EncodeAll(r, cells), x, y, z) <==> (x, y, z) in cells
  {
    if HasInRange(r, EncodeAll(r, cells), x, y, z) {
      var c :| c in cells && Encode(r, c.0, c.1, c.2) == Encode(r, x, y, z);
      EncodeInjective(r, c.0, c.1, c.2, x, y, z);
    }
  }

  /** The bounds enclose every cell of the set. */
  ghost predicate EnclosesAll(cells: set<Cell>, lo: Cell, hi: Cell) {
    forall c :: c in cells ==> lo.0 <= c.0 <= hi.0 && lo.1 <= c.1 <= hi.1 && lo.2 <= c.2 <= hi.2
  }

  /** The first loop of `mergeToRegions`: the min and max of every axis over
      every cell, starting from INT_MAX and INT_MIN. */
  method ScanRange(groups: seq<BlockGroup>) returns (lo: Cell, hi: Cell)
    requires AllIndexable(groups)
    ensures EnclosesAll(GridCells(groups), lo, hi)
  {
    lo, hi := (0x7FFF_FFFF, 0x7FFF_FFFF, 0x7FFF_FFFF), (-0x8000_0000, -0x8000_0000, -0x8000_0000);
    var k := 0;
    while k < |groups|
      invariant 0 <= k <= |groups|
      invariant AllIndexable(groups[..k]) && EnclosesAll(GridCells(groups[..k]), lo, hi)
    {
      GridCellsSnoc(groups, k);
      lo, hi := ScanGroup(groups[k], lo, hi, GridCells(groups[..k]));
      k := k + 1;
    }
    assert groups[..k] == groups;
  }

  /** The inner loop: widening the bounds over one group's cells. */
  method ScanGroup(bg: BlockGroup, lo0: Cell, hi0: Cell, ghost before: set<Cell>) returns (lo: Cell, hi: Cell)
    requires bg.Indexable() && EnclosesAll(before, lo0, hi0)
    ensures EnclosesAll(before + GroupCells(bg, bg.count as int), lo, hi)
  {
    lo, hi := lo0, hi0;
    var i := 0;
    while i < bg.count as int
      invariant 0 <= i <= bg.count as int
      invariant EnclosesAll(before + GroupCells(bg, i), lo, hi)
    {
      var lo', hi' := (Min(lo.0, bg.x[i]), Min(lo.1, bg.y[i]), Min(lo.2, bg.z[i])),
                      (Max(hi.0, bg.x[i]), Max(hi.1, bg.y[i]), Max(hi.2, bg.z[i]));
      WidenStep(bg, i, before, lo, hi, lo', hi');
      lo, hi, i := lo', hi', i + 1;
    }
  }

  /** Widening the bounds by cell `i` encloses it too. */
  lemma {:induction false} WidenStep(bg: BlockGroup, i: nat, before: set<Cell>, lo: Cell, hi: Cell, lo': Cell, hi': Cell)
    requires bg.Indexable() && i < bg.count as int
    requires EnclosesAll(before + GroupCells(bg, i), lo, hi)
    requires lo' == (Min(lo.0, bg.x[i]), Min(lo.1, bg.y[i]), Min(lo.2, bg.z[i]))
    requires hi' == (Max(hi.0, bg.x[i]), Max(hi.1, bg.y[i]), Max(hi.2, bg.z[i]))
    ensures EnclosesAll(before + GroupCells(bg, i + 1), lo', hi')
  {
    assert GroupCells(bg, i + 1) == GroupCells(bg, i) + {CellAt(bg, i)};
    forall c | c in before + GroupCells(bg, i + 1)
      ensures lo'.0 <= c.0 <= hi'.0 && lo'.1 <= c.1 <= hi'.1 && lo'.2 <= c.2 <= hi'.2
    {
      if c !in before + GroupCells(bg, i) {
        assert c == CellAt(bg, i);
      }
    }
  }

  function Min(a: int, b: int): (m: int)
    ensures m <= a && m <= b && (m == a || m == b)
  {
    if a < b then a else b
  }

  function Max(a: int, b: int): (m: int)
    ensures m >= a && m >= b && (m == a || m == b)
  {
    if a < b then b else a
  }

  /** The cells of every group, whatever their palette id. */
  function GridCells(gs: seq<BlockGroup>): set<Cell>
    requires AllIndexable(gs)
  {
    if gs == [] then {} else GridCells(gs[..|gs| - 1]) + GroupCells(gs[|gs| - 1], gs[|gs| - 1].count as int)
  }

  lemma {:induction false} GridCellsSnoc(gs: seq<BlockGroup>, k: nat)
    requires AllIndexable(gs) && k < |gs|
    ensures AllIndexable(gs[..k]) && AllIndexable(gs[..k + 1])
    ensures GridCells(gs[..k + 1]) == GridCells(gs[..k]) + GroupCells(gs[k], gs[k].count as int)
  {
    assert gs[..k + 1][..k] == gs[..k];
  }

  // ---------------------------------------------------------------------------
  // Axis orders

  /** The six expansion orders, in the source's order; axis 0 expands X,
      1 expands Z, 2 expands Y. Each is a permutation of the three axes, and
      no two are the same. */
  function Order(i: int): (o: seq<int>)
    requires 0 <= i < 6
    ensures |o| == 3 && o[0] != o[1] && o[1] != o[2] && o[0] != o[2]
    ensures forall k :: 0 <= k < 3 ==> 0 <= o[k] < 3
  {
    if i == 0 then [0, 1, 2] else if i == 1 then [0, 2, 1] else if i == 2 then [1, 0, 2]
    else if i == 3 then [1, 2, 0] else if i == 4 then [2, 0, 1] else [2, 1, 0]
  }

  lemma {:induction false} OrdersDistinct()
    ensures forall i, j :: 0 <= i < j < 6 ==> Order(i) != Order(j)
  {
  }

  // ---------------------------------------------------------------------------
  // Expansion

  /** The cell on a face: the fixed coordinate on `axis` and the other two. */
  function CellOn(axis: int, fixed: int, a: int, b: int): Cell {
    if axis == 0 then (fixed, a, b) else if axis == 1 then (a, b, fixed) else (a, fixed, b)
  }

  predicate FaceFull(grid: set<Cell>, axis: int, fixed: int, a1: int, a2: int, b1: int, b2: int) {
    forall a, b :: a1 <= a <= a2 && b1 <= b <= b2 ==> CellOn(axis, fixed, a, b) in grid
  }

  /** The nested loops of `expandX`/`expandZ`/`expandY`: whether every cell of
      the next face is present, stopping at the first absent one. */
  method FacePresent(grid: set<Cell>, axis: int, fixed: int, a1: int, a2: int, b1: int, b2: int)
    returns (full: bool)
    ensures full <==> FaceFull(grid, axis, fixed, a1, a2, b1, b2)
  {
    var a := a1;
    while a <= a2
      invariant a1 <= a <= a2 + 1 || a == a1
      invariant forall a', b :: a1 <= a' < a && b1 <= b <= b2 ==> CellOn(axis, fixed, a', b) in grid
      decreases a2 - a
    {
      var b := b1;
      while b <= b2
        invariant b1 <= b <= b2 + 1 || b == b1
        invariant forall b' :: b1 <= b' < b ==> CellOn(axis, fixed, a, b') in grid
        decreases b2 - b
      {
        if CellOn(axis, fixed, a, b) !in grid {
          return false;
        }
        b := b + 1;
      }
      a := a + 1;
    }
    return true;
  }

  /** Every cell of the box is present. */
  ghost predicate BoxIn(grid: set<Cell>, r: BlockRegion) {
    forall c :: InBox(c, r) ==> c in grid
  }

  /** Growing x2 by one face keeps the box inside the grid. */
  lemma {:induction false} GrowX(grid: set<Cell>, r: BlockRegion, nx: Coord)
    requires nx == r.x2 + 1
    requires FaceFull(grid, 0, nx, r.y1, r.y2, r.z1, r.z2)
    ensures BoxIn(grid, r) ==> BoxIn(grid, r.(x2 := nx))
  {
    if BoxIn(grid, r) {
      forall c | InBox(c, r.(x2 := nx)) ensures c in grid {
        if c.0 == nx { assert CellOn(0, nx, c.1, c.2) == c; } else { assert InBox(c, r); }
      }
    }
  }

  lemma {:induction false} GrowZ(grid: set<Cell>, r: BlockRegion, nz: Coord)
    requires nz == r.z2 + 1
    requires FaceFull(grid, 1, nz, r.x1, r.x2, r.y1, r.y2)
    ensures BoxIn(grid, r) ==> BoxIn(grid, r.(z2 := nz))
  {
    if BoxIn(grid, r) {
      forall c | InBox(c, r.(z2 := nz)) ensures c in grid {
        if c.2 == nz { assert CellOn(1, nz, c.0, c.1) == c; } else { assert InBox(c, r); }
      }
    }
  }

  lemma {:induction false} GrowY(grid: set<Cell>, r: BlockRegion, ny: Coord)
    requires ny == r.y2 + 1
    requires FaceFull(grid, 2, ny, r.x1, r.x2, r.z1, r.z2)
    ensures BoxIn(grid, r) ==> BoxIn(grid, r.(y2 := ny))
  {
    if BoxIn(grid, r) {
      forall c | InBox(c, r.(y2 := ny)) ensures c in grid {
        if c.1 == ny { assert CellOn(2, ny, c.0, c.2) == c; } else { assert InBox(c, r); }
      }
    }
  }

  /** X expansion as a function: x2 grows while the next face is all present. */
  function ExpandedX(grid: set<Cell>, r: BlockRegion): (e: BlockRegion)
    requires InRange(grid) && Ordered(r)
    ensures e == r.(x2 := e.x2) && e.x2 >= r.x2
    ensures !FaceFull(grid, 0, e.x2 + 1, e.y1, e.y2, e.z1, e.z2)
    ensures BoxIn(grid, r) ==> BoxIn(grid, e)
    decreases 0x7FFF - r.x2
  {
    if FaceFull(grid, 0, r.x2 + 1, r.y1, r.y2, r.z1, r.z2) then
      assert CellOn(0, r.x2 + 1, r.y1, r.z1) in grid;
      var r' := r.(x2 := r.x2 + 1);
      GrowX(grid, r, r.x2 + 1);
      ExpandedX(grid, r')
    else r
  }

  function ExpandedZ(grid: set<Cell>, r: BlockRegion): (e: BlockRegion)
    requires InRange(grid) && Ordered(r)
    ensures e == r.(z2 := e.z2) && e.z2 >= r.z2
    ensures !FaceFull(grid, 1, e.z2 + 1, e.x1, e.x2, e.y1, e.y2)
    ensures BoxIn(grid, r) ==> BoxIn(grid, e)
    decreases 0x7FFF - r.z2
  {
    if FaceFull(grid, 1, r.z2 + 1, r.x1, r.x2, r.y1, r.y2) then
      assert CellOn(1, r.z2 + 1, r.x1, r.y1) in grid;
      var r' := r.(z2 := r.z2 + 1);
      GrowZ(grid, r, r.z2 + 1);
      ExpandedZ(grid, r')
    else r
  }

  function ExpandedY(grid: set<Cell>, r: BlockRegion): (e: BlockRegion)
    requires InRange(grid) && Ordered(r)
    ensures e == r.(y2 := e.y2) && e.y2 >= r.y2
    ensures !FaceFull(grid, 2, e.y2 + 1, e.x1, e.x2, e.z1, e.z2)
    ensures BoxIn(grid, r) ==> BoxIn(grid, e)
    decreases 0x7FFF - r.y2
  {
    if FaceFull(grid, 2, r.y2 + 1, r.x1, r.x2, r.z1, r.z2) then
      assert CellOn(2, r.y2 + 1, r.x1, r.z1) in grid;
      var r' := r.(y2 := r.y2 + 1);
      GrowY(grid, r, r.y2 + 1);
      ExpandedY(grid, r')
    else r
  }

  /** `expandX`: the loop that grows x2 one face at a time. */
  method ExpandX(grid: set<Cell>, r0: BlockRegion) returns (r: BlockRegion)
    requires InRange(grid) && Ordered(r0)
    ensures r == ExpandedX(grid, r0)
  {
    r := r0;
    while true
      invariant Ordered(r) && ExpandedX(grid, r) == ExpandedX(grid, r0)
      decreases 0x7FFF - r.x2
    {
      var nx := r.x2 + 1;
      var full := FacePresent(grid, 0, nx, r.y1, r.y2, r.z1, r.z2);
      if !full {
        return;
      }
      assert CellOn(0, nx, r.y1, r.z1) in grid;
      r := r.(x2 := nx);
    }
  }

  method ExpandZ(grid: set<Cell>, r0: BlockRegion) returns (r: BlockRegion)
    requires InRange(grid) && Ordered(r0)
    ensures r == ExpandedZ(grid, r0)
  {
    r := r0;
    while true
      invariant Ordered(r) && ExpandedZ(grid, r) == ExpandedZ(grid, r0)
      decreases 0x7FFF - r.z2
    {
      var nz := r.z2 + 1;
      var full := FacePresent(grid, 1, nz, r.x1, r.x2, r.y1, r.y2);
      if !full {
        return;
      }
      assert CellOn(1, nz, r.x1, r.y1) in grid;
      r := r.(z2 := nz);
    }
  }

  method ExpandY(grid: set<Cell>, r0: BlockRegion) returns (r: BlockRegion)
    requires InRange(grid) && Ordered(r0)
    ensures r == ExpandedY(grid, r0)
  {
    r := r0;
    while true
      invariant Ordered(r) && ExpandedY(grid, r) == ExpandedY(grid, r0)
      decreases 0x7FFF - r.y2
    {
      var ny := r.y2 + 1;
      var full := FacePresent(grid, 2, ny, r.x1, r.x2, r.z1, r.z2);
      if !full {
        return;
      }
      assert CellOn(2, ny, r.x1, r.z1) in grid;
      r := r.(y2 := ny);
    }
  }

  function Expanded(grid: set<Cell>, r: BlockRegion, axis: int): (e: BlockRegion)
    requires InRange(grid) && Ordered(r)
    ensures Ordered(e) && (e.x1, e.y1, e.z1) == (r.x1, r.y1, r.z1) && e.paletteId == r.paletteId
    ensures BoxIn(grid, r) ==> BoxIn(grid, e)
  {
    if axis == 0 then ExpandedX(grid, r) else if axis == 1 then ExpandedZ(grid, r) else ExpandedY(grid, r)
  }

  // ---------------------------------------------------------------------------
  // Candidates

  /** The seed box as line 140 builds it: the aggregate initialiser fills the
      fields in declaration order x1, y1, z1, x2, y2, z2 with x, x, y, y, z, z. */
  function SeedBoxAsWritten(pid: PaletteId, x: Coord, y: Coord, z: Coord): (r: BlockRegion)
    ensures r.x1 == x && r.y1 == x && r.z1 == y && r.x2 == y && r.y2 == z && r.z2 == z
  {
    BlockRegion(pid, x, x, y, y, z, z)
  }

  /** For the seed (0, 5, 0) the box's z range is 5..0, so every X face has no
      cells, the face test never fails, and `expandX` never returns. */
  lemma {:induction false} SeedBoxAsWrittenNeverStops(grid: set<Cell>, n: int)
    ensures var r := SeedBoxAsWritten(0, 0, 5, 0);
      r.z1 > r.z2 && FaceFull(grid, 0, n, r.y1, r.y2, r.z1, r.z2)
  {
  }

  /** The seed box meant: the single seed cell. */
  function SeedBox(pid: PaletteId, seed: Cell): (r: BlockRegion)
    requires -0x8000 <= seed.0 < 0x8000 && -0x8000 <= seed.1 < 0x8000 && -0x8000 <= seed.2 < 0x8000
    ensures Ordered(r) && (r.x1, r.y1, r.z1) == seed && r.paletteId == pid
  {
    BlockRegion(pid, seed.0, seed.1, seed.2, seed.0, seed.1, seed.2)
  }

  /** The seed box holds the seed cell and nothing else. */
  lemma {:induction false} SeedBoxIsSeed(pid: PaletteId, seed: Cell)
    requires -0x8000 <= seed.0 < 0x8000 && -0x8000 <= seed.1 < 0x8000 && -0x8000 <= seed.2 < 0x8000
    ensures forall c :: InBox(c, SeedBox(pid, seed)) <==> c == seed
  {
  }

  /** The box after the first `k` expansions of the order. */
  function Expansions(grid: set<Cell>, s: BlockRegion, order: seq<int>, k: nat): (r: BlockRegion)
    requires InRange(grid) && Ordered(s) && k <= |order|
    ensures Ordered(r) && (r.x1, r.y1, r.z1) == (s.x1, s.y1, s.z1) && r.paletteId == s.paletteId
    ensures BoxIn(grid, s) ==> BoxIn(grid, r)
  {
    if k == 0 then s else Expanded(grid, Expansions(grid, s, order, k - 1), order[k - 1])
  }

  /** `tryExpansion` with the seed box corrected: the three expansions in the
      given order. */
  function Candidate(grid: set<Cell>, seed: Cell, pid: PaletteId, order: seq<int>): (r: BlockRegion)
    requires InRange(grid) && seed in grid && |order| == 3
    ensures Ordered(r) && (r.x1, r.y1, r.z1) == seed && r.paletteId == pid
    ensures BoxIn(grid, r)
  {
    var s := SeedBox(pid, seed);
    SeedBoxIsSeed(pid, seed);
    assert BoxIn(grid, s);
    Expansions(grid, s, order, 3)
  }

  method ExpandAlong(grid: set<Cell>, r0: BlockRegion, axis: int) returns (r: BlockRegion)
    requires InRange(grid) && Ordered(r0)
    ensures r == Expanded(grid, r0, axis)
  {
    if axis == 0 {
      r := ExpandX(grid, r0);
    } else if axis == 1 {
      r := ExpandZ(grid, r0);
    } else {
      r := ExpandY(grid, r0);
    }
  }

  /** `tryExpansion`: the three expansions in the order given. */
  method TryExpansion(grid: set<Cell>, seed: Cell, pid: PaletteId, order: seq<int>) returns (r: BlockRegion)
    requires InRange(grid) && seed in grid && |order| == 3
    ensures r == Candidate(grid, seed, pid, order)
  {
    var s := SeedBox(pid, seed);
    r := s;
    for k := 0 to 3
      invariant r == Expansions(grid, s, order, k)
    {
      ghost var before := r;
      r := ExpandAlong(grid, r, order[k]);
      assert r == Expanded(grid, before, order[k]);
    }
  }

  function Volume(r: BlockRegion): int {
    (r.x2 - r.x1 + 1) * (r.y2 - r.y1 + 1) * (r.z2 - r.z1 + 1)
  }

  lemma {:induction false} VolumePositive(r: BlockRegion)
    requires Ordered(r)
    ensures Volume(r) >= 1
  {
    var a, b, c := r.x2 - r.x1 + 1, r.y2 - r.y1 + 1, r.z2 - r.z1 + 1;
    assert a * b >= 1 by { assert a * b >= 1 * b; }
    assert a * b * c >= 1 by { assert (a * b) * c >= 1 * c; }
  }

  /** The position the selection loop settles on, for candidates measured by
      `size`: a candidate replaces the best so far only when it is strictly
      larger. */
  function SelectedIndex(cands: seq<BlockRegion>, size: BlockRegion -> int): (k: nat)
    requires cands != []
    ensures k < |cands|
  {
    if |cands| == 1 then 0
    else
      var b := SelectedIndex(cands[..|cands| - 1], size);
      if size(cands[|cands| - 1]) > size(cands[b]) then |cands| - 1 else b
  }

  function Selected(cands: seq<BlockRegion>, size: BlockRegion -> int): BlockRegion
    requires cands != []
  {
    cands[SelectedIndex(cands, size)]
  }

  /** One more candidate replaces the selection only when strictly larger. */
  lemma {:induction false} SelectedSnoc(cands: seq<BlockRegion>, c: BlockRegion, size: BlockRegion -> int)
    requires cands != []
    ensures Selected(cands + [c], size) == if size(c) > size(Selected(cands, size)) then c else Selected(cands, size)
  {
    assert (cands + [c])[..|cands|] == cands;
  }

  /** No candidate is larger than the selected one. */
  lemma {:induction false} SelectedIsMax(cands: seq<BlockRegion>, size: BlockRegion -> int)
    requires cands != []
    ensures forall j :: 0 <= j < |cands| ==> size(cands[j]) <= size(cands[SelectedIndex(cands, size)])
  {
    if |cands| > 1 {
      var init := cands[..|cands| - 1];
      SelectedIsMax(init, size);
      assert forall j :: 0 <= j < |init| ==> cands[j] == init[j];
    }
  }

  /** Every candidate before the selected one is strictly smaller. */
  lemma {:induction false} SelectedIsFirst(cands: seq<BlockRegion>, size: BlockRegion -> int)
    requires cands != []
    ensures forall j :: 0 <= j < SelectedIndex(cands, size) ==> size(cands[j]) < size(cands[SelectedIndex(cands, size)])
  {
    if |cands| > 1 {
      var init := cands[..|cands| - 1];
      SelectedIsFirst(init, size);
      SelectedIsMax(init, size);
      assert forall j :: 0 <= j < |init| ==> cands[j] == init[j];
    }
  }

  /** A box the expansion can return for the seed: ordered, cornered at the
      seed, of the palette id, and made of present cells. */
  ghost predicate Fits(grid: set<Cell>, seed: Cell, pid: PaletteId, b: BlockRegion) {
    Ordered(b) && (b.x1, b.y1, b.z1) == seed && b.paletteId == pid && BoxIn(grid, b)
  }

  /** The candidates of the first `n` orders. */
  function CandidatesUpTo(grid: set<Cell>, seed: Cell, pid: PaletteId, n: nat): (cs: seq<BlockRegion>)
    requires InRange(grid) && seed in grid && n <= 6
    ensures |cs| == n && forall i :: 0 <= i < n ==> Fits(grid, seed, pid, cs[i])
  {
    if n == 0 then [] else CandidatesUpTo(grid, seed, pid, n - 1) + [Candidate(grid, seed, pid, Order(n - 1))]
  }

  lemma {:induction false} CandidatesUpToAt(grid: set<Cell>, seed: Cell, pid: PaletteId, n: nat, i: nat)
    requires InRange(grid) && seed in grid && i < n <= 6
    ensures CandidatesUpTo(grid, seed, pid, n)[i] == Candidate(grid, seed, pid, Order(i))
  {
    if i < n - 1 {
      CandidatesUpToAt(grid, seed, pid, n - 1, i);
    }
  }

  /** The box emitted for a seed. */
  function Best(grid: set<Cell>, seed: Cell, pid: PaletteId): (b: BlockRegion)
    requires InRange(grid) && seed in grid
    ensures Fits(grid, seed, pid, b)
  {
    var cs := CandidatesUpTo(grid, seed, pid, 6);
    Selected(cs, Volume)
  }

  /** The emitted box is the candidate of the first order whose volume is the
      largest of the six. */
  lemma {:induction false} BestIsFirstLargest(grid: set<Cell>, seed: Cell, pid: PaletteId)
    requires InRange(grid) && seed in grid
    ensures exists k :: (0 <= k < 6 && Best(grid, seed, pid) == Candidate(grid, seed, pid, Order(k))
                          && (forall j :: 0 <= j < 6 ==>
                                Volume(Candidate(grid, seed, pid, Order(j))) <= Volume(Best(grid, seed, pid)))
                          && (forall j :: 0 <= j < k ==>
                                Volume(Candidate(grid, seed, pid, Order(j))) < Volume(Best(grid, seed, pid))))
  {
    var cs := CandidatesUpTo(grid, seed, pid, 6);
    SelectedIsMax(cs, Volume);
    SelectedIsFirst(cs, Volume);
    forall j | 0 <= j < 6 ensures cs[j] == Candidate(grid, seed, pid, Order(j)) {
      CandidatesUpToAt(grid, seed, pid, 6, j);
    }
  }

  /** The sequential path: each candidate is computed and compared in turn. */
  method ChooseSequential(grid: set<Cell>, seed: Cell, pid: PaletteId) returns (best: BlockRegion)
    requires InRange(grid) && seed in grid
    ensures best == Best(grid, seed, pid)
  {
    var maxVolume := 0;
    best := SeedBox(pid, seed);
    for i := 0 to 6
      invariant i == 0 ==> maxVolume == 0
      invariant i > 0 ==> best == Selected(CandidatesUpTo(grid, seed, pid, i), Volume) && maxVolume == Volume(best)
    {
      var candidate := TryExpansion(grid, seed, pid, Order(i));
      VolumePositive(candidate);
      var vol := Volume(candidate);
      if vol > maxVolume {
        maxVolume := vol;
        best := candidate;
      }
      if i > 0 {
        SelectedSnoc(CandidatesUpTo(grid, seed, pid, i), candidate, Volume);
      }
    }
  }

  /** The path taken for grids of more than 5000 cells: the six candidates are
      computed first (concurrently in the source), then compared in order. */
  method ChooseAllFirst(grid: set<Cell>, seed: Cell, pid: PaletteId) returns (best: BlockRegion)
    requires InRange(grid) && seed in grid
    ensures best == Best(grid, seed, pid)
  {
    var futures := ComputeCandidates(grid, seed, pid);
    best := SelectLargest(futures);
  }

  method ComputeCandidates(grid: set<Cell>, seed: Cell, pid: PaletteId) returns (futures: seq<BlockRegion>)
    requires InRange(grid) && seed in grid
    ensures futures == CandidatesUpTo(grid, seed, pid, 6)
  {
    futures := [];
    for i := 0 to 6
      invariant futures == CandidatesUpTo(grid, seed, pid, i)
    {
      var candidate := TryExpansion(grid, seed, pid, Order(i));
      futures := futures + [candidate];
    }
  }

  /** The comparison loop over computed candidates, from volume 0. */
  method SelectLargest(cands: seq<BlockRegion>) returns (best: BlockRegion)
    requires cands != [] && forall i :: 0 <= i < |cands| ==> Ordered(cands[i])
    ensures best == Selected(cands, Volume)
  {
    var maxVolume := 0;
    best := cands[0];
    for i := 0 to |cands|
      invariant i == 0 ==> maxVolume == 0
      invariant i > 0 ==> best == Selected(cands[..i], Volume) && maxVolume == Volume(best)
    {
      var candidate := cands[i];
      VolumePositive(candidate);
      var vol := Volume(candidate);
      if vol > maxVolume {
        maxVolume := vol;
        best := candidate;
      }
      if i > 0 {
        assert cands[..i + 1] == cands[..i] + [candidate];
        SelectedSnoc(cands[..i], candidate, Volume);
      }
    }
    assert cands[..|cands|] == cands;
  }

  // ---------------------------------------------------------------------------
  // removeRegion

  /** The cell comes before (y, x, z) in the source's y, x, z order. */
  ghost predicate Before(r: BlockRegion, y: int, x: int, z: int, c: Cell) {
    InBox(c, r) && (c.1 < y || (c.1 == y && c.0 < x) || (c.1 == y && c.0 == x && c.2 < z))
  }

  /** The cells of a box in the source's y, x, z order. */
  method BoxKeys(r: BlockRegion) returns (keys: seq<Cell>)
    ensures forall c :: c in keys <==> InBox(c, r)
  {
    keys := [];
    var y: int := r.y1;
    while y <= r.y2
      invariant r.y1 <= y <= r.y2 + 1 || y == r.y1
      invariant forall c :: c in keys <==> Before(r, y, r.x1, r.z1, c)
      decreases r.y2 - y
    {
      var x: int := r.x1;
      while x <= r.x2
        invariant r.x1 <= x <= r.x2 + 1 || x == r.x1
        invariant forall c :: c in keys <==> Before(r, y, x, r.z1, c)
        decreases r.x2 - x
      {
        var z: int := r.z1;
        while z <= r.z2
          invariant r.z1 <= z <= r.z2 + 1 || z == r.z1
          invariant forall c :: c in keys <==> Before(r, y, x, z, c)
          decreases r.z2 - z
        {
          keys := keys + [(x, y, z)];
          z := z + 1;
        }
        x := x + 1;
      }
      y := y + 1;
    }
  }

  /** Erasing a list of keys one after another (the source splits the list
      over threads; the erasures are modelled in list order). */
  method EraseKeys(grid: set<Cell>, keys: seq<Cell>) returns (g: set<Cell>)
    ensures forall c :: c in g <==> c in grid && c !in keys
  {
    g := grid;
    for i := 0 to |keys|
      invariant forall c :: c in g <==> c in grid && c !in keys[..i]
    {
      assert forall c :: c in keys[..i + 1] <==> c in keys[..i] || c == keys[i];
      g := g - {keys[i]};
    }
    assert keys[..|keys|] == keys;
  }

  /** The rebuild strategy: keep the cells outside the box. */
  method RebuildWithout(grid: set<Cell>, r: BlockRegion) returns (newGrid: set<Cell>)
    ensures forall c :: c in newGrid <==> c in grid && !InBox(c, r)
  {
    newGrid := {};
    var rest := grid;
    while rest != {}
      invariant rest <= grid
      invariant forall c :: c in newGrid <==> c in grid && c !in rest && !InBox(c, r)
      decreases rest
    {
      var key :| key in rest;
      if !InBox(key, r) {
        newGrid := newGrid + {key};
      }
      rest := rest - {key};
    }
  }

  /** A box of more than half the cells is also more than a quarter of them,
      so the rebuild branch is never taken. */
  lemma {:induction false} RebuildUnreachable(toRemove: nat, size: nat)
    ensures toRemove > size / 2 ==> toRemove > size / 4
  {
  }

  /** `removeRegion`: every strategy removes exactly the cells of the box. */
  method RemoveRegion(grid: set<Cell>, r: BlockRegion) returns (g: set<Cell>)
    requires Ordered(r)
    ensures forall c :: c in g <==> c in grid && !InBox(c, r)
  {
    VolumePositive(r);
    var toRemove := Volume(r);
    RebuildUnreachable(toRemove, |grid|);
    if toRemove > |grid| / 4 {
      var keysToRemove := BoxKeys(r);
      g := EraseKeys(grid, keysToRemove);
    } else if toRemove > |grid| / 2 {
      assert false;
      g := RebuildWithout(grid, r);
    } else {
      g := EraseBox(grid, r);
    }
  }

  // ---------------------------------------------------------------------------
  // mergeToRegions

  /** The boxes taken so far and the cells left together make up the grid,
      exactly once. */
  ghost predicate Compressed(grid0: set<Cell>, grid: set<Cell>, regs: seq<BlockRegion>, pid: PaletteId) {
    && grid <= grid0
    && (forall c :: Covers(regs, c) <==> c in grid0 && c !in grid)
    && (forall i :: 0 <= i < |regs| ==> regs[i].paletteId == pid && Ordered(regs[i]))
    && (forall i, j :: 0 <= i < j < |regs| ==> Disjoint(regs[i], regs[j]))
  }

  /** The greedy loop for one palette id: exact coverage and no overlap. */
  method CompressPalette(grid0: set<Cell>, pid: PaletteId) returns (regs: seq<BlockRegion>)
    requires InRange(grid0)
    ensures forall c :: Covers(regs, c) <==> c in grid0
    ensures forall i :: 0 <= i < |regs| ==> regs[i].paletteId == pid && Ordered(regs[i])
    ensures forall i, j :: 0 <= i < j < |regs| ==> Disjoint(regs[i], regs[j])
  {
    var grid := grid0;
    regs := [];
    assert Compressed(grid0, grid, regs, pid);
    while grid != {}
      invariant Compressed(grid0, grid, regs, pid)
      decreases grid
    {
      grid, regs := CompressStep(grid0, grid, regs, pid);
    }
  }

  /** One pass of the greedy loop: the best candidate from some remaining
      cell is taken and its cells erased. */
  method CompressStep(grid0: set<Cell>, grid: set<Cell>, regs: seq<BlockRegion>, pid: PaletteId)
    returns (grid': set<Cell>, regs': seq<BlockRegion>)
    requires InRange(grid0) && grid != {} && Compressed(grid0, grid, regs, pid)
    ensures Compressed(grid0, grid', regs', pid) && grid' < grid
  {
    assert InRange(grid);
    var seed :| seed in grid;
    var best;
    if |grid| > 5000 {
      best := ChooseAllFirst(grid, seed, pid);
    } else {
      best := ChooseSequential(grid, seed, pid);
    }
    grid' := RemoveRegion(grid, best);
    AppendBox(grid0, grid, grid', regs, best);
    assert seed !in grid';
    regs' := regs + [best];
  }

  /** `mergeToRegions` with the seed box corrected: per palette id the boxes
      cover exactly the cells of that id and never overlap. */
  method MergeToRegions(groups: seq<BlockGroup>) returns (regions: seq<BlockRegion>)
    requires AllIndexable(groups) && BelowMax(groups)
    ensures forall pid, c :: CoversFor(regions, pid, c) <==> c in GridOf(groups, pid)
    ensures forall i :: 0 <= i < |regions| ==> Ordered(regions[i]) && regions[i].paletteId in PidSet(groups)
    ensures forall i, j :: 0 <= i < j < |regions| && regions[i].paletteId == regions[j].paletteId
              ==> Disjoint(regions[i], regions[j])
  {
    var lo, hi := ScanRange(groups);
    var grids := BuildGrids(groups);
    var keys := grids.Keys;
    regions := [];
    while keys != {}
      invariant keys <= grids.Keys
      invariant forall i :: 0 <= i < |regions| ==>
                  Ordered(regions[i]) && regions[i].paletteId in grids && regions[i].paletteId !in keys
      invariant forall pid, c :: CoversFor(regions, pid, c) <==> pid in grids && pid !in keys && c in grids[pid]
      invariant forall i, j :: 0 <= i < j < |regions| && regions[i].paletteId == regions[j].paletteId
                  ==> Disjoint(regions[i], regions[j])
      decreases |keys|
    {
      var pid :| pid in keys;
      GridOfInRange(groups, pid);
      var rs := CompressPalette(grids[pid], pid);
      AppendPalette(grids, keys, regions, rs, pid);
      regions := regions + rs;
      keys := keys - {pid};
    }
    forall pid | pid !in grids ensures GridOf(groups, pid) == {} {
      GridOfAbsent(groups, pid);
    }
  }
}

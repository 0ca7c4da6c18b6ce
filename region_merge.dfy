/** core/RegionMergeUtils.hpp: the greedy box compressor the latest writer uses.
    Per palette id, the cells form a set; a box grows from an arbitrary cell
    along X, then Z (whole rows), then Y (whole faces), is emitted and its
    cells are erased, until the set is empty. */
module RegionMerge {
  import opened LittleEndian
  import opened Structs

  // ---------------------------------------------------------------------------
  // packPos / unpackPos

  /** The three coordinates' 16-bit patterns at bits 32, 16 and 0. */
  function PackPos(x: Coord, y: Coord, z: Coord): (key: U64)
    ensures key < 0x1_0000_0000_0000
  {
    I16Bits(x) * 0x1_0000_0000 + I16Bits(y) * 0x1_0000 + I16Bits(z)
  }

  function UnpackPos(key: U64): (c: (Coord, Coord, Coord))
  {
    (I16FromBits((key / 0x1_0000_0000) % 0x1_0000),
     I16FromBits((key / 0x1_0000) % 0x1_0000),
     I16FromBits(key % 0x1_0000))
  }

  lemma {:induction false} I16BitsInjective(a: I16, b: I16)
    requires I16Bits(a) == I16Bits(b)
    ensures a == b
  {
  }

  /** Unpacking a packed key gives back the three coordinates. */
  lemma {:induction false} UnpackPack(x: Coord, y: Coord, z: Coord)
    ensures UnpackPos(PackPos(x, y, z)) == (x, y, z)
  {
    var ux: int, uy: int, uz: int := I16Bits(x), I16Bits(y), I16Bits(z);
    var key: int := ux * 0x1_0000_0000 + uy * 0x1_0000 + uz;
    assert key / 0x1_0000_0000 == ux;
    assert key / 0x1_0000 == ux * 0x1_0000 + uy;
    assert key % 0x1_0000 == uz;
    I16BitsInjective(I16FromBits(ux), x);
    I16BitsInjective(I16FromBits(uy), y);
    I16BitsInjective(I16FromBits(uz), z);
  }

  /** Distinct cells have distinct keys, so a set of keys is a set of cells. */
  lemma {:induction false} PackInjective(x: Coord, y: Coord, z: Coord, x': Coord, y': Coord, z': Coord)
    requires PackPos(x, y, z) == PackPos(x', y', z')
    ensures x == x' && y == y' && z == z'
  {
    UnpackPack(x, y, z);
    UnpackPack(x', y', z');
  }

  // ---------------------------------------------------------------------------
  // Cells, boxes and the input grids

  type Cell = (int, int, int)

  /** Cells whose every coordinate is a Coord below the largest one, so that
      `max + 1` in the expansion loops is still a Coord. */
  predicate InRange(grid: set<Cell>) {
    forall c :: c in grid ==> -0x8000 <= c.0 < 0x7FFF && -0x8000 <= c.1 < 0x7FFF && -0x8000 <= c.2 < 0x7FFF
  }

  predicate InBox(c: Cell, r: BlockRegion) {
    r.x1 <= c.0 <= r.x2 && r.y1 <= c.1 <= r.y2 && r.z1 <= c.2 <= r.z2
  }

  predicate Ordered(r: BlockRegion) {
    r.x1 <= r.x2 && r.y1 <= r.y2 && r.z1 <= r.z2
  }

  /** Separated along some axis: the boxes share no cell. */
  predicate Disjoint(a: BlockRegion, b: BlockRegion) {
    a.x2 < b.x1 || b.x2 < a.x1 || a.y2 < b.y1 || b.y2 < a.y1 || a.z2 < b.z1 || b.z2 < a.z1
  }

  /** Two boxes that are not separated share their largest min corner. */
  lemma {:induction false} OverlapWitness(a: BlockRegion, b: BlockRegion)
    requires Ordered(a) && Ordered(b) && !Disjoint(a, b)
    ensures var c := (if a.x1 < b.x1 then b.x1 else a.x1,
                      if a.y1 < b.y1 then b.y1 else a.y1,
                      if a.z1 < b.z1 then b.z1 else a.z1);
            InBox(c, a) && InBox(c, b)
  {
  }

  predicate Covers(regs: seq<BlockRegion>, c: Cell) {
    exists i :: 0 <= i < |regs| && InBox(c, regs[i])
  }

  predicate CoversFor(regs: seq<BlockRegion>, pid: PaletteId, c: Cell) {
    exists i :: 0 <= i < |regs| && regs[i].paletteId == pid && InBox(c, regs[i])
  }

  function CellAt(g: BlockGroup, i: nat): Cell
    requires g.Indexable() && i < g.count as int
  {
    (g.x[i], g.y[i], g.z[i])
  }

  /** The first `n` cells of a group. */
  function GroupCells(g: BlockGroup, n: nat): (r: set<Cell>)
    requires g.Indexable() && n <= g.count as int
    ensures forall c :: c in r ==> exists i :: 0 <= i < n && CellAt(g, i) == c
    ensures forall i :: 0 <= i < n ==> CellAt(g, i) in r
  {
    if n == 0 then {} else GroupCells(g, n - 1) + {CellAt(g, n - 1)}
  }

  predicate AllIndexable(gs: seq<BlockGroup>) {
    forall i :: 0 <= i < |gs| ==> gs[i].Indexable()
  }

  /** The cells the groups give palette id `pid`. */
  function GridOf(gs: seq<BlockGroup>, pid: PaletteId): set<Cell>
    requires AllIndexable(gs)
  {
    if gs == [] then {}
    else
      var g := gs[|gs| - 1];
      GridOf(gs[..|gs| - 1], pid) + (if g.paletteId == pid then GroupCells(g, g.count as int) else {})
  }

  function PidSet(gs: seq<BlockGroup>): set<PaletteId> {
    set i | 0 <= i < |gs| :: gs[i].paletteId
  }

  lemma {:induction false} GridOfAbsent(gs: seq<BlockGroup>, pid: PaletteId)
    requires AllIndexable(gs) && pid !in PidSet(gs)
    ensures GridOf(gs, pid) == {}
  {
    if gs != [] {
      var init := gs[..|gs| - 1];
      assert PidSet(init) <= PidSet(gs) by {
        forall p | p in PidSet(init) ensures p in PidSet(gs) {
          var i :| 0 <= i < |init| && init[i].paletteId == p;
          assert gs[i].paletteId == p;
        }
      }
      assert gs[|gs| - 1].paletteId in PidSet(gs);
      GridOfAbsent(init, pid);
    }
  }

  /** Every cell of a group is a Coord triple below the largest Coord. */
  predicate BelowMax(gs: seq<BlockGroup>) {
    forall k, i :: 0 <= k < |gs| && 0 <= i < gs[k].count as int && i < |gs[k].x| && i < |gs[k].y| && i < |gs[k].z|
      ==> gs[k].x[i] < 0x7FFF && gs[k].y[i] < 0x7FFF && gs[k].z[i] < 0x7FFF
  }

  lemma {:induction false} GridOfInRange(gs: seq<BlockGroup>, pid: PaletteId)
    requires AllIndexable(gs) && BelowMax(gs)
    ensures InRange(GridOf(gs, pid))
  {
    if gs != [] {
      var init := gs[..|gs| - 1];
      assert BelowMax(init) by {
        forall k, i | 0 <= k < |init| && 0 <= i < init[k].count as int && i < |init[k].x| && i < |init[k].y| && i < |init[k].z|
          ensures init[k].x[i] < 0x7FFF && init[k].y[i] < 0x7FFF && init[k].z[i] < 0x7FFF
        {
          assert init[k] == gs[k];
        }
      }
      GridOfInRange(init, pid);
    }
  }

  // ---------------------------------------------------------------------------
  // Building the grids

  /** The first loop of `mergeToRegions`: one cell set per palette id present. */
  method BuildGrids(groups: seq<BlockGroup>) returns (grids: map<PaletteId, set<Cell>>)
    requires AllIndexable(groups)
    ensures grids.Keys == PidSet(groups)
    ensures forall pid :: pid in grids ==> grids[pid] == GridOf(groups, pid)
  {
    grids := map[];
    var k := 0;
    while k < |groups|
      invariant 0 <= k <= |groups|
      invariant grids.Keys == PidSet(groups[..k])
      invariant forall pid :: pid in grids ==> grids[pid] == GridOf(groups[..k], pid)
    {
      var bg := groups[k];
      var temp := GroupCellSet(bg);
      var old_ := if bg.paletteId in grids then grids[bg.paletteId] else {};
      GridOfSnoc(groups, k);
      PidSetSnoc(groups, k);
      if bg.paletteId !in grids {
        GridOfAbsent(groups[..k], bg.paletteId);
      }
      grids := grids[bg.paletteId := old_ + temp];
      k := k + 1;
    }
    assert groups[..k] == groups;
  }

  /** The packed keys of one group, collected into a set. */
  method GroupCellSet(bg: BlockGroup) returns (temp: set<Cell>)
    requires bg.Indexable()
    ensures temp == GroupCells(bg, bg.count as int)
  {
    temp := {};
    var i := 0;
    while i < bg.count as int
      invariant 0 <= i <= bg.count as int
      invariant temp == GroupCells(bg, i)
    {
      temp := temp + {(bg.x[i], bg.y[i], bg.z[i])};
      i := i + 1;
    }
  }

  lemma {:induction false} GridOfSnoc(gs: seq<BlockGroup>, k: nat)
    requires AllIndexable(gs) && k < |gs|
    ensures AllIndexable(gs[..k]) && AllIndexable(gs[..k + 1])
    ensures forall pid :: GridOf(gs[..k + 1], pid) == GridOf(gs[..k], pid)
                             + (if gs[k].paletteId == pid then GroupCells(gs[k], gs[k].count as int) else {})
  {
    assert gs[..k + 1][..k] == gs[..k];
  }

  lemma {:induction false} PidSetSnoc(gs: seq<BlockGroup>, k: nat)
    requires k < |gs|
    ensures PidSet(gs[..k + 1]) == PidSet(gs[..k]) + {gs[k].paletteId}
  {
    var a, b := gs[..k + 1], gs[..k];
    forall p | p in PidSet(a) ensures p in PidSet(b) + {gs[k].paletteId} {
      var i :| 0 <= i < |a| && a[i].paletteId == p;
      if i < k { assert b[i] == a[i]; }
    }
    forall p | p in PidSet(b) + {gs[k].paletteId} ensures p in PidSet(a) {
      if p in PidSet(b) {
        var i :| 0 <= i < |b| && b[i].paletteId == p;
        assert a[i] == b[i];
      } else {
        assert a[k] == gs[k];
      }
    }
  }

  // ---------------------------------------------------------------------------
  // Growing one box

  /** X expansion: the longest run of cells from the seed towards +X. */
  method ExpandX(grid: set<Cell>, sx: int, sy: int, sz: int) returns (maxX: int)
    requires InRange(grid) && (sx, sy, sz) in grid
    ensures sx <= maxX < 0x7FFF
    ensures forall x :: sx <= x <= maxX ==> (x, sy, sz) in grid
    ensures (maxX + 1, sy, sz) !in grid
  {
    maxX := sx;
    while (maxX + 1, sy, sz) in grid
      invariant sx <= maxX < 0x7FFF
      invariant forall x :: sx <= x <= maxX ==> (x, sy, sz) in grid
      decreases 0x7FFF - maxX
    {
      maxX := maxX + 1;
    }
  }

  predicate RowFull(grid: set<Cell>, x1: int, x2: int, y: int, z: int) {
    forall x :: x1 <= x <= x2 ==> (x, y, z) in grid
  }

  predicate FaceFull(grid: set<Cell>, x1: int, x2: int, y: int, z1: int, z2: int) {
    forall x, z :: x1 <= x <= x2 && z1 <= z <= z2 ==> (x, y, z) in grid
  }

  /** Whether the row `x1..x2` at (y, z) is all present; stops at the first gap. */
  method RowPresent(grid: set<Cell>, x1: int, x2: int, y: int, z: int) returns (b: bool)
    ensures b <==> RowFull(grid, x1, x2, y, z)
  {
    var cx := x1;
    while cx <= x2
      invariant x1 <= cx <= x2 + 1 || cx == x1
      invariant forall x :: x1 <= x < cx ==> (x, y, z) in grid
      decreases x2 - cx
    {
      if (cx, y, z) !in grid {
        return false;
      }
      cx := cx + 1;
    }
    return true;
  }

  /** Z expansion: whole X rows are added while the next one is present. */
  method ExpandZ(grid: set<Cell>, sx: int, maxX: int, sy: int, sz: int) returns (maxZ: int)
    requires InRange(grid) && sx <= maxX
    requires forall x :: sx <= x <= maxX ==> (x, sy, sz) in grid
    ensures sz <= maxZ < 0x7FFF
    ensures forall x, z :: sx <= x <= maxX && sz <= z <= maxZ ==> (x, sy, z) in grid
    ensures !RowFull(grid, sx, maxX, sy, maxZ + 1)
  {
    assert (sx, sy, sz) in grid;
    maxZ := sz;
    var canExpandZ := true;
    while canExpandZ
      invariant sz <= maxZ < 0x7FFF
      invariant forall x, z :: sx <= x <= maxX && sz <= z <= maxZ ==> (x, sy, z) in grid
      invariant !canExpandZ ==> !RowFull(grid, sx, maxX, sy, maxZ + 1)
      decreases 0x7FFF - maxZ + (if canExpandZ then 1 else 0)
    {
      canExpandZ := RowPresent(grid, sx, maxX, sy, maxZ + 1);
      if canExpandZ {
        assert (sx, sy, maxZ + 1) in grid;
        maxZ := maxZ + 1;
      }
    }
  }

  /** Whether the face `x1..x2` by `z1..z2` at height y is all present; both
      loops stop at the first gap. */
  method FacePresent(grid: set<Cell>, x1: int, x2: int, y: int, z1: int, z2: int) returns (b: bool)
    ensures b <==> FaceFull(grid, x1, x2, y, z1, z2)
  {
    var cx := x1;
    while cx <= x2
      invariant x1 <= cx <= x2 + 1 || cx == x1
      invariant forall x, z :: x1 <= x < cx && z1 <= z <= z2 ==> (x, y, z) in grid
      decreases x2 - cx
    {
      var cz := z1;
      while cz <= z2
        invariant z1 <= cz <= z2 + 1 || cz == z1
        invariant forall z :: z1 <= z < cz ==> (cx, y, z) in grid
        decreases z2 - cz
      {
        if (cx, y, cz) !in grid {
          return false;
        }
        cz := cz + 1;
      }
      cx := cx + 1;
    }
    return true;
  }

  /** Y expansion: whole X-by-Z faces are added while the next one is present. */
  method ExpandY(grid: set<Cell>, sx: int, maxX: int, sy: int, sz: int, maxZ: int) returns (maxY: int)
    requires InRange(grid) && sx <= maxX && sz <= maxZ
    requires forall x, z :: sx <= x <= maxX && sz <= z <= maxZ ==> (x, sy, z) in grid
    ensures sy <= maxY < 0x7FFF
    ensures forall x, y, z :: sx <= x <= maxX && sy <= y <= maxY && sz <= z <= maxZ ==> (x, y, z) in grid
    ensures !FaceFull(grid, sx, maxX, maxY + 1, sz, maxZ)
  {
    assert (sx, sy, sz) in grid;
    maxY := sy;
    var canExpandY := true;
    while canExpandY
      invariant sy <= maxY < 0x7FFF
      invariant forall x, y, z :: sx <= x <= maxX && sy <= y <= maxY && sz <= z <= maxZ ==> (x, y, z) in grid
      invariant !canExpandY ==> !FaceFull(grid, sx, maxX, maxY + 1, sz, maxZ)
      decreases 0x7FFF - maxY + (if canExpandY then 1 else 0)
    {
      canExpandY := FacePresent(grid, sx, maxX, maxY + 1, sz, maxZ);
      if canExpandY {
        assert (sx, maxY + 1, sz) in grid;
        maxY := maxY + 1;
      }
    }
  }

  // ---------------------------------------------------------------------------
  // Erasing a box

  method EraseRow(grid: set<Cell>, x: int, y: int, z1: int, z2: int) returns (r: set<Cell>)
    ensures forall c :: c in r <==> c in grid && !(c.0 == x && c.1 == y && z1 <= c.2 <= z2)
  {
    r := grid;
    var z := z1;
    while z <= z2
      invariant z1 <= z <= z2 + 1 || z == z1
      invariant forall c :: c in r <==> c in grid && !(c.0 == x && c.1 == y && z1 <= c.2 < z)
      decreases z2 - z
    {
      r := r - {(x, y, z)};
      z := z + 1;
    }
  }

  method ErasePlane(grid: set<Cell>, x1: int, x2: int, y: int, z1: int, z2: int) returns (r: set<Cell>)
    ensures forall c :: c in r <==> c in grid && !(x1 <= c.0 <= x2 && c.1 == y && z1 <= c.2 <= z2)
  {
    r := grid;
    var x := x1;
    while x <= x2
      invariant x1 <= x <= x2 + 1 || x == x1
      invariant forall c :: c in r <==> c in grid && !(x1 <= c.0 < x && c.1 == y && z1 <= c.2 <= z2)
      decreases x2 - x
    {
      r := EraseRow(r, x, y, z1, z2);
      x := x + 1;
    }
  }

  /** Erases every cell of the box, in the source's y, x, z order. */
  method EraseBox(grid: set<Cell>, b: BlockRegion) returns (r: set<Cell>)
    ensures forall c :: c in r <==> c in grid && !InBox(c, b)
  {
    r := grid;
    var y: int := b.y1;
    while y <= b.y2
      invariant b.y1 <= y <= b.y2 + 1 || y == b.y1
      invariant forall c :: c in r <==> c in grid && !(b.x1 <= c.0 <= b.x2 && b.y1 <= c.1 < y && b.z1 <= c.2 <= b.z2)
      decreases b.y2 - y
    {
      r := ErasePlane(r, b.x1, b.x2, y, b.z1, b.z2);
      y := y + 1;
    }
  }

  // ---------------------------------------------------------------------------
  // The greedy loop

  /** The greedy loop for one palette id: the boxes cover exactly the grid,
      never overlap, and each starts at the cell it was grown from. */
  method CompressPalette(grid0: set<Cell>, pid: PaletteId) returns (regs: seq<BlockRegion>)
    requires InRange(grid0)
    ensures forall c :: Covers(regs, c) <==> c in grid0
    ensures forall i :: 0 <= i < |regs| ==> regs[i].paletteId == pid && Ordered(regs[i])
    ensures forall i, j :: 0 <= i < j < |regs| ==> Disjoint(regs[i], regs[j])
  {
    var grid := grid0;
    regs := [];
    while grid != {}
      invariant grid <= grid0
      invariant forall c :: Covers(regs, c) <==> c in grid0 && c !in grid
      invariant forall i :: 0 <= i < |regs| ==> regs[i].paletteId == pid && Ordered(regs[i])
      invariant forall i, j :: 0 <= i < j < |regs| ==> Disjoint(regs[i], regs[j])
      decreases grid
    {
      var start :| start in grid;
      var box := GrowBox(grid, start, pid);
      var grid' := EraseBox(grid, box);
      AppendBox(grid0, grid, grid', regs, box);
      assert start !in grid';
      assert grid' < grid;
      regs := regs + [box];
      grid := grid';
    }
  }

  /** The box grown from `start`: X, then Z, then Y expansion. */
  method GrowBox(grid: set<Cell>, start: Cell, pid: PaletteId) returns (box: BlockRegion)
    requires InRange(grid) && start in grid
    ensures box.paletteId == pid && Ordered(box)
    ensures (box.x1, box.y1, box.z1) == start
    ensures forall c :: InBox(c, box) ==> c in grid
  {
    var (sx, sy, sz) := start;
    var maxX := ExpandX(grid, sx, sy, sz);
    var maxZ := ExpandZ(grid, sx, maxX, sy, sz);
    var maxY := ExpandY(grid, sx, maxX, sy, sz, maxZ);
    box := BlockRegion(pid, sx, sy, sz, maxX, maxY, maxZ);
  }

  /** Appending a box taken from the remaining cells keeps the loop invariant. */
  lemma {:induction false} AppendBox(grid0: set<Cell>, grid: set<Cell>, grid': set<Cell>, regs: seq<BlockRegion>, box: BlockRegion)
    requires Ordered(box) && forall c :: InBox(c, box) ==> c in grid
    requires forall c :: c in grid' <==> c in grid && !InBox(c, box)
    requires grid <= grid0
    requires forall c :: Covers(regs, c) <==> c in grid0 && c !in grid
    requires forall i :: 0 <= i < |regs| ==> Ordered(regs[i])
    ensures forall c :: Covers(regs + [box], c) <==> c in grid0 && c !in grid'
    ensures forall i :: 0 <= i < |regs| ==> Disjoint(regs[i], box)
  {
    var all := regs + [box];
    forall c ensures Covers(all, c) <==> Covers(regs, c) || InBox(c, box) {
      if Covers(regs, c) {
        var i :| 0 <= i < |regs| && InBox(c, regs[i]);
        assert all[i] == regs[i];
      }
      if InBox(c, box) {
        assert all[|regs|] == box;
      }
      if Covers(all, c) {
        var i :| 0 <= i < |all| && InBox(c, all[i]);
        if i < |regs| { assert all[i] == regs[i]; }
      }
    }
    forall i | 0 <= i < |regs| ensures Disjoint(regs[i], box) {
      if !Disjoint(regs[i], box) {
        OverlapWitness(regs[i], box);
        assert false;
      }
    }
  }

  /** `mergeToRegions`: per palette id, the boxes cover exactly the cells the
      groups give that id, boxes of one id never overlap, and every box has
      ordered corners. Palette ids are visited in an unspecified order. */
  method MergeToRegions(groups: seq<BlockGroup>) returns (regions: seq<BlockRegion>)
    requires AllIndexable(groups) && BelowMax(groups)
    ensures forall pid, c :: CoversFor(regions, pid, c) <==> c in GridOf(groups, pid)
    ensures forall i :: 0 <= i < |regions| ==> Ordered(regions[i]) && regions[i].paletteId in PidSet(groups)
    ensures forall i, j :: 0 <= i < j < |regions| && regions[i].paletteId == regions[j].paletteId
              ==> Disjoint(regions[i], regions[j])
  {
    var grids := BuildGrids(groups);
    var keys := grids.Keys;
    regions := [];
    while keys != {}
      invariant keys <= grids.Keys
      invariant forall i :: 0 <= i < |regions| ==>
                  Ordered(regions[i]) && regions[i].paletteId in grids && regions[i].paletteId !in keys
      invariant forall pid, c :: CoversFor(regions, pid, c) <==> pid in grids && pid !in keys && c in grids[pid]
      invariant forall i, j :: 0 <= i < j < |regions| && regions[i].paletteId == regions[j].paletteId
                  ==> Disjoint(regions[i], regions[j])
      decreases |keys|
    {
      var pid :| pid in keys;
      GridOfInRange(groups, pid);
      var rs := CompressPalette(grids[pid], pid);
      AppendPalette(grids, keys, regions, rs, pid);
      regions := regions + rs;
      keys := keys - {pid};
    }
    forall pid | pid !in grids ensures GridOf(groups, pid) == {} {
      GridOfAbsent(groups, pid);
    }
  }

  /** Appending the boxes of one unvisited palette id keeps the loop invariant. */
  lemma {:induction false} AppendPalette(grids: map<PaletteId, set<Cell>>, keys: set<PaletteId>, regions: seq<BlockRegion>,
                      rs: seq<BlockRegion>, pid: PaletteId)
    requires pid in keys && keys <= grids.Keys
    requires forall i :: 0 <= i < |regions| ==>
               Ordered(regions[i]) && regions[i].paletteId in grids && regions[i].paletteId !in keys
    requires forall p, c :: CoversFor(regions, p, c) <==> p in grids && p !in keys && c in grids[p]
    requires forall i, j :: 0 <= i < j < |regions| && regions[i].paletteId == regions[j].paletteId
                ==> Disjoint(regions[i], regions[j])
    requires forall c :: Covers(rs, c) <==> c in grids[pid]
    requires forall i :: 0 <= i < |rs| ==> rs[i].paletteId == pid && Ordered(rs[i])
    requires forall i, j :: 0 <= i < j < |rs| ==> Disjoint(rs[i], rs[j])
    ensures var all, keys' := regions + rs, keys - {pid};
      (forall i :: 0 <= i < |all| ==> Ordered(all[i]) && all[i].paletteId in grids && all[i].paletteId !in keys')
      && (forall p, c :: CoversFor(all, p, c) <==> p in grids && p !in keys' && c in grids[p])
      && (forall i, j :: 0 <= i < j < |all| && all[i].paletteId == all[j].paletteId ==> Disjoint(all[i], all[j]))
  {
    var all, keys' := regions + rs, keys - {pid};
    forall p, c ensures CoversFor(all, p, c) <==> p in grids && p !in keys' && c in grids[p] {
      if CoversFor(all, p, c) {
        var i :| 0 <= i < |all| && all[i].paletteId == p && InBox(c, all[i]);
        if i < |regions| {
          assert all[i] == regions[i];
          assert CoversFor(regions, p, c);
        } else {
          assert all[i] == rs[i - |regions|];
          assert Covers(rs, c);
        }
      }
      if p in grids && p !in keys' && c in grids[p] {
        if p == pid {
          var i :| 0 <= i < |rs| && InBox(c, rs[i]);
          assert all[|regions| + i] == rs[i];
        } else {
          assert CoversFor(regions, p, c);
          var i :| 0 <= i < |regions| && regions[i].paletteId == p && InBox(c, regions[i]);
          assert all[i] == regions[i];
        }
      }
    }
    forall i, j | 0 <= i < j < |all| && all[i].paletteId == all[j].paletteId
      ensures Disjoint(all[i], all[j])
    {
      if j < |regions| {
        assert all[i] == regions[i] && all[j] == regions[j];
      } else if i >= |regions| {
        assert all[i] == rs[i - |regions|] && all[j] == rs[j - |regions|];
      }
    }
  }
}

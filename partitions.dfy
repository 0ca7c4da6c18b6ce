/** The partitioning of the latest cached writer (Writer/BCFCachedWriter.hpp):
    the world is cut into columns of 144 x 144 blocks, numbered row by row with
    a bias of 227 columns so that negative columns get non-negative indices;
    each partition keeps its blocks as a list of block groups, one per palette
    id. */
module Partitions {
  import opened Wrappers
  import opened LittleEndian
  import opened CInt
  import opened Structs
  import opened BlockGroups
  import opened Spill
  import RegionMerge

  const ColumnWidth: int := 144
  const ColumnsPerRow: int := 454
  const ColumnBias: int := 227

  // ---------------------------------------------------------------------------
  // Grid arithmetic of addBlock and mergeAllCacheFiles

  /** The column of a coordinate: truncating division, one less for a negative
      coordinate that is not a multiple of 144. That is floor division. */
  function Column(v: I32): (c: int)
    ensures c == v / ColumnWidth
    ensures -0x8000_0000 / ColumnWidth <= c <= 0x7FFF_FFFF / ColumnWidth
  {
    var q := Quot(v, 144);
    if v < 0 && Rem(v, 144) != 0 then q - 1 else q
  }

  /** The position inside the column: the C++ remainder shifted into [0, 144). */
  function Local(v: I32): (l: int)
    ensures 0 <= l < ColumnWidth && l == v % ColumnWidth
    ensures ColumnWidth * Column(v) + l == v
  {
    Rem(Rem(v, 144) + 144, 144)
  }

  /** The partition index, computed in 32-bit `int`. */
  function PartitionIndex(x: I32, z: I32): (index: I32)
  {
    WrapI32((Column(z) + ColumnBias) * ColumnsPerRow + (Column(x) + ColumnBias))
  }

  /** `y + 56` in `int`, narrowed to a Coord when it is stored. */
  function LocalY(y: I32): (ly: Coord)
    ensures -0x8000 <= y + 56 < 0x8000 ==> ly == y + 56
  {
    WrapI16(WrapI32(y + 56))
  }

  /** The column an index stands for, as mergeAllCacheFiles recovers it with
      C++ `%` and `/`. */
  function ColumnX(index: int): int {
    Rem(index, ColumnsPerRow) - ColumnBias
  }

  function ColumnZ(index: int): int {
    Quot(index, ColumnsPerRow) - ColumnBias
  }

  /** The origin written for a partition: its column corner and `minY`, each
      narrowed to a Coord. */
  function Origin(index: I32, minY: I32): (o: SubChunkOrigin)
    ensures o.originY as int == WrapI16(minY)
  {
    SubChunkOrigin(WrapI16(ColumnX(index) * ColumnWidth), WrapI16(minY), WrapI16(ColumnZ(index) * ColumnWidth))
  }

  lemma {:induction false} DivModOf(q: int, r: int)
    requires q >= 0 && 0 <= r < ColumnsPerRow
    ensures (q * ColumnsPerRow + r) / ColumnsPerRow == q && (q * ColumnsPerRow + r) % ColumnsPerRow == r
  {
  }

  /** For columns -227..226 on both axes the index is in [0, 454^2), decodes
      back to the block's column, and origin plus local position is the block's
      own position; with the default `minY` of -56 this holds for y too. */
  lemma {:induction false} PartitionRoundTrip(x: I32, y: I32, z: I32)
    requires -ColumnBias * ColumnWidth <= x < ColumnBias * ColumnWidth
    requires -ColumnBias * ColumnWidth <= z < ColumnBias * ColumnWidth
    requires -0x8000 <= y + 56 < 0x8000
    ensures 0 <= PartitionIndex(x, z) < ColumnsPerRow * ColumnsPerRow
    ensures ColumnX(PartitionIndex(x, z)) == Column(x) && ColumnZ(PartitionIndex(x, z)) == Column(z)
    ensures Origin(PartitionIndex(x, z), -56).originX + Local(x) == x
    ensures Origin(PartitionIndex(x, z), -56).originY + LocalY(y) == y
    ensures Origin(PartitionIndex(x, z), -56).originZ + Local(z) == z
  {
    var cx, cz := Column(x), Column(z);
    assert -227 <= cx < 227 && -227 <= cz < 227;
    var a, b := cx + 227, cz + 227;
    var exact := b * 454 + a;
    assert 0 <= exact < 454 * 454;
    DivModOf(b, a);
    assert PartitionIndex(x, z) == exact;
  }

  /** Blocks in different columns of that range go to different partitions. */
  lemma {:induction false} PartitionIndexInjective(x: I32, z: I32, x': I32, z': I32)
    requires -ColumnBias * ColumnWidth <= x < ColumnBias * ColumnWidth
    requires -ColumnBias * ColumnWidth <= z < ColumnBias * ColumnWidth
    requires -ColumnBias * ColumnWidth <= x' < ColumnBias * ColumnWidth
    requires -ColumnBias * ColumnWidth <= z' < ColumnBias * ColumnWidth
    ensures PartitionIndex(x, z) == PartitionIndex(x', z') <==> Column(x) == Column(x') && Column(z) == Column(z')
  {
    PartitionRoundTrip(x, 0, z);
    PartitionRoundTrip(x', 0, z');
  }

  // ---------------------------------------------------------------------------
  // Partition sizes

  /** The blocks of a partition: the sum of its group counts. */
  function Size(gs: seq<BlockGroup>): (n: nat)
  {
    if gs == [] then 0 else Size(gs[..|gs| - 1]) + gs[|gs| - 1].count as int
  }

  /** A partition of well-formed groups holds `Size` cells. */
  lemma {:induction false} SizeIsCells(gs: seq<BlockGroup>)
    requires AllWellFormed(gs)
    ensures Size(gs) == |Cells(gs)|
    decreases |gs|
  {
    if gs != [] {
      var init := gs[..|gs| - 1];
      assert AllWellFormed(init) by {
        forall i | 0 <= i < |init| ensures init[i].WellFormed() { assert init[i] == gs[i]; }
      }
      SizeIsCells(init);
    }
  }

  lemma {:induction false} SizeSnoc(gs: seq<BlockGroup>, g: BlockGroup)
    ensures Size(gs + [g]) == Size(gs) + g.count as int
  {
    assert (gs + [g])[..|gs|] == gs;
  }

  /** The inner loop of getTotalBlocksInMemory and of the size survey in
      checkAndFlush. */
  method PartitionSize(gs: seq<BlockGroup>) returns (n: nat)
    ensures n == Size(gs)
  {
    n := 0;
    var i := 0;
    while i < |gs|
      invariant 0 <= i <= |gs| && n == Size(gs[..i])
    {
      SizeSnoc(gs[..i], gs[i]);
      assert gs[..i + 1] == gs[..i] + [gs[i]];
      n := n + gs[i].count as int;
      i := i + 1;
    }
    assert gs[..i] == gs;
  }

  /** The blocks held by all partitions. */
  ghost function Total(m: map<int, seq<BlockGroup>>): (n: nat)
    decreases |m.Keys|
  {
    if m.Keys == {} then 0
    else
      HasKey(m);
      var k :| k in m.Keys;
      Size(m[k]) + Total(m - {k})
  }

  lemma {:induction false} HasKey(m: map<int, seq<BlockGroup>>)
    requires m.Keys != {}
    ensures exists k :: k in m.Keys
  {
    if forall k :: k !in m.Keys {
      assert false;
    }
  }

  /** Any partition can be taken out of the sum first. */
  lemma {:induction false} TotalRemove(m: map<int, seq<BlockGroup>>, k: int)
    requires k in m
    ensures Total(m) == Size(m[k]) + Total(m - {k})
    decreases |m.Keys|
  {
    var j :| j in m.Keys && Total(m) == Size(m[j]) + Total(m - {j});
    if j != k {
      var mj, mk := m - {j}, m - {k};
      RemoveBoth(m, j, k);
      TotalRemove(mj, k);
      TotalRemove(mk, j);
    }
  }

  lemma {:induction false} RemoveBoth(m: map<int, seq<BlockGroup>>, j: int, k: int)
    requires j in m && k in m && j != k
    ensures |(m - {j}).Keys| < |m.Keys| && |(m - {k}).Keys| < |m.Keys|
    ensures k in m - {j} && j in m - {k}
    ensures (m - {j}) - {k} == (m - {k}) - {j}
  {
    assert (m - {j}).Keys < m.Keys;
    assert (m - {k}).Keys < m.Keys;
  }

  lemma {:induction false} TotalEmpty(m: map<int, seq<BlockGroup>>)
    requires m.Keys == {}
    ensures Total(m) == 0
  {
  }

  /** getTotalBlocksInMemory. */
  method TotalBlocksInMemory(active: map<int, seq<BlockGroup>>) returns (total: nat)
    ensures total == Total(active)
  {
    var rest := active;
    total := 0;
    while rest.Keys != {}
      invariant total + Total(rest) == Total(active)
      decreases |rest.Keys|
    {
      var k :| k in rest;
      var n := PartitionSize(rest[k]);
      TotalRemove(rest, k);
      total := total + n;
      assert (rest - {k}).Keys < rest.Keys;
      rest := rest - {k};
    }
    TotalEmpty(rest);
  }

  // ---------------------------------------------------------------------------
  // addBlockToGroup

  /** The partition after addBlockToGroup: the coordinate goes to the first
      group with the palette id, else to a new group appended at the end. */
  function WithBlock(gs: seq<BlockGroup>, pid: PaletteId, x: Coord, y: Coord, z: Coord): (r: seq<BlockGroup>)
    decreases |gs|
  {
    if gs == [] then [AddBlock(BlockGroup(pid, 0, [], [], []), x, y, z)]
    else if gs[0].paletteId == pid then [AddBlock(gs[0], x, y, z)] + gs[1..]
    else [gs[0]] + WithBlock(gs[1..], pid, x, y, z)
  }

  /** The loop of addBlockToGroup. */
  method AddBlockToGroup(gs: seq<BlockGroup>, pid: PaletteId, x: Coord, y: Coord, z: Coord)
    returns (r: seq<BlockGroup>)
    ensures r == WithBlock(gs, pid, x, y, z)
  {
    var i := 0;
    while i < |gs|
      invariant 0 <= i <= |gs|
      invariant forall j :: 0 <= j < i ==> gs[j].paletteId != pid
    {
      if gs[i].paletteId == pid {
        WithBlockAt(gs, pid, x, y, z, i);
        return gs[i := AddBlock(gs[i], x, y, z)];
      }
      i := i + 1;
    }
    WithBlockAt(gs, pid, x, y, z, |gs|);
    return gs + [AddBlock(BlockGroup(pid, 0, [], [], []), x, y, z)];
  }

  /** WithBlock updates the first group carrying the id, or appends one. */
  lemma {:induction false} WithBlockAt(gs: seq<BlockGroup>, pid: PaletteId, x: Coord, y: Coord, z: Coord, i: nat)
    requires i <= |gs| && forall j :: 0 <= j < i ==> gs[j].paletteId != pid
    requires i < |gs| ==> gs[i].paletteId == pid
    ensures i < |gs| ==> WithBlock(gs, pid, x, y, z) == gs[i := AddBlock(gs[i], x, y, z)]
    ensures i == |gs| ==> WithBlock(gs, pid, x, y, z) == gs + [AddBlock(BlockGroup(pid, 0, [], [], []), x, y, z)]
    decreases |gs|
  {
    if gs != [] && i > 0 {
      WithBlockAt(gs[1..], pid, x, y, z, i - 1);
      if i < |gs| {
        assert [gs[0]] + gs[1..][i - 1 := AddBlock(gs[i], x, y, z)] == gs[i := AddBlock(gs[i], x, y, z)];
      } else {
        assert [gs[0]] + (gs[1..] + [AddBlock(BlockGroup(pid, 0, [], [], []), x, y, z)])
            == gs + [AddBlock(BlockGroup(pid, 0, [], [], []), x, y, z)];
      }
    } else if gs != [] {
      assert [AddBlock(gs[0], x, y, z)] + gs[1..] == gs[0 := AddBlock(gs[0], x, y, z)];
    }
  }

  /** A partition as the writer keeps it: well-formed groups with distinct
      palette ids, none of them empty. */
  predicate Partition(gs: seq<BlockGroup>) {
    AllWellFormed(gs) && DistinctPids(gs) && forall i :: 0 <= i < |gs| ==> gs[i].count > 0
  }

  /** The ids of a partition are those its groups carry. */
  lemma {:induction false} PidsAre(gs: seq<BlockGroup>)
    ensures Pids(gs) == set i | 0 <= i < |gs| :: gs[i].paletteId
    decreases |gs|
  {
    if gs != [] {
      var init := gs[..|gs| - 1];
      PidsAre(init);
      forall k | k in Pids(gs) ensures exists i :: 0 <= i < |gs| && gs[i].paletteId == k {
        if k in Pids(init) {
          var i :| 0 <= i < |init| && init[i].paletteId == k;
          assert gs[i].paletteId == k;
        } else {
          assert gs[|gs| - 1].paletteId == k;
        }
      }
    }
  }

  /** addBlockToGroup adds exactly the one cell: the partition stays a
      partition, its size rises by one, its ids gain `pid`, it grows by a group
      exactly when `pid` was new, and every group of another id is kept
      unchanged at its place. */
  lemma {:induction false} WithBlockSpec(gs: seq<BlockGroup>, pid: PaletteId, x: Coord, y: Coord, z: Coord)
    requires Partition(gs) && Size(gs) + 1 < 0x1_0000_0000
    ensures Partition(WithBlock(gs, pid, x, y, z))
    ensures Cells(WithBlock(gs, pid, x, y, z)) == Cells(gs) + multiset{(pid, x, y, z)}
    ensures Size(WithBlock(gs, pid, x, y, z)) == Size(gs) + 1
    ensures Pids(WithBlock(gs, pid, x, y, z)) == Pids(gs) + {pid}
    ensures |WithBlock(gs, pid, x, y, z)| == if pid in Pids(gs) then |gs| else |gs| + 1
    ensures forall i :: 0 <= i < |gs| && gs[i].paletteId != pid ==> WithBlock(gs, pid, x, y, z)[i] == gs[i]
  {
    if i :| 0 <= i < |gs| && gs[i].paletteId == pid {
      var j := FirstWith(gs, pid, i);
      WithBlockAt(gs, pid, x, y, z, j);
      WithBlockExisting(gs, pid, x, y, z, j);
    } else {
      WithBlockAt(gs, pid, x, y, z, |gs|);
      WithBlockNew(gs, pid, x, y, z);
    }
  }

  /** The cell joins group `j`, which already carries the id. */
  lemma {:induction false} WithBlockExisting(gs: seq<BlockGroup>, pid: PaletteId, x: Coord, y: Coord, z: Coord, j: nat)
    requires Partition(gs) && Size(gs) + 1 < 0x1_0000_0000
    requires j < |gs| && gs[j].paletteId == pid
    ensures var r := gs[j := AddBlock(gs[j], x, y, z)];
      Partition(r) && Cells(r) == Cells(gs) + multiset{(pid, x, y, z)} && Size(r) == Size(gs) + 1
      && Pids(r) == Pids(gs) + {pid} && pid in Pids(gs)
  {
    var g := gs[j];
    var g' := AddBlock(g, x, y, z);
    SizeIsCells(gs);
    assert |g.x| <= Size(gs) by { SizeAtLeast(gs, j); }
    AddBlockKeepsWellFormed(g, x, y, z);
    ReplaceGrows(gs, j, g', (pid, x, y, z));
    PartitionReplace(gs, j, g');
    SizeIsCells(gs[j := g']);
  }

  /** Replacing a group by a non-empty well-formed one of the same id keeps a
      partition and its ids. */
  lemma {:induction false} PartitionReplace(gs: seq<BlockGroup>, j: nat, g: BlockGroup)
    requires Partition(gs) && j < |gs| && g.paletteId == gs[j].paletteId && g.WellFormed() && g.count > 0
    ensures Partition(gs[j := g]) && Pids(gs[j := g]) == Pids(gs) && g.paletteId in Pids(gs)
  {
    var r := gs[j := g];
    PidsReplace(gs, j, g);
    assert forall k :: 0 <= k < |r| ==> r[k].paletteId == gs[k].paletteId;
    assert AllWellFormed(r) by {
      forall k | 0 <= k < |r| ensures r[k].WellFormed() { if k != j { assert r[k] == gs[k]; } }
    }
  }

  lemma {:induction false} PidsReplace(gs: seq<BlockGroup>, j: nat, g: BlockGroup)
    requires j < |gs| && g.paletteId == gs[j].paletteId
    ensures Pids(gs[j := g]) == Pids(gs) && g.paletteId in Pids(gs)
  {
    var r := gs[j := g];
    PidsAre(gs);
    PidsAre(r);
    assert forall k :: 0 <= k < |r| ==> r[k].paletteId == gs[k].paletteId;
  }

  /** A group that gains one cell makes its partition gain that cell. */
  lemma {:induction false} ReplaceGrows(gs: seq<BlockGroup>, j: nat, g: BlockGroup, c: Cell)
    requires AllWellFormed(gs) && j < |gs| && Aligned(g)
    requires CellsOf(g) == CellsOf(gs[j]) + multiset{c}
    ensures Cells(gs[j := g]) == Cells(gs) + multiset{c}
  {
    ReplaceCells(gs, j, g);
    CellsHas(gs, j);
  }

  /** The cell opens a new group at the end. */
  lemma {:induction false} WithBlockNew(gs: seq<BlockGroup>, pid: PaletteId, x: Coord, y: Coord, z: Coord)
    requires Partition(gs) && Size(gs) + 1 < 0x1_0000_0000
    requires forall i :: 0 <= i < |gs| ==> gs[i].paletteId != pid
    ensures var r := gs + [AddBlock(BlockGroup(pid, 0, [], [], []), x, y, z)];
      Partition(r) && Cells(r) == Cells(gs) + multiset{(pid, x, y, z)} && Size(r) == Size(gs) + 1
      && Pids(r) == Pids(gs) + {pid} && pid !in Pids(gs)
  {
    var g := AddBlock(BlockGroup(pid, 0, [], [], []), x, y, z);
    AddBlockKeepsWellFormed(BlockGroup(pid, 0, [], [], []), x, y, z);
    assert g.count == 1 && CellsOf(g) == multiset{(pid, x, y, z)};
    PidsAre(gs);
    assert pid !in Pids(gs);
    AppendGroup(gs, g);
  }

  /** A new group of a new id adds its cells, its count and its id. */
  lemma {:induction false} AppendGroup(gs: seq<BlockGroup>, g: BlockGroup)
    requires Partition(gs) && g.WellFormed() && g.count > 0 && g.paletteId !in Pids(gs)
    ensures Partition(gs + [g]) && Pids(gs + [g]) == Pids(gs) + {g.paletteId}
    ensures Cells(gs + [g]) == Cells(gs) + CellsOf(g)
    ensures Size(gs + [g]) == Size(gs) + g.count as int
  {
    PartitionSnoc(gs, g);
    CellsSnoc(gs, g);
    SizeSnoc(gs, g);
  }

  /** Appending a non-empty well-formed group of a new id keeps a partition. */
  lemma {:induction false} PartitionSnoc(gs: seq<BlockGroup>, g: BlockGroup)
    requires Partition(gs) && g.WellFormed() && g.count > 0 && g.paletteId !in Pids(gs)
    ensures Partition(gs + [g]) && Pids(gs + [g]) == Pids(gs) + {g.paletteId}
  {
    var r := gs + [g];
    assert r[..|gs|] == gs;
    assert forall k :: 0 <= k < |gs| ==> r[k] == gs[k];
  }

  lemma {:induction false} CellsSnoc(gs: seq<BlockGroup>, g: BlockGroup)
    requires AllWellFormed(gs) && g.WellFormed()
    ensures Cells(gs + [g]) == Cells(gs) + CellsOf(g)
  {
    assert (gs + [g])[..|gs|] == gs;
  }

  /** The first group carrying `pid`, given one that does. */
  lemma {:induction false} FirstWith(gs: seq<BlockGroup>, pid: PaletteId, i: nat) returns (j: nat)
    requires i < |gs| && gs[i].paletteId == pid
    ensures j <= i && gs[j].paletteId == pid && forall k :: 0 <= k < j ==> gs[k].paletteId != pid
  {
    j := i;
    while j > 0 && exists k :: 0 <= k < j && gs[k].paletteId == pid
      invariant j <= i && gs[j].paletteId == pid
      decreases j
    {
      var k :| 0 <= k < j && gs[k].paletteId == pid;
      j := k;
    }
  }

  /** One group holds no more blocks than its partition. */
  lemma {:induction false} SizeAtLeast(gs: seq<BlockGroup>, j: nat)
    requires AllWellFormed(gs) && j < |gs|
    ensures |gs[j].x| <= Size(gs)
    decreases |gs|
  {
    var init := gs[..|gs| - 1];
    if j < |gs| - 1 {
      assert AllWellFormed(init) by {
        forall i | 0 <= i < |init| ensures init[i].WellFormed() { assert init[i] == gs[i]; }
      }
      assert init[j] == gs[j];
      SizeAtLeast(init, j);
    }
  }

  /** Replacing one group replaces its cells. */
  lemma {:induction false} ReplaceCells(gs: seq<BlockGroup>, j: nat, g: BlockGroup)
    requires AllWellFormed(gs) && j < |gs| && Aligned(g)
    ensures Cells(gs[j := g]) == Cells(gs) - CellsOf(gs[j]) + CellsOf(g)
  {
    var pre, post := gs[..j], gs[j + 1..];
    assert AllAligned(pre) && AllAligned(post) by {
      forall k | 0 <= k < |pre| ensures Aligned(pre[k]) { assert pre[k] == gs[k] && gs[k].WellFormed(); }
      forall k | 0 <= k < |post| ensures Aligned(post[k]) { assert post[k] == gs[j + 1 + k] && gs[j + 1 + k].WellFormed(); }
    }
    assert Aligned(gs[j]) by { assert gs[j].WellFormed(); }
    assert gs == pre + [gs[j]] + post;
    assert gs[j := g] == pre + [g] + post;
    CellsAround(pre, gs[j], post);
    CellsAround(pre, g, post);
  }

  lemma {:induction false} CellsAround(pre: seq<BlockGroup>, g: BlockGroup, post: seq<BlockGroup>)
    requires AllAligned(pre) && Aligned(g) && AllAligned(post)
    ensures Cells(pre + [g] + post) == Cells(pre) + CellsOf(g) + Cells(post)
  {
    CellsAppend(pre, [g]);
    CellsAppend(pre + [g], post);
    assert Cells([g]) == CellsOf(g) by { assert [g][..0] == []; }
  }

  // ---------------------------------------------------------------------------
  // From the cell multiset to the compressor's grids

  /** The coordinates the cells give palette id `pid`. */
  ghost function CoordsOf(m: multiset<Cell>, pid: PaletteId): set<RegionMerge.Cell> {
    set c | c in m && c.0 == pid :: (c.1 as int, c.2 as int, c.3 as int)
  }

  /** A cell is in a zip exactly when some position holds it. */
  lemma {:induction false} ZipMember(pid: PaletteId, xs: seq<Coord>, ys: seq<Coord>, zs: seq<Coord>, c: Cell)
    requires |xs| == |ys| == |zs|
    ensures c in Zip(pid, xs, ys, zs) <==> exists i :: 0 <= i < |xs| && c == (pid, xs[i], ys[i], zs[i])
    decreases |xs|
  {
    if xs != [] {
      ZipMember(pid, xs[1..], ys[1..], zs[1..], c);
      if c in Zip(pid, xs[1..], ys[1..], zs[1..]) {
        var i :| 0 <= i < |xs| - 1 && c == (pid, xs[1..][i], ys[1..][i], zs[1..][i]);
        assert c == (pid, xs[i + 1], ys[i + 1], zs[i + 1]);
      }
      if i :| 0 <= i < |xs| && c == (pid, xs[i], ys[i], zs[i]) {
        if i > 0 {
          assert c == (pid, xs[1..][i - 1], ys[1..][i - 1], zs[1..][i - 1]);
        }
      }
    }
  }

  /** A group's compressor grid is the coordinates of its cells. */
  lemma {:induction false} GroupCellsAreCells(g: BlockGroup, c: RegionMerge.Cell)
    requires g.WellFormed()
    ensures c in RegionMerge.GroupCells(g, g.count as int)
        <==> c in CoordsOf(CellsOf(g), g.paletteId)
  {
    var n := g.count as int;
    if c in RegionMerge.GroupCells(g, n) {
      var i :| 0 <= i < n && RegionMerge.CellAt(g, i) == c;
      ZipMember(g.paletteId, g.x, g.y, g.z, (g.paletteId, g.x[i], g.y[i], g.z[i]));
      assert (g.paletteId, g.x[i], g.y[i], g.z[i]) in CellsOf(g);
    }
    if c in CoordsOf(CellsOf(g), g.paletteId) {
      var d :| d in CellsOf(g) && d.0 == g.paletteId && c == (d.1 as int, d.2 as int, d.3 as int);
      ZipMember(g.paletteId, g.x, g.y, g.z, d);
      var i :| 0 <= i < |g.x| && d == (g.paletteId, g.x[i], g.y[i], g.z[i]);
      assert RegionMerge.CellAt(g, i) == c;
    }
  }

  /** The cells of another palette id contribute no coordinates. */
  lemma {:induction false} OtherCells(g: BlockGroup, pid: PaletteId)
    requires g.WellFormed() && g.paletteId != pid
    ensures CoordsOf(CellsOf(g), pid) == {}
  {
    forall c | c in CoordsOf(CellsOf(g), pid) ensures false {
      var d :| d in CellsOf(g) && d.0 == pid && c == (d.1 as int, d.2 as int, d.3 as int);
      ZipMember(g.paletteId, g.x, g.y, g.z, d);
    }
  }

  lemma {:induction false} CoordsOfUnion(a: multiset<Cell>, b: multiset<Cell>, pid: PaletteId)
    ensures CoordsOf(a + b, pid) == CoordsOf(a, pid) + CoordsOf(b, pid)
  {
  }

  lemma {:induction false} AllIndexableOf(gs: seq<BlockGroup>)
    requires AllWellFormed(gs)
    ensures RegionMerge.AllIndexable(gs)
  {
    forall i | 0 <= i < |gs| ensures gs[i].Indexable() { assert gs[i].WellFormed(); }
  }

  /** The grid the compressor builds for `pid` is the set of coordinates of the
      cells with that id: duplicates collapse, nothing else is added. */
  lemma {:induction false} GridOfIsCells(gs: seq<BlockGroup>, pid: PaletteId)
    requires AllWellFormed(gs)
    ensures RegionMerge.AllIndexable(gs)
    ensures RegionMerge.GridOf(gs, pid) == CoordsOf(Cells(gs), pid)
    decreases |gs|
  {
    AllIndexableOf(gs);
    if gs != [] {
      var init, g := gs[..|gs| - 1], gs[|gs| - 1];
      assert AllWellFormed(init) by {
        forall i | 0 <= i < |init| ensures init[i].WellFormed() { assert init[i] == gs[i]; }
      }
      GridOfIsCells(init, pid);
      CoordsOfUnion(Cells(init), CellsOf(g), pid);
      if g.paletteId == pid {
        forall c ensures c in RegionMerge.GroupCells(g, g.count as int) <==> c in CoordsOf(CellsOf(g), pid) {
          GroupCellsAreCells(g, c);
        }
      } else {
        OtherCells(g, pid);
      }
    }
  }

  /** Cells below the compressor's limit make groups below it. */
  lemma {:induction false} BelowMaxOfCells(gs: seq<BlockGroup>)
    requires AllWellFormed(gs)
    requires forall c :: c in Cells(gs) ==> c.1 < 0x7FFF && c.2 < 0x7FFF && c.3 < 0x7FFF
    ensures RegionMerge.BelowMax(gs)
  {
    forall k, i | 0 <= k < |gs| && 0 <= i < gs[k].count as int && i < |gs[k].x| && i < |gs[k].y| && i < |gs[k].z|
      ensures gs[k].x[i] < 0x7FFF && gs[k].y[i] < 0x7FFF && gs[k].z[i] < 0x7FFF
    {
      var g := gs[k];
      assert g.WellFormed();
      ZipMember(g.paletteId, g.x, g.y, g.z, (g.paletteId, g.x[i], g.y[i], g.z[i]));
      CellsHas(gs, k);
    }
  }

  /** Every group's cells are among the partition's. */
  lemma {:induction false} CellsHas(gs: seq<BlockGroup>, k: nat)
    requires AllWellFormed(gs) && k < |gs|
    ensures CellsOf(gs[k]) <= Cells(gs)
    decreases |gs|
  {
    var init := gs[..|gs| - 1];
    if k < |gs| - 1 {
      assert AllWellFormed(init) by {
        forall i | 0 <= i < |init| ensures init[i].WellFormed() { assert init[i] == gs[i]; }
      }
      assert init[k] == gs[k];
      CellsHas(init, k);
    }
  }
}

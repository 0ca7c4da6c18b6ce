/** BlockUtils.hpp: building a block group, its spill-file record, and the
    per-palette merge of a list of groups. */
module BlockGroups {
  import opened Wrappers
  import opened LittleEndian
  import opened Structs

  /** One stored cell: palette id and position. */
  type Cell = (PaletteId, Coord, Coord, Coord)

  /** The coordinate vectors have the same length (the count may still wrap). */
  predicate Aligned(g: BlockGroup) {
    |g.x| == |g.y| == |g.z|
  }

  /** `BlockUtils::addBlock`: pushes the position onto the three vectors and sets
      the count to the new length, cast to 32 bits. */
  function AddBlock(bg: BlockGroup, x: Coord, y: Coord, z: Coord): (r: BlockGroup)
    ensures r.paletteId == bg.paletteId
    ensures |r.x| == |bg.x| + 1 && r.x[..|bg.x|] == bg.x && r.x[|bg.x|] == x
    ensures |r.y| == |bg.y| + 1 && r.y[..|bg.y|] == bg.y && r.y[|bg.y|] == y
    ensures |r.z| == |bg.z| + 1 && r.z[..|bg.z|] == bg.z && r.z[|bg.z|] == z
    ensures r.count as int == (|bg.x| + 1) % 0x1_0000_0000
  {
    BlockGroup(bg.paletteId, WrapU32(|bg.x| + 1), bg.x + [x], bg.y + [y], bg.z + [z])
  }

  /** Adding to a well-formed group keeps it well formed while the count fits. */
  lemma {:induction false} AddBlockKeepsWellFormed(bg: BlockGroup, x: Coord, y: Coord, z: Coord)
    requires bg.WellFormed() && |bg.x| + 1 < 0x1_0000_0000
    ensures AddBlock(bg, x, y, z).WellFormed()
    ensures CellsOf(AddBlock(bg, x, y, z)) == CellsOf(bg) + multiset{(bg.paletteId, x, y, z)}
  {
    ZipAppend(bg.paletteId, bg.x, bg.y, bg.z, [x], [y], [z]);
  }

  // ---------------------------------------------------------------------------
  // Cells as a multiset

  /** The cells at the positions all three vectors have. */
  function Zip(pid: PaletteId, xs: seq<Coord>, ys: seq<Coord>, zs: seq<Coord>): (m: multiset<Cell>)
    ensures |xs| == |ys| == |zs| ==> |m| == |xs|
  {
    if xs == [] || ys == [] || zs == [] then multiset{}
    else multiset{(pid, xs[0], ys[0], zs[0])} + Zip(pid, xs[1..], ys[1..], zs[1..])
  }

  lemma {:induction false} ZipAppend(pid: PaletteId, xs: seq<Coord>, ys: seq<Coord>, zs: seq<Coord>,
                                     xs': seq<Coord>, ys': seq<Coord>, zs': seq<Coord>)
    requires |xs| == |ys| == |zs| && |xs'| == |ys'| == |zs'|
    ensures Zip(pid, xs + xs', ys + ys', zs + zs') == Zip(pid, xs, ys, zs) + Zip(pid, xs', ys', zs')
    decreases |xs|
  {
    if xs == [] {
      assert xs + xs' == xs' && ys + ys' == ys' && zs + zs' == zs';
    } else {
      assert (xs + xs')[1..] == xs[1..] + xs';
      assert (ys + ys')[1..] == ys[1..] + ys';
      assert (zs + zs')[1..] == zs[1..] + zs';
      ZipAppend(pid, xs[1..], ys[1..], zs[1..], xs', ys', zs');
    }
  }

  /** The cells a group stores. */
  function CellsOf(g: BlockGroup): (m: multiset<Cell>)
  {
    Zip(g.paletteId, g.x, g.y, g.z)
  }

  predicate AllAligned(gs: seq<BlockGroup>) {
    forall i :: 0 <= i < |gs| ==> Aligned(gs[i])
  }

  /** The cells of a list of groups, counted with multiplicity. */
  function Cells(gs: seq<BlockGroup>): (m: multiset<Cell>)
  {
    if gs == [] then multiset{} else Cells(gs[..|gs| - 1]) + CellsOf(gs[|gs| - 1])
  }

  lemma {:induction false} CellsAppend(gs: seq<BlockGroup>, hs: seq<BlockGroup>)
    requires AllAligned(gs) && AllAligned(hs)
    ensures AllAligned(gs + hs) && Cells(gs + hs) == Cells(gs) + Cells(hs)
    decreases |hs|
  {
    assert AllAligned(gs + hs) by {
      forall i | 0 <= i < |gs + hs| ensures Aligned((gs + hs)[i]) {
        if i >= |gs| { assert (gs + hs)[i] == hs[i - |gs|]; }
      }
    }
    if hs == [] {
      assert gs + hs == gs;
    } else {
      var hs0 := hs[..|hs| - 1];
      assert (gs + hs)[..|gs + hs| - 1] == gs + hs0;
      CellsAppend(gs, hs0);
    }
  }

  // ---------------------------------------------------------------------------
  // Spill record: u32 paletteId, u32 count, count x (i16 x, i16 y, i16 z)

  function WriteCell(x: Coord, y: Coord, z: Coord): (r: Bytes)
    ensures |r| == 6
  {
    WriteI16(x) + WriteI16(y) + WriteI16(z)
  }

  function CoordBytes(xs: seq<Coord>, ys: seq<Coord>, zs: seq<Coord>): (r: Bytes)
    requires |xs| == |ys| == |zs|
    ensures |r| == 6 * |xs|
  {
    if xs == [] then [] else WriteCell(xs[0], ys[0], zs[0]) + CoordBytes(xs[1..], ys[1..], zs[1..])
  }

  /** `writeBlockGroup`: the first `count` cells are written. */
  function WriteBlockGroup(bg: BlockGroup): (r: Bytes)
    requires bg.count as int <= |bg.x| && bg.count as int <= |bg.y| && bg.count as int <= |bg.z|
    ensures |r| == 8 + 6 * bg.count as int
  {
    var n := bg.count as int;
    WriteU32(bg.paletteId) + WriteU32(bg.count) + CoordBytes(bg.x[..n], bg.y[..n], bg.z[..n])
  }

  function ReadCell(s: Bytes, pos: nat): (r: Option<(Coord, Coord, Coord, nat)>)
    ensures r.Some? ==> r.value.3 == pos + 6
  {
    match ReadI16(s, pos)
    case None => None
    case Some((x, p1)) =>
      match ReadI16(s, p1)
      case None => None
      case Some((y, p2)) =>
        match ReadI16(s, p2)
        case None => None
        case Some((z, p3)) => Some((x, y, z, p3))
  }

  lemma {:induction false} ReadCellAt(s: Bytes, pos: nat, x: Coord, y: Coord, z: Coord)
    requires pos + 6 <= |s| && s[pos..pos + 6] == WriteCell(x, y, z)
    ensures ReadCell(s, pos) == Some((x, y, z, pos + 6))
  {
    Slice3(WriteI16(x), WriteI16(y), WriteI16(z));
    SliceOfSlice(s, pos, 6, 0, 2);
    SliceOfSlice(s, pos, 6, 2, 4);
    SliceOfSlice(s, pos, 6, 4, 6);
    ReadI16At(s, pos, x);
    ReadI16At(s, pos + 2, y);
    ReadI16At(s, pos + 4, z);
  }

  function ReadCoords(s: Bytes, pos: nat, n: nat): (r: Option<(seq<Coord>, seq<Coord>, seq<Coord>, nat)>)
    ensures r.Some? ==> |r.value.0| == |r.value.1| == |r.value.2| == n && r.value.3 == pos + 6 * n
    decreases n
  {
    if n == 0 then Some(([], [], [], pos))
    else match ReadCell(s, pos)
      case None => None
      case Some((x, y, z, p)) =>
        match ReadCoords(s, p, n - 1)
        case None => None
        case Some((xs, ys, zs, p2)) => Some(([x] + xs, [y] + ys, [z] + zs, p2))
  }

  /** `readBlockGroup`; `None` when the stream ends inside the record. */
  function ReadBlockGroup(s: Bytes, pos: nat): (r: Option<(BlockGroup, nat)>)
    ensures r.Some? ==> r.value.0.WellFormed() && r.value.1 == pos + 8 + 6 * r.value.0.count as int
  {
    match ReadU32(s, pos)
    case None => None
    case Some((pid, p1)) =>
      match ReadU32(s, p1)
      case None => None
      case Some((count, p2)) =>
        match ReadCoords(s, p2, count)
        case None => None
        case Some((xs, ys, zs, p3)) => Some((BlockGroup(pid, count, xs, ys, zs), p3))
  }

  lemma {:induction false} ReadCoordsAt(s: Bytes, pos: nat, xs: seq<Coord>, ys: seq<Coord>, zs: seq<Coord>)
    requires |xs| == |ys| == |zs|
    requires pos + 6 * |xs| <= |s| && s[pos..pos + 6 * |xs|] == CoordBytes(xs, ys, zs)
    ensures ReadCoords(s, pos, |xs|) == Some((xs, ys, zs, pos + 6 * |xs|))
    decreases |xs|
  {
    if xs != [] {
      CoordsHeadAt(s, pos, xs, ys, zs);
      ReadCoordsAt(s, pos + 6, xs[1..], ys[1..], zs[1..]);
      ReadCoordsStep(s, pos, |xs|, xs, ys, zs, pos + 6 + 6 * |xs[1..]|);
    } else {
      assert ys == [] && zs == [];
    }
  }

  /** The first cell of a coordinate run, and where the rest lies. */
  lemma {:induction false} CoordsHeadAt(s: Bytes, pos: nat, xs: seq<Coord>, ys: seq<Coord>, zs: seq<Coord>)
    requires |xs| == |ys| == |zs| && xs != []
    requires pos + 6 * |xs| <= |s| && s[pos..pos + 6 * |xs|] == CoordBytes(xs, ys, zs)
    ensures ReadCell(s, pos) == Some((xs[0], ys[0], zs[0], pos + 6))
    ensures pos + 6 + 6 * |xs[1..]| <= |s|
    ensures s[pos + 6..pos + 6 + 6 * |xs[1..]|] == CoordBytes(xs[1..], ys[1..], zs[1..])
  {
    var n := |xs|;
    var xt, yt, zt := xs[1..], ys[1..], zs[1..];
    SplitAt(s, pos, pos + 6, pos + 6 * n, WriteCell(xs[0], ys[0], zs[0]), CoordBytes(xt, yt, zt));
    ReadCellAt(s, pos, xs[0], ys[0], zs[0]);
    SliceEq(s, pos + 6, pos + 6 * n, pos + 6 + 6 * |xt|);
  }

  lemma {:induction false} ReadCoordsStep(s: Bytes, pos: nat, n: nat, xs: seq<Coord>, ys: seq<Coord>, zs: seq<Coord>, end: nat)
    requires n > 0 && |xs| == |ys| == |zs| == n
    requires ReadCell(s, pos) == Some((xs[0], ys[0], zs[0], pos + 6))
    requires ReadCoords(s, pos + 6, |xs[1..]|) == Some((xs[1..], ys[1..], zs[1..], end))
    ensures ReadCoords(s, pos, n) == Some((xs, ys, zs, end))
  {
    assert [xs[0]] + xs[1..] == xs && [ys[0]] + ys[1..] == ys && [zs[0]] + zs[1..] == zs;
  }

  /** A well-formed group is read back unchanged from its record, which is
      8 + 6 * count bytes long. */
  lemma {:induction false} ReadBlockGroupAt(s: Bytes, pos: nat, bg: BlockGroup)
    requires bg.WellFormed()
    requires pos + 8 + 6 * bg.count as int <= |s|
    requires s[pos..pos + 8 + 6 * bg.count as int] == WriteBlockGroup(bg)
    ensures ReadBlockGroup(s, pos) == Some((bg, pos + 8 + 6 * bg.count as int))
  {
    GroupFieldsAt(s, pos, bg);
    ReadU32At(s, pos, bg.paletteId);
    ReadU32At(s, pos + 4, bg.count);
    ReadCoordsAt(s, pos + 8, bg.x, bg.y, bg.z);
  }

  lemma {:induction false} GroupFieldsAt(s: Bytes, pos: nat, bg: BlockGroup)
    requires bg.WellFormed()
    requires pos + 8 + 6 * bg.count as int <= |s|
    requires s[pos..pos + 8 + 6 * bg.count as int] == WriteBlockGroup(bg)
    ensures s[pos..pos + 4] == WriteU32(bg.paletteId) && s[pos + 4..pos + 8] == WriteU32(bg.count)
    ensures s[pos + 8..pos + 8 + 6 * |bg.x|] == CoordBytes(bg.x, bg.y, bg.z)
  {
    var n := bg.count as int;
    assert bg.x[..n] == bg.x && bg.y[..n] == bg.y && bg.z[..n] == bg.z;
    var cells := CoordBytes(bg.x, bg.y, bg.z);
    SplitAt(s, pos, pos + 8, pos + 8 + 6 * n, WriteU32(bg.paletteId) + WriteU32(bg.count), cells);
    SplitAt(s, pos, pos + 4, pos + 8, WriteU32(bg.paletteId), WriteU32(bg.count));
  }

  lemma {:induction false} ReadBlockGroupOfWritten(p: Bytes, bg: BlockGroup, q: Bytes)
    requires bg.WellFormed()
    ensures ReadBlockGroup(p + WriteBlockGroup(bg) + q, |p|) == Some((bg, |p| + 8 + 6 * bg.count as int))
  {
    SliceMiddle(p, WriteBlockGroup(bg), q);
    ReadBlockGroupAt(p + WriteBlockGroup(bg) + q, |p|, bg);
  }

  // ---------------------------------------------------------------------------
  // MergeUtils::mergeBlockGroups

  function Pids(gs: seq<BlockGroup>): (ks: set<PaletteId>)
    ensures forall i :: 0 <= i < |gs| ==> gs[i].paletteId in ks
  {
    if gs == [] then {} else Pids(gs[..|gs| - 1]) + {gs[|gs| - 1].paletteId}
  }

  /** The coordinates of palette `k`, in input order. */
  function XsOf(gs: seq<BlockGroup>, k: PaletteId): seq<Coord>
  {
    if gs == [] then []
    else XsOf(gs[..|gs| - 1], k) + (if gs[|gs| - 1].paletteId == k then gs[|gs| - 1].x else [])
  }

  function YsOf(gs: seq<BlockGroup>, k: PaletteId): seq<Coord>
  {
    if gs == [] then []
    else YsOf(gs[..|gs| - 1], k) + (if gs[|gs| - 1].paletteId == k then gs[|gs| - 1].y else [])
  }

  function ZsOf(gs: seq<BlockGroup>, k: PaletteId): seq<Coord>
  {
    if gs == [] then []
    else ZsOf(gs[..|gs| - 1], k) + (if gs[|gs| - 1].paletteId == k then gs[|gs| - 1].z else [])
  }

  /** The merged group of palette `k`: all its input vectors concatenated in
      input order, with the count of the result. */
  function Merged(gs: seq<BlockGroup>, k: PaletteId): (g: BlockGroup)
    ensures g.paletteId == k
  {
    BlockGroup(k, WrapU32(|XsOf(gs, k)|), XsOf(gs, k), YsOf(gs, k), ZsOf(gs, k))
  }

  lemma {:induction false} MergedAbsent(gs: seq<BlockGroup>, k: PaletteId)
    requires k !in Pids(gs)
    ensures XsOf(gs, k) == [] && YsOf(gs, k) == [] && ZsOf(gs, k) == []
    decreases |gs|
  {
    if gs != [] {
      MergedAbsent(gs[..|gs| - 1], k);
    }
  }

  lemma {:induction false} MergedAligned(gs: seq<BlockGroup>, k: PaletteId)
    requires AllAligned(gs)
    ensures Aligned(Merged(gs, k))
    decreases |gs|
  {
    if gs != [] {
      MergedAligned(gs[..|gs| - 1], k);
    }
  }

  predicate DistinctPids(gs: seq<BlockGroup>) {
    forall i, j :: 0 <= i < j < |gs| ==> gs[i].paletteId != gs[j].paletteId
  }

  /** The first loop of mergeBlockGroups: the hash map from palette id to the
      group collecting that id's cells. */
  method GroupByPalette(groups: seq<BlockGroup>) returns (merged: map<PaletteId, BlockGroup>)
    ensures merged.Keys == Pids(groups)
    ensures forall k :: k in merged ==> merged[k] == Merged(groups, k)
  {
    merged := map[];
    var n := 0;
    while n < |groups|
      invariant 0 <= n <= |groups|
      invariant merged.Keys == Pids(groups[..n])
      invariant forall k :: k in merged ==> merged[k] == Merged(groups[..n], k)
    {
      var bg := groups[n];
      if bg.paletteId !in merged { MergedAbsent(groups[..n], bg.paletteId); }
      var target := if bg.paletteId in merged then merged[bg.paletteId]
                    else BlockGroup(bg.paletteId, 0, [], [], []);
      var tx, ty, tz := target.x + bg.x, target.y + bg.y, target.z + bg.z;
      merged := merged[bg.paletteId := BlockGroup(bg.paletteId, WrapU32(|tx|), tx, ty, tz)];
      assert groups[..n + 1][..n] == groups[..n];
      n := n + 1;
    }
    assert groups[..n] == groups;
  }

  /** The second loop: the map's values, in iteration order. */
  method MapValues(merged: map<PaletteId, BlockGroup>) returns (result: seq<BlockGroup>)
    requires forall k :: k in merged ==> merged[k].paletteId == k
    ensures DistinctPids(result)
    ensures forall i :: 0 <= i < |result| ==> result[i].paletteId in merged && result[i] == merged[result[i].paletteId]
    ensures forall k :: k in merged <==> exists i :: 0 <= i < |result| && result[i].paletteId == k
  {
    var keys := merged.Keys;
    result := [];
    while keys != {}
      invariant keys <= merged.Keys
      invariant DistinctPids(result)
      invariant forall i :: 0 <= i < |result| ==> result[i].paletteId in merged.Keys - keys
      invariant forall i :: 0 <= i < |result| ==> result[i] == merged[result[i].paletteId]
      invariant forall k :: k in merged.Keys - keys ==> exists i :: 0 <= i < |result| && result[i].paletteId == k
      decreases |keys|
    {
      var k :| k in keys;
      ghost var before, keys0 := result, keys;
      result := result + [merged[k]];
      keys := keys - {k};
      forall k' | k' in merged.Keys - keys
        ensures exists i :: 0 <= i < |result| && result[i].paletteId == k'
      {
        if k' == k {
          assert result[|before|].paletteId == k';
        } else {
          assert k' in merged.Keys - keys0;
          var i :| 0 <= i < |before| && before[i].paletteId == k';
          assert result[i] == before[i];
        }
      }
    }
    assert merged.Keys - keys == merged.Keys;
    forall k ensures k in merged <==> exists i :: 0 <= i < |result| && result[i].paletteId == k {
      if k in merged {
        assert k in merged.Keys - keys;
      }
    }
  }

  /** One group per palette id of the input, each holding that id's cells in
      input order, so every input cell is kept. The order of the result follows
      the hash map's iteration and is left open. */
  method MergeBlockGroups(groups: seq<BlockGroup>) returns (result: seq<BlockGroup>)
    ensures DistinctPids(result)
    ensures forall i :: 0 <= i < |result| ==> result[i] == Merged(groups, result[i].paletteId)
    ensures forall k :: k in Pids(groups) <==> exists i :: 0 <= i < |result| && result[i].paletteId == k
    ensures AllAligned(groups) ==> AllAligned(result) && Cells(result) == Cells(groups)
  {
    var merged := GroupByPalette(groups);
    result := MapValues(merged);
    if AllAligned(groups) {
      MergePreservesCells(groups, result);
    }
  }

  /** The palette ids of a list of groups, in order. */
  function PidList(gs: seq<BlockGroup>): (ks: seq<PaletteId>)
    ensures |ks| == |gs| && forall i :: 0 <= i < |gs| ==> ks[i] == gs[i].paletteId
  {
    if gs == [] then [] else PidList(gs[..|gs| - 1]) + [gs[|gs| - 1].paletteId]
  }

  /** The cells of the merged groups of the ids in `order`. */
  function MergedCells(gs: seq<BlockGroup>, order: seq<PaletteId>): (m: multiset<Cell>)
  {
    if order == [] then multiset{}
    else CellsOf(Merged(gs, order[0])) + MergedCells(gs, order[1..])
  }

  /** One more input group adds its cells to the merged group of its id only. */
  lemma {:induction false} MergedSnocOne(gs: seq<BlockGroup>, g: BlockGroup, k: PaletteId)
    requires AllAligned(gs) && Aligned(g)
    ensures CellsOf(Merged(gs + [g], k))
         == CellsOf(Merged(gs, k)) + (if g.paletteId == k then CellsOf(g) else multiset{})
  {
    var gs' := gs + [g];
    assert gs'[..|gs'| - 1] == gs;
    MergedAligned(gs, k);
    if g.paletteId == k {
      ZipAppend(k, XsOf(gs, k), YsOf(gs, k), ZsOf(gs, k), g.x, g.y, g.z);
    } else {
      assert XsOf(gs', k) == XsOf(gs, k) && YsOf(gs', k) == YsOf(gs, k) && ZsOf(gs', k) == ZsOf(gs, k);
    }
  }

  predicate Distinct(order: seq<PaletteId>) {
    forall i, j :: 0 <= i < j < |order| ==> order[i] != order[j]
  }

  /** Adding `e` to at most one of two parts adds it to their sum. */
  lemma {:induction false} AddToOne(a: multiset<Cell>, b: multiset<Cell>, e: multiset<Cell>, inA: bool, inB: bool)
    requires !(inA && inB)
    ensures (a + (if inA then e else multiset{})) + (b + (if inB then e else multiset{}))
         == (a + b) + (if inA || inB then e else multiset{})
  {
  }

  lemma {:induction false} DistinctCons(order: seq<PaletteId>)
    requires Distinct(order) && order != []
    ensures Distinct(order[1..])
    ensures forall p :: p in order <==> p == order[0] || p in order[1..]
    ensures order[0] !in order[1..]
  {
    var tail := order[1..];
    assert order == [order[0]] + tail;
    forall i, j | 0 <= i < j < |tail| ensures tail[i] != tail[j] {
      assert tail[i] == order[i + 1] && tail[j] == order[j + 1];
    }
    forall j | 0 <= j < |tail| ensures tail[j] != order[0] {
      assert tail[j] == order[j + 1];
    }
  }

  lemma {:induction false} MergedCellsSnoc(gs: seq<BlockGroup>, g: BlockGroup, order: seq<PaletteId>)
    requires AllAligned(gs) && Aligned(g) && Distinct(order)
    ensures MergedCells(gs + [g], order)
         == MergedCells(gs, order) + (if g.paletteId in order then CellsOf(g) else multiset{})
    decreases |order|
  {
    if order != [] {
      var k, tail := order[0], order[1..];
      DistinctCons(order);
      MergedSnocOne(gs, g, k);
      MergedCellsSnoc(gs, g, tail);
      AddToOne(CellsOf(Merged(gs, k)), MergedCells(gs, tail), CellsOf(g), g.paletteId == k, g.paletteId in tail);
    }
  }

  lemma {:induction false} MergedCellsEmpty(order: seq<PaletteId>)
    ensures MergedCells([], order) == multiset{}
    decreases |order|
  {
    if order != [] {
      MergedAbsent([], order[0]);
      MergedCellsEmpty(order[1..]);
    }
  }

  /** Summing the merged groups over any duplicate-free list of ids containing
      every input id gives back every input cell, each as often as it occurs. */
  lemma {:induction false} MergedCellsComplete(gs: seq<BlockGroup>, order: seq<PaletteId>)
    requires AllAligned(gs) && Distinct(order)
    requires forall k :: k in Pids(gs) ==> k in order
    ensures MergedCells(gs, order) == Cells(gs)
    decreases |gs|
  {
    if gs == [] {
      MergedCellsEmpty(order);
    } else {
      var init, g := gs[..|gs| - 1], gs[|gs| - 1];
      assert gs == init + [g];
      assert AllAligned(init) by {
        forall i | 0 <= i < |init| ensures Aligned(init[i]) { assert init[i] == gs[i]; }
      }
      MergedCellsComplete(init, order);
      MergedCellsSnoc(init, g, order);
      assert g.paletteId in order;
    }
  }

  lemma {:induction false} MergedCellsAppend(gs: seq<BlockGroup>, a: seq<PaletteId>, b: seq<PaletteId>)
    requires AllAligned(gs)
    ensures MergedCells(gs, a + b) == MergedCells(gs, a) + MergedCells(gs, b)
    decreases |a|
  {
    if a == [] {
      assert a + b == b;
    } else {
      assert (a + b)[1..] == a[1..] + b;
      MergedCellsAppend(gs, a[1..], b);
    }
  }

  lemma {:induction false} CellsOfMergedResult(gs: seq<BlockGroup>, result: seq<BlockGroup>)
    requires AllAligned(gs)
    requires forall i :: 0 <= i < |result| ==> result[i] == Merged(gs, result[i].paletteId)
    ensures AllAligned(result)
    ensures Cells(result) == MergedCells(gs, PidList(result))
    decreases |result|
  {
    assert AllAligned(result) by {
      forall i | 0 <= i < |result| ensures Aligned(result[i]) { MergedAligned(gs, result[i].paletteId); }
    }
    if result != [] {
      var init, last := result[..|result| - 1], result[|result| - 1];
      CellsOfMergedResult(gs, init);
      MergedCellsAppend(gs, PidList(init), [last.paletteId]);
      assert [last.paletteId][1..] == [];
    }
  }

  /** The merge keeps every cell: the result stores exactly the input's
      (paletteId, x, y, z) cells with their multiplicities, so the total count
      is preserved. */
  lemma {:induction false} MergePreservesCells(groups: seq<BlockGroup>, result: seq<BlockGroup>)
    requires AllAligned(groups)
    requires DistinctPids(result)
    requires forall i :: 0 <= i < |result| ==> result[i] == Merged(groups, result[i].paletteId)
    requires forall k :: k in Pids(groups) ==> exists i :: 0 <= i < |result| && result[i].paletteId == k
    ensures AllAligned(result)
    ensures Cells(result) == Cells(groups)
    ensures |Cells(result)| == |Cells(groups)|
  {
    CellsOfMergedResult(groups, result);
    var order := PidList(result);
    assert forall k :: k in Pids(groups) ==> k in order by {
      forall k | k in Pids(groups) ensures k in order {
        var i :| 0 <= i < |result| && result[i].paletteId == k;
        assert order[i] == k;
      }
    }
    MergedCellsComplete(groups, order);
  }
}

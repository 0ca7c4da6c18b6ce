/** mergeAllCacheFiles of the latest cached writer
    (Writer/BCFCachedWriter.hpp): the spill files, visited in ascending
    partition order, become the records of a version-4 container. Each file is
    read back, its groups merged per palette id and compressed into boxes; the
    header carries the world size the spilled partitions span, and the tables
    follow the records. */
module CacheMerge {
  import opened Wrappers
  import opened LittleEndian
  import opened StringCodec
  import opened Structs
  import opened BlockGroups
  import opened Records
  import opened Spill
  import opened Partitions
  import RegionMerge
  import RegionMergeSix
  import opened SubChunks
  import opened Tables
  import opened Container

  // ---------------------------------------------------------------------------
  // Ascending key order (the iteration order of std::map)

  predicate Increasing(ks: seq<I32>) {
    forall i, j :: 0 <= i < j < |ks| ==> ks[i] < ks[j]
  }

  /** The least key of a non-empty key set. */
  method Least(s: set<I32>) returns (m: I32)
    requires s != {}
    ensures m in s && forall k :: k in s ==> m <= k
  {
    m :| m in s;
    var rest := s - {m};
    while rest != {}
      invariant rest <= s && m in s
      invariant forall k :: k in s && k !in rest ==> m <= k
      decreases |rest|
    {
      var k :| k in rest;
      if k < m {
        m := k;
      }
      rest := rest - {k};
    }
  }

  /** The keys of a std::map in the order its iterators visit them. */
  method AscendingKeys(s: set<I32>) returns (ks: seq<I32>)
    ensures Increasing(ks)
    ensures forall k :: k in s <==> k in ks
  {
    ks := [];
    var rest := s;
    while rest != {}
      invariant rest <= s && Increasing(ks)
      invariant forall k :: k in s <==> k in ks || k in rest
      invariant forall i, k :: 0 <= i < |ks| && k in rest ==> ks[i] < k
      invariant forall k :: k in ks ==> k !in rest
      decreases |rest|
    {
      var m := Least(rest);
      ks := ks + [m];
      rest := rest - {m};
    }
  }

  /** An increasing sequence of 32-bit keys has fewer than 2^32 elements. */
  lemma {:induction false} IncreasingShort(ks: seq<I32>)
    requires Increasing(ks)
    ensures |ks| <= 0x1_0000_0000
  {
    if |ks| > 0x1_0000_0000 {
      SpreadOut(ks, 0x1_0000_0000);
      assert false;
    }
  }

  lemma {:induction false} SpreadOut(ks: seq<I32>, n: nat)
    requires Increasing(ks) && n < |ks|
    ensures ks[n] >= ks[0] + n
    decreases n
  {
    if n > 0 {
      SpreadOut(ks, n - 1);
    }
  }

  // ---------------------------------------------------------------------------
  // The world size written into the header

  /** The least of some values, INT_MAX for none. */
  function Lowest(vs: seq<int>): (m: int)
    ensures m <= 0x7FFF_FFFF
  {
    if vs == [] then 0x7FFF_FFFF
    else var m := Lowest(vs[..|vs| - 1]); if vs[|vs| - 1] < m then vs[|vs| - 1] else m
  }

  /** The greatest of some values, INT_MIN for none. */
  function Highest(vs: seq<int>): (m: int)
    ensures m >= -0x8000_0000
  {
    if vs == [] then -0x8000_0000
    else var m := Highest(vs[..|vs| - 1]); if vs[|vs| - 1] > m then vs[|vs| - 1] else m
  }

  /** Of values within the 32-bit range, Lowest is the minimum and Highest the
      maximum. */
  lemma {:induction false} ExtremesAre(vs: seq<int>)
    requires vs != [] && forall i :: 0 <= i < |vs| ==> -0x8000_0000 <= vs[i] <= 0x7FFF_FFFF
    ensures Lowest(vs) in vs && forall i :: 0 <= i < |vs| ==> Lowest(vs) <= vs[i]
    ensures Highest(vs) in vs && forall i :: 0 <= i < |vs| ==> vs[i] <= Highest(vs)
    decreases |vs|
  {
    var init := vs[..|vs| - 1];
    if init != [] {
      ExtremesAre(init);
      forall i | 0 <= i < |vs| - 1 ensures vs[i] == init[i] { }
    }
  }

  /** The column of each key, across and along. */
  function XColumns(ks: seq<I32>): (cs: seq<int>)
    ensures |cs| == |ks| && forall i :: 0 <= i < |ks| ==> cs[i] == ColumnX(ks[i])
  {
    seq(|ks|, i requires 0 <= i < |ks| => ColumnX(ks[i]))
  }

  function ZColumns(ks: seq<I32>): (cs: seq<int>)
    ensures |cs| == |ks| && forall i :: 0 <= i < |ks| ==> cs[i] == ColumnZ(ks[i])
  {
    seq(|ks|, i requires 0 <= i < |ks| => ColumnZ(ks[i]))
  }

  /** The bounds loop of mergeAllCacheFiles over the spilled partitions. */
  method ColumnExtent(ks: seq<I32>) returns (minX: int, maxX: int, minZ: int, maxZ: int)
    ensures minX == Lowest(XColumns(ks)) && maxX == Highest(XColumns(ks))
    ensures minZ == Lowest(ZColumns(ks)) && maxZ == Highest(ZColumns(ks))
  {
    minX, maxX, minZ, maxZ := 0x7FFF_FFFF, -0x8000_0000, 0x7FFF_FFFF, -0x8000_0000;
    var i := 0;
    while i < |ks|
      invariant 0 <= i <= |ks|
      invariant minX == Lowest(XColumns(ks)[..i]) && maxX == Highest(XColumns(ks)[..i])
      invariant minZ == Lowest(ZColumns(ks)[..i]) && maxZ == Highest(ZColumns(ks)[..i])
    {
      ColumnsNext(ks, i);
      var cx, cz := ColumnX(ks[i]), ColumnZ(ks[i]);
      minX := if cx < minX then cx else minX;
      maxX := if cx > maxX then cx else maxX;
      minZ := if cz < minZ then cz else minZ;
      maxZ := if cz > maxZ then cz else maxZ;
      i := i + 1;
    }
    assert XColumns(ks)[..i] == XColumns(ks) && ZColumns(ks)[..i] == ZColumns(ks);
  }

  lemma {:induction false} ColumnsNext(ks: seq<I32>, i: nat)
    requires i < |ks|
    ensures XColumns(ks)[..i + 1][..i] == XColumns(ks)[..i] && XColumns(ks)[..i + 1][i] == ColumnX(ks[i])
    ensures ZColumns(ks)[..i + 1][..i] == ZColumns(ks)[..i] && ZColumns(ks)[..i + 1][i] == ColumnZ(ks[i])
    ensures |XColumns(ks)[..i + 1]| == i + 1 == |ZColumns(ks)[..i + 1]|
  {
  }

  /** The column an index stands for lies well inside the 32-bit range. */
  lemma {:induction false} ColumnBounds(index: I32)
    ensures -0x8000_0000 / ColumnsPerRow - ColumnBias <= ColumnZ(index) <= 0x7FFF_FFFF / ColumnsPerRow - ColumnBias
    ensures -ColumnsPerRow - ColumnBias < ColumnX(index) < ColumnsPerRow - ColumnBias
  {
  }

  /** finalWidth and finalLength: the world span of columns `lo..hi`, each
      step in 32-bit `int`, narrowed to u16 for the header. */
  function Span(lo: int, hi: int): (w: U16)
  {
    var worldMin := WrapI32(lo * ColumnWidth);
    var worldMax := WrapI32(WrapI32(WrapI32(hi + 1) * ColumnWidth) - 1);
    WrapU16(WrapI32(WrapI32(worldMax - worldMin) + 1))
  }

  /** Over some partitions the span is 144 blocks per column, modulo 2^16. */
  lemma {:induction false} SpanOfColumns(lo: int, hi: int)
    requires -0x80_0000 <= lo <= hi < 0x80_0000
    ensures Span(lo, hi) == ((hi - lo + 1) * ColumnWidth) % 0x1_0000
    ensures hi - lo < 455 ==> Span(lo, hi) == (hi - lo + 1) * ColumnWidth
  {
    var worldMin, worldMax := lo * ColumnWidth, (hi + 1) * ColumnWidth - 1;
    assert WrapI32(lo * ColumnWidth) == worldMin;
    assert WrapI32(hi + 1) == hi + 1;
    assert WrapI32(WrapI32(hi + 1) * ColumnWidth) == (hi + 1) * ColumnWidth;
    assert WrapI32(WrapI32(WrapI32(hi + 1) * ColumnWidth) - 1) == worldMax;
    var d := WrapI32(worldMax - worldMin);
    Narrow(worldMax - worldMin);
    Narrow(d + 1);
    ModShift(worldMax - worldMin + 1, d + 1);
  }

  /** Narrowing to 32 bits and then to 16 is narrowing to 16. */
  lemma {:induction false} Narrow(v: int)
    ensures WrapI32(v) % 0x1_0000 == v % 0x1_0000
  {
    var k := (WrapI32(v) - v) / 0x1_0000_0000;
    assert WrapI32(v) == v + 0x1_0000_0000 * k;
    ModShift(v, WrapI32(v));
  }

  lemma {:induction false} ModShift(a: int, b: int)
    requires (b - a) % 0x1_0000 == 0
    ensures a % 0x1_0000 == b % 0x1_0000
  {
  }

  /** With nothing spilled the INT_MAX/INT_MIN bounds overflow into a span of
      two columns. The overflow is undefined behaviour for a signed `int` in
      C++; the value here is the one two's-complement wrap-around gives. */
  lemma {:induction false} SpanOfNothing()
    ensures Span(0x7FFF_FFFF, -0x8000_0000) == 288
  {
    assert WrapI32(0x7FFF_FFFF * ColumnWidth) == -144;
    assert WrapI32(-0x8000_0000 + 1) == -0x7FFF_FFFF;
    assert WrapI32(-0x7FFF_FFFF * ColumnWidth) == 144;
  }

  // ---------------------------------------------------------------------------
  // Spill files, as mergeAllCacheFiles finds them

  /** The spill file of every key holds exactly its batches. */
  ghost predicate SpillFiles(files: map<I32, Bytes>, batches: map<I32, seq<seq<BlockGroup>>>) {
    files.Keys == batches.Keys && forall k :: SpillFileAt(files, batches, k)
  }

  ghost predicate SpillFileAt(files: map<I32, Bytes>, batches: map<I32, seq<seq<BlockGroup>>>, k: I32) {
    k in files ==> k in batches && AllSpillable(batches[k]) && files[k] == SpillBytes(batches[k])
  }

  /** Groups the compressor can take once merged: fewer than 2^32 cells, each
      coordinate below the largest Coord. */
  ghost predicate Mergeable(gs: seq<BlockGroup>) {
    |Cells(gs)| < 0x1_0000_0000
    && forall c :: c in Cells(gs) ==> c.1 < 0x7FFF && c.2 < 0x7FFF && c.3 < 0x7FFF
  }

  /** Boxes that cover, per palette id, exactly the coordinates the cells give
      that id, with ordered corners and no two boxes of one id overlapping. */
  ghost predicate Compressed(regs: seq<BlockRegion>, cells: multiset<Cell>) {
    (forall pid, c :: RegionMerge.CoversFor(regs, pid, c) <==> c in CoordsOf(cells, pid))
    && (forall i :: 0 <= i < |regs| ==> RegionMerge.Ordered(regs[i]))
    && (forall i, j :: 0 <= i < j < |regs| && regs[i].paletteId == regs[j].paletteId
          ==> RegionMerge.Disjoint(regs[i], regs[j]))
  }

  lemma {:induction false} ConcatWellFormed(batches: seq<seq<BlockGroup>>)
    requires AllSpillable(batches)
    ensures AllWellFormed(Concat(batches))
    decreases |batches|
  {
    if batches != [] {
      assert AllSpillable(batches[1..]) by {
        forall i | 0 <= i < |batches| - 1 ensures Spillable(batches[1..][i]) {
          assert batches[1..][i] == batches[i + 1];
        }
      }
      ConcatWellFormed(batches[1..]);
      var a: seq<BlockGroup>, b: seq<BlockGroup> := batches[0], Concat(batches[1..]);
      assert Spillable(batches[0]);
      forall i | 0 <= i < |a + b| ensures (a + b)[i].WellFormed() {
        if i < |a| { assert (a + b)[i] == a[i]; } else { assert (a + b)[i] == b[i - |a|]; }
      }
    }
  }

  /** A palette's merged coordinates are no more than the group counts. */
  lemma {:induction false} XsOfBound(gs: seq<BlockGroup>, k: PaletteId)
    requires AllWellFormed(gs)
    ensures |XsOf(gs, k)| <= Size(gs)
    decreases |gs|
  {
    if gs != [] {
      var init := gs[..|gs| - 1];
      assert AllWellFormed(init) by {
        forall i | 0 <= i < |init| ensures init[i].WellFormed() {
          assert init[i] == gs[i];
        }
      }
      XsOfBound(gs[..|gs| - 1], k);
      assert gs[|gs| - 1].WellFormed();
    }
  }

  /** The merge of mergeable well-formed groups is well formed and within the
      compressor's limits, with the same cells. */
  lemma {:induction false} MergedFits(all: seq<BlockGroup>, merged: seq<BlockGroup>)
    requires AllWellFormed(all) && Mergeable(all)
    requires forall i :: 0 <= i < |merged| ==> merged[i] == Merged(all, merged[i].paletteId)
    requires AllAligned(all) ==> AllAligned(merged) && Cells(merged) == Cells(all)
    ensures AllWellFormed(merged) && Cells(merged) == Cells(all)
    ensures RegionMerge.AllIndexable(merged) && RegionMerge.BelowMax(merged)
  {
    assert AllAligned(all) by {
      forall i | 0 <= i < |all| ensures Aligned(all[i]) { assert all[i].WellFormed(); }
    }
    SizeIsCells(all);
    forall i | 0 <= i < |merged| ensures merged[i].WellFormed() {
      var k := merged[i].paletteId;
      XsOfBound(all, k);
      MergedAligned(all, k);
    }
    BelowMaxOfCells(merged);
    AllIndexableOf(merged);
  }

  /** The boxes of one spill file. */
  lemma {:induction false} CompressedOf(merged: seq<BlockGroup>, regs: seq<BlockRegion>, cells: multiset<Cell>)
    requires AllWellFormed(merged) && Cells(merged) == cells && RegionMerge.AllIndexable(merged)
    requires forall pid, c :: RegionMerge.CoversFor(regs, pid, c) <==> c in RegionMerge.GridOf(merged, pid)
    requires forall i :: 0 <= i < |regs| ==> RegionMerge.Ordered(regs[i])
    requires forall i, j :: 0 <= i < j < |regs| && regs[i].paletteId == regs[j].paletteId
               ==> RegionMerge.Disjoint(regs[i], regs[j])
    ensures Compressed(regs, cells)
  {
    forall pid ensures RegionMerge.GridOf(merged, pid) == CoordsOf(cells, pid) {
      GridOfIsCells(merged, pid);
    }
  }

  // ---------------------------------------------------------------------------
  // mergeAllCacheFiles

  /** One partition of the record loop: its spill file read back, its groups
      merged per palette id and compressed into boxes, by the six-order
      compressor of RegionMergeUtils.hpp for the older writer and by the
      single-order one of core/RegionMergeUtils.hpp for the latest. */
  method CompressFile(s: Bytes, ghost batches: seq<seq<BlockGroup>>, sixOrders: bool) returns (regs: seq<BlockRegion>)
    requires AllSpillable(batches) && s == SpillBytes(batches) && Mergeable(Concat(batches))
    ensures Compressed(regs, Cells(Concat(batches)))
  {
    ReadSpillOfWritten(batches);
    var all := ReadSpillFile(s);
    ConcatWellFormed(batches);
    var merged := MergeBlockGroups(all.value);
    MergedFits(all.value, merged);
    if sixOrders {
      regs := RegionMergeSix.MergeToRegions(merged);
    } else {
      regs := RegionMerge.MergeToRegions(merged);
    }
    CompressedOf(merged, regs, Cells(all.value));
  }

  /** Each of the first partitions of `ks` has its spill file's cells
      compressed into the matching boxes. */
  ghost predicate AllCompressed(regs: seq<seq<BlockRegion>>, ks: seq<I32>, batches: map<I32, seq<seq<BlockGroup>>>) {
    |regs| <= |ks|
    && forall j :: 0 <= j < |regs| ==> ks[j] in batches && Compressed(regs[j], Cells(Concat(batches[ks[j]])))
  }

  /** Each of the first records holds the matching boxes at its partition's origin. */
  ghost predicate AllRecords(recs: seq<Bytes>, regs: seq<seq<BlockRegion>>, ks: seq<I32>, origins: I32 -> SubChunkOrigin) {
    |recs| == |regs| <= |ks|
    && forall j :: 0 <= j < |recs| ==> recs[j] == SubChunkRecord3(regs[j], origins(ks[j]))
  }

  /** The origins of the latest writer: the column corner of the
      world-anchored grid and `minY`. */
  function LatestOrigins(minY: I32): (o: I32 -> SubChunkOrigin)
    ensures forall k :: o(k) == Origin(k, minY)
  {
    (k: I32) => Origin(k, minY)
  }

  lemma {:induction false} AllCompressedSnoc(regs: seq<seq<BlockRegion>>, ks: seq<I32>,
                                             batches: map<I32, seq<seq<BlockGroup>>>, rs: seq<BlockRegion>)
    requires AllCompressed(regs, ks, batches) && |regs| < |ks| && ks[|regs|] in batches
    requires Compressed(rs, Cells(Concat(batches[ks[|regs|]])))
    ensures AllCompressed(regs + [rs], ks, batches)
  {
    var regs' := regs + [rs];
    forall j | 0 <= j < |regs'| ensures ks[j] in batches && Compressed(regs'[j], Cells(Concat(batches[ks[j]]))) {
      if j < |regs| { assert regs'[j] == regs[j]; }
    }
  }

  lemma {:induction false} AllRecordsSnoc(recs: seq<Bytes>, regs: seq<seq<BlockRegion>>, ks: seq<I32>,
                                          origins: I32 -> SubChunkOrigin, rs: seq<BlockRegion>, r: Bytes)
    requires AllRecords(recs, regs, ks, origins) && |regs| < |ks|
    requires r == SubChunkRecord3(rs, origins(ks[|regs|]))
    ensures AllRecords(recs + [r], regs + [rs], ks, origins)
  {
    var recs', regs' := recs + [r], regs + [rs];
    forall j | 0 <= j < |recs'| ensures recs'[j] == SubChunkRecord3(regs'[j], origins(ks[j])) {
      if j < |recs| { assert recs'[j] == recs[j] && regs'[j] == regs[j]; }
    }
  }

  /** The spill file of a key and what it holds. */
  lemma {:induction false} SpillOf(files: map<I32, Bytes>, batches: map<I32, seq<seq<BlockGroup>>>, k: I32)
    requires SpillFiles(files, batches) && forall k :: k in batches ==> Mergeable(Concat(batches[k]))
    requires k in files
    ensures k in batches && AllSpillable(batches[k]) && files[k] == SpillBytes(batches[k])
    ensures Mergeable(Concat(batches[k]))
  {
    assert SpillFileAt(files, batches, k);
  }

  /** The partition loop of mergeAllCacheFiles: per key, in ascending order,
      the stream position as the record's offset, then the record with the
      partition's boxes and origin. */
  method WriteRecords(out0: Bytes, files: map<I32, Bytes>, ks: seq<I32>, origins: I32 -> SubChunkOrigin, sixOrders: bool,
                      ghost batches: map<I32, seq<seq<BlockGroup>>>)
    returns (out: Bytes, offsets: seq<U64>, ghost regs: seq<seq<BlockRegion>>, ghost recs: seq<Bytes>)
    requires |out0| == HeaderSize
    requires SpillFiles(files, batches) && forall k :: k in batches ==> Mergeable(Concat(batches[k]))
    requires forall i :: 0 <= i < |ks| ==> ks[i] in files
    ensures |regs| == |ks| && AllRecords(recs, regs, ks, origins) && AllCompressed(regs, ks, batches)
    ensures out == out0 + Flatten(recs) && offsets == RecordOffsets(recs)
  {
    out, offsets, regs, recs := out0, [], [], [];
    var i := 0;
    while i < |ks|
      invariant 0 <= i <= |ks| && |regs| == i
      invariant AllRecords(recs, regs, ks, origins) && AllCompressed(regs, ks, batches)
      invariant out == out0 + Flatten(recs) && offsets == RecordOffsets(recs)
    {
      var k := ks[i];
      SpillOf(files, batches, k);
      var rs := CompressFile(files[k], batches[k], sixOrders);
      ghost var r := SubChunkRecord3(rs, origins(k));
      RecordStep(out0, recs, r, offsets);
      AllRecordsSnoc(recs, regs, ks, origins, rs, r);
      AllCompressedSnoc(regs, ks, batches, rs);
      offsets := offsets + [WrapU64(|out|)];
      out := WriteSubChunk3(out, rs, origins(k));
      regs := regs + [rs];
      recs := recs + [r];
      i := i + 1;
    }
  }

  /** One more record: its offset is the length written so far. */
  lemma {:induction false} RecordStep(out0: Bytes, recs: seq<Bytes>, r: Bytes, offsets: seq<U64>)
    requires |out0| == HeaderSize && offsets == RecordOffsets(recs)
    ensures out0 + Flatten(recs) + r == out0 + Flatten(recs + [r])
    ensures offsets + [WrapU64(|out0 + Flatten(recs)|)] == RecordOffsets(recs + [r])
  {
    FlattenSnoc(recs, r);
    var offs' := RecordOffsets(recs + [r]);
    forall j | 0 <= j < |recs| ensures offs'[j] == offsets[j] {
      assert (recs + [r])[..j] == recs[..j];
    }
    assert (recs + [r])[..|recs|] == recs;
  }

  /** Normalised names short enough for writeString16 can be listed. */
  lemma {:induction false} ListableOf(ns: seq<Bytes>, width: nat)
    requires Short(ns) && (width == 1 || width == 2) && |ns| <= Pow256(width)
    ensures Listable(ns, width)
  {
    Pow256Values();
  }

  /** The tables after the records: the offset table, the palette with
      payloads, then the type, state-name and state-value maps, each name a
      normalised string16. A name too long after normalisation fails the
      write. `pos` holds the stream position before each table. */
  method WriteTables(out0: Bytes, offsets: seq<U64>, list: seq<PaletteKey>, withPayload: bool,
                     types: seq<Bytes>, names: seq<Bytes>, values: seq<Bytes>, fromCodePage: Bytes -> Bytes)
    returns (r: Result<Bytes>, pos: seq<int>)
    requires |offsets| < 0x1_0000_0000_0000_0000
    requires |types| <= 0x1_0000 && |names| <= 0x100 && |values| <= 0x100
    ensures r.Ok? <==> Short(NormalizeAll(types, fromCodePage)) && Short(NormalizeAll(names, fromCodePage))
                       && Short(NormalizeAll(values, fromCodePage))
    ensures r.Ok? ==> TablesWritten(out0, r.value, pos, offsets, list, withPayload, NormalizeAll(types, fromCodePage),
                                    NormalizeAll(names, fromCodePage), NormalizeAll(values, fromCodePage))
  {
    ghost var nt, nn, nv := NormalizeAll(types, fromCodePage), NormalizeAll(names, fromCodePage),
                            NormalizeAll(values, fromCodePage);
    Pow256Values();
    pos := [];
    var o1 := WriteOffsetTable(out0, offsets);
    var o2 := WritePalette(o1, list, withPayload);
    var d := WriteDict(o2, types, 2, fromCodePage);
    if d.Err? {
      return Err(d.msg), pos;
    }
    var e := WriteDict(d.value, names, 1, fromCodePage);
    if e.Err? {
      return Err(e.msg), pos;
    }
    var f := WriteDict(e.value, values, 1, fromCodePage);
    if f.Err? {
      return Err(f.msg), pos;
    }
    pos := [|out0|, |o1|, |o2|, |d.value|, |e.value|];
    ListableOf(nt, 2);
    ListableOf(nn, 1);
    ListableOf(nv, 1);
    LayTables(out0, o1, o2, d.value, e.value, f.value, pos, offsets, list, withPayload, nt, nn, nv);
    r := Ok(f.value);
  }

  /** `out` is `out0` followed by the five tables, and `pos` holds where each starts. */
  ghost predicate TablesWritten(out0: Bytes, out: Bytes, pos: seq<int>, offsets: seq<U64>, list: seq<PaletteKey>,
                                withPayload: bool, nt: seq<Bytes>, nn: seq<Bytes>, nv: seq<Bytes>) {
    && |offsets| < 0x1_0000_0000_0000_0000
    && Listable(nt, 2) && Listable(nn, 1) && Listable(nv, 1)
    && var ts := FileTables(offsets, list, withPayload, nt, nn, nv);
       && out == out0 + Flatten(ts)
       && pos == [Start(|out0|, ts, 0), Start(|out0|, ts, 1), Start(|out0|, ts, 2), Start(|out0|, ts, 3), Start(|out0|, ts, 4)]
  }

  lemma {:induction false} LayTables(out0: Bytes, o1: Bytes, o2: Bytes, o3: Bytes, o4: Bytes, o5: Bytes, pos: seq<int>,
                                     offsets: seq<U64>, list: seq<PaletteKey>, withPayload: bool,
                                     nt: seq<Bytes>, nn: seq<Bytes>, nv: seq<Bytes>)
    requires |offsets| < 0x1_0000_0000_0000_0000
    requires Listable(nt, 2) && Listable(nn, 1) && Listable(nv, 1)
    requires o1 == out0 + OffsetTableBytes(offsets) && o2 == o1 + PaletteBytes(list, withPayload)
    requires o3 == o2 + DictOf(nt, 2) && o4 == o3 + DictOf(nn, 1) && o5 == o4 + DictOf(nv, 1)
    requires pos == [|out0|, |o1|, |o2|, |o3|, |o4|]
    ensures TablesWritten(out0, o5, pos, offsets, list, withPayload, nt, nn, nv)
  {
    var ts := FileTables(offsets, list, withPayload, nt, nn, nv);
    Layout5(out0, o1, o2, o3, o4, o5, ts);
  }

  /** Five chunks appended one after another, and where each starts. */
  lemma {:induction false} Layout5(out0: Bytes, o1: Bytes, o2: Bytes, o3: Bytes, o4: Bytes, o5: Bytes, ts: seq<Bytes>)
    requires |ts| == 5
    requires o1 == out0 + ts[0] && o2 == o1 + ts[1] && o3 == o2 + ts[2] && o4 == o3 + ts[3] && o5 == o4 + ts[4]
    ensures o5 == out0 + Flatten(ts)
    ensures Start(|out0|, ts, 0) == |out0| && Start(|out0|, ts, 1) == |o1| && Start(|out0|, ts, 2) == |o2|
    ensures Start(|out0|, ts, 3) == |o3| && Start(|out0|, ts, 4) == |o4|
  {
    Flatten5(ts);
    Assoc5(out0, ts[0], ts[1], ts[2], ts[3], ts[4]);
    assert ts[..0] == [];
    StartNext(|out0|, ts, 0);
    StartNext(|out0|, ts, 1);
    StartNext(|out0|, ts, 2);
    StartNext(|out0|, ts, 3);
  }

  lemma {:induction false} Flatten5(ts: seq<Bytes>)
    requires |ts| == 5
    ensures Flatten(ts) == ts[0] + (ts[1] + (ts[2] + (ts[3] + ts[4])))
  {
    var t1 := ts[1..];
    var t2 := t1[1..];
    var t3 := t2[1..];
    var t4 := t3[1..];
    assert t4[1..] == [];
    assert Flatten(t4) == ts[4];
    assert Flatten(t3) == ts[3] + ts[4];
    assert Flatten(t2) == ts[2] + (ts[3] + ts[4]);
    assert Flatten(t1) == ts[1] + (ts[2] + (ts[3] + ts[4]));
  }

  lemma {:induction false} Assoc5(o: Bytes, a: Bytes, b: Bytes, c: Bytes, d: Bytes, e: Bytes)
    ensures o + a + b + c + d + e == o + (a + (b + (c + (d + e))))
  {
  }

  /** Patching the header: the first 67 bytes replaced by the new header. */
  lemma {:induction false} PatchHeader(w0: Bytes, w: Bytes, recs: Bytes, tabs: Bytes)
    requires |w0| == HeaderSize
    ensures w + (w0 + recs + tabs)[HeaderSize..] == w + recs + tabs
  {
    Assoc(w0, recs, tabs);
    assert (w0 + (recs + tabs))[|w0|..] == recs + tabs;
    Assoc(w, recs, tabs);
  }

  /** The records of the spilled partitions, in key order. */
  function Records3(regs: seq<seq<BlockRegion>>, keys: seq<I32>, origins: I32 -> SubChunkOrigin): (recs: seq<Bytes>)
    requires |regs| == |keys|
    ensures |recs| == |keys|
  {
    seq(|keys|, i requires 0 <= i < |keys| => SubChunkRecord3(regs[i], origins(keys[i])))
  }

  lemma {:induction false} Records3Are(recs: seq<Bytes>, regs: seq<seq<BlockRegion>>, keys: seq<I32>,
                                       origins: I32 -> SubChunkOrigin)
    requires |regs| == |keys| == |recs|
    requires forall i :: 0 <= i < |keys| ==> recs[i] == SubChunkRecord3(regs[i], origins(keys[i]))
    ensures recs == Records3(regs, keys, origins)
  {
  }

  /** The header as patched: the world size, the version, the count and the
      table positions. */
  lemma {:induction false} PatchedFile(h0: Header, h: Header, recs: seq<Bytes>, offsets: seq<U64>, version: U8,
                                       list: seq<PaletteKey>, withPayload: bool, nt: seq<Bytes>, nn: seq<Bytes>, nv: seq<Bytes>,
                                       width: U16, length: U16, height: U16, pos: seq<int>, out: Bytes)
    requires |recs| < 0x1_0000_0000_0000_0000 && offsets == RecordOffsets(recs)
    requires Listable(nt, 2) && Listable(nn, 1) && Listable(nv, 1)
    requires h0 == DefaultHeader().(width := width, length := length, height := height)
    requires TablesWritten(WriteHeader(h0) + Flatten(recs), out, pos, offsets, list, withPayload, nt, nn, nv)
    requires h == h0.(version := version, subChunkCount := WrapU64(|offsets|),
                      subChunkOffsetsTableOffset := WrapU64(pos[0]), paletteOffset := WrapU64(pos[1]),
                      blockTypeMapOffset := WrapU64(pos[2]), stateNameMapOffset := WrapU64(pos[3]),
                      stateValueMapOffset := WrapU64(pos[4]), nbtDataOffset := 0)
    ensures WriteHeader(h) + out[HeaderSize..] == ContainerFile(version, withPayload, width, length, height, recs, list, nt, nn, nv)
  {
    var tables := FileTables(offsets, list, withPayload, nt, nn, nv);
    PatchHeader(WriteHeader(h0), WriteHeader(h), Flatten(recs), Flatten(tables));
    assert h == FileHeader(version, width, length, height, recs, tables);
  }

  /** The body of mergeAllCacheFiles once the output opened and the keys are
      sorted: a default header with the world size, the records in key
      order, each holding its spill file's boxes at its origin, then the
      tables; the header is then rewritten with `version`, the count and the
      table positions. */
  method MergeFiles(files: map<I32, Bytes>, ks: seq<I32>, list: seq<PaletteKey>,
                    types: seq<Bytes>, names: seq<Bytes>, values: seq<Bytes>, version: U8, withPayload: bool,
                    width: U16, length: U16, height: U16, origins: I32 -> SubChunkOrigin, sixOrders: bool,
                    fromCodePage: Bytes -> Bytes, ghost batches: map<I32, seq<seq<BlockGroup>>>)
    returns (r: Result<Bytes>, ghost regs: seq<seq<BlockRegion>>)
    requires SpillFiles(files, batches) && forall k :: k in batches ==> Mergeable(Concat(batches[k]))
    requires Increasing(ks) && |ks| <= 0x1_0000_0000 && forall k :: k in files <==> k in ks
    requires |types| <= 0x1_0000 && |names| <= 0x100 && |values| <= 0x100
    ensures r.Ok? <==> Short(NormalizeAll(types, fromCodePage)) && Short(NormalizeAll(names, fromCodePage))
                       && Short(NormalizeAll(values, fromCodePage))
    ensures |regs| == |ks| && forall i :: 0 <= i < |ks| ==> Compressed(regs[i], Cells(Concat(batches[ks[i]])))
    ensures r.Ok? ==>
              r.value == ContainerFile(version, withPayload, width, length, height, Records3(regs, ks, origins), list,
                                       NormalizeAll(types, fromCodePage), NormalizeAll(names, fromCodePage),
                                       NormalizeAll(values, fromCodePage))
  {
    var h0 := DefaultHeader().(width := width, length := length, height := height);
    var out: Bytes, offsets: seq<U64>;
    ghost var recs: seq<Bytes>;
    out, offsets, regs, recs := WriteRecords(WriteHeader(h0), files, ks, origins, sixOrders, batches);
    Records3Are(recs, regs, ks, origins);
    r := FinishFile(h0, out, offsets, recs, list, types, names, values, version, withPayload, width, length, height,
                    fromCodePage);
  }

  /** The tables written after the records, then the header rewritten with
      `version`, the count and the table positions. */
  method FinishFile(h0: Header, out: Bytes, offsets: seq<U64>, ghost recs: seq<Bytes>, list: seq<PaletteKey>,
                    types: seq<Bytes>, names: seq<Bytes>, values: seq<Bytes>, version: U8, withPayload: bool,
                    width: U16, length: U16, height: U16, fromCodePage: Bytes -> Bytes)
    returns (r: Result<Bytes>)
    requires h0 == DefaultHeader().(width := width, length := length, height := height)
    requires out == WriteHeader(h0) + Flatten(recs) && offsets == RecordOffsets(recs)
    requires |recs| <= 0x1_0000_0000
    requires |types| <= 0x1_0000 && |names| <= 0x100 && |values| <= 0x100
    ensures r.Ok? <==> Short(NormalizeAll(types, fromCodePage)) && Short(NormalizeAll(names, fromCodePage))
                       && Short(NormalizeAll(values, fromCodePage))
    ensures r.Ok? ==>
              r.value == ContainerFile(version, withPayload, width, length, height, recs, list,
                                       NormalizeAll(types, fromCodePage), NormalizeAll(names, fromCodePage),
                                       NormalizeAll(values, fromCodePage))
  {
    var t, pos := WriteTables(out, offsets, list, withPayload, types, names, values, fromCodePage);
    if t.Err? {
      return Err(t.msg);
    }
    var h := h0.(version := version, subChunkCount := WrapU64(|offsets|),
                 subChunkOffsetsTableOffset := WrapU64(pos[0]), paletteOffset := WrapU64(pos[1]),
                 blockTypeMapOffset := WrapU64(pos[2]), stateNameMapOffset := WrapU64(pos[3]),
                 stateValueMapOffset := WrapU64(pos[4]), nbtDataOffset := 0);
    PatchedFile(h0, h, recs, offsets, version, list, withPayload, NormalizeAll(types, fromCodePage),
                NormalizeAll(names, fromCodePage), NormalizeAll(values, fromCodePage), width, length, height, pos, t.value);
    r := Ok(WriteHeader(h) + t.value[HeaderSize..]);
  }

  /** `mergeAllCacheFiles`. The output stream opens (`outputOpens`) or the
      call fails. The header is written with the world size the spilled
      partitions span, the records follow in ascending partition order, each
      holding its spill file's boxes at its column's origin, then the tables
      with payloads; the header is then rewritten as version 4. */
  method MergeAllCacheFiles(files: map<I32, Bytes>, list: seq<PaletteKey>,
                            types: seq<Bytes>, names: seq<Bytes>, values: seq<Bytes>,
                            height: U16, minY: I32, fromCodePage: Bytes -> Bytes, outputOpens: bool,
                            ghost batches: map<I32, seq<seq<BlockGroup>>>)
    returns (r: Result<Bytes>, ghost keys: seq<I32>, ghost regs: seq<seq<BlockRegion>>)
    requires SpillFiles(files, batches) && forall k :: k in batches ==> Mergeable(Concat(batches[k]))
    requires |types| <= 0x1_0000 && |names| <= 0x100 && |values| <= 0x100
    ensures r.Ok? <==> outputOpens && Short(NormalizeAll(types, fromCodePage))
                       && Short(NormalizeAll(names, fromCodePage)) && Short(NormalizeAll(values, fromCodePage))
    ensures r.Ok? ==> Increasing(keys) && (forall k :: k in files <==> k in keys) && |regs| == |keys|
    ensures r.Ok? ==> forall i :: 0 <= i < |keys| ==> Compressed(regs[i], Cells(Concat(batches[keys[i]])))
    ensures r.Ok? ==> |keys| <= 0x1_0000_0000
    ensures r.Ok? ==>
              r.value == ContainerFile(4, true, Span(Lowest(XColumns(keys)), Highest(XColumns(keys))),
                                Span(Lowest(ZColumns(keys)), Highest(ZColumns(keys))),
                                height, Records3(regs, keys, LatestOrigins(minY)), list, NormalizeAll(types, fromCodePage),
                                NormalizeAll(names, fromCodePage), NormalizeAll(values, fromCodePage))
  {
    keys, regs := [], [];
    if !outputOpens {
      return Err("Failed to create output file"), keys, regs;
    }
    var ks := AscendingKeys(files.Keys);
    IncreasingShort(ks);
    var minX, maxX, minZ, maxZ := ColumnExtent(ks);
    r, regs := MergeFiles(files, ks, list, types, names, values, 4, true, Span(minX, maxX), Span(minZ, maxZ), height,
                          LatestOrigins(minY), false, fromCodePage, batches);
    keys := ks;
    if r.Ok? {
      Pow256Values();
      ListableOf(NormalizeAll(types, fromCodePage), 2);
      ListableOf(NormalizeAll(names, fromCodePage), 1);
      ListableOf(NormalizeAll(values, fromCodePage), 1);
    }
  }
}

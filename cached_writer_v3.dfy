/** The older cached writer (BCFCachedWriter.hpp), which writes version-3
    containers. It tracks the extent of the blocks it has seen and numbers
    its partitions relative to that extent as it stands when each block
    arrives; partitions go to their spill files when the memory bound is
    reached, largest first, until 80% of the bound remains; a spill file that
    does not open makes the call fail. finalize spills everything and merges
    the spill files into the container. The ghost ledger `added` records the
    cells handed to each partition. */
module CachedWriterV3 {
  import opened Wrappers
  import opened LittleEndian
  import opened CInt
  import opened Structs
  import opened BlockGroups
  import opened Spill
  import opened Partitions
  import opened Tables
  import opened Container
  import opened Interning
  import opened CacheMerge
  import opened CachedWriter
  import opened StringCodec

  // ---------------------------------------------------------------------------
  // The extent of the blocks seen

  /** hasBounds, minX, maxX, minZ, maxZ. */
  datatype Bounds = Bounds(has: bool, minX: I32, maxX: I32, minZ: I32, maxZ: I32)

  /** The fields before the first block: INT_MAX and INT_MIN. */
  const NoBounds: Bounds := Bounds(false, 0x7FFF_FFFF, -0x8000_0000, 0x7FFF_FFFF, -0x8000_0000)

  /** The bounds update at the start of addBlock: the first block sets both
      ends of each axis, later ones only widen them. */
  function Widened(b: Bounds, x: I32, z: I32): (r: Bounds)
    ensures r.has && r.minX <= x <= r.maxX && r.minZ <= z <= r.maxZ
    ensures !b.has ==> r.minX == x == r.maxX && r.minZ == z == r.maxZ
    ensures b.has ==> r.minX == (if x < b.minX then x else b.minX) && r.maxX == (if x > b.maxX then x else b.maxX)
    ensures b.has ==> r.minZ == (if z < b.minZ then z else b.minZ) && r.maxZ == (if z > b.maxZ then z else b.maxZ)
  {
    if !b.has then Bounds(true, x, x, z, z)
    else Bounds(true, if x < b.minX then x else b.minX, if x > b.maxX then x else b.maxX,
                      if z < b.minZ then z else b.minZ, if z > b.maxZ then z else b.maxZ)
  }

  /** The bounds are exactly the least and greatest coordinates seen on each
      axis, or the initial values when nothing was seen. */
  ghost predicate Encloses(b: Bounds, xs: set<int>, zs: set<int>) {
    && (b.has <==> xs != {}) && (xs == {} <==> zs == {})
    && (!b.has ==> b == NoBounds)
    && (b.has ==> b.minX in xs && b.maxX in xs && b.minZ in zs && b.maxZ in zs)
    && (forall v :: v in xs ==> b.minX <= v <= b.maxX)
    && (forall v :: v in zs ==> b.minZ <= v <= b.maxZ)
  }

  lemma {:induction false} EnclosesNone()
    ensures Encloses(NoBounds, {}, {})
  {
  }

  /** The bounds update keeps the bounds the extent of what was seen. */
  lemma {:induction false} EnclosesWidened(b: Bounds, xs: set<int>, zs: set<int>, x: I32, z: I32)
    requires Encloses(b, xs, zs)
    ensures Encloses(Widened(b, x, z), xs + {x}, zs + {z})
  {
    var r := Widened(b, x, z);
    forall v | v in xs + {x} ensures r.minX <= v <= r.maxX {
      if v in xs {
        assert b.has;
      }
    }
    forall v | v in zs + {z} ensures r.minZ <= v <= r.maxZ {
      if v in zs {
        assert b.has;
      }
    }
  }

  /** An extent whose width plus 143 fits in `int`, so that none of the
      writer's `int` arithmetic on it overflows. */
  predicate Narrow(lo: int, hi: int) {
    lo <= hi && hi - lo + 1 + 143 <= 0x7FFF_FFFF
  }

  predicate Fits(b: Bounds) {
    b.has ==> Narrow(b.minX, b.maxX) && Narrow(b.minZ, b.maxZ)
  }

  /** `b` lies inside the window `w`. */
  predicate Within(b: Bounds, w: Bounds) {
    b.has ==> w.minX <= b.minX && b.maxX <= w.maxX && w.minZ <= b.minZ && b.maxZ <= w.maxZ
  }

  predicate Inside(x: I32, z: I32, w: Bounds) {
    w.minX <= x <= w.maxX && w.minZ <= z <= w.maxZ
  }

  /** Widening by a point of a narrow window stays inside it, so stays narrow. */
  lemma {:induction false} WidenedWithin(b: Bounds, w: Bounds, x: I32, z: I32)
    requires w.has && Fits(w) && Within(b, w) && Inside(x, z, w)
    ensures Within(Widened(b, x, z), w) && Fits(Widened(b, x, z))
  {
  }

  // ---------------------------------------------------------------------------
  // Grid arithmetic of addBlock and mergeAllCacheFiles

  /** finalWidth and finalLength of mergeAllCacheFiles: the extent, or 144
      when no block was seen. */
  function FinalWidth(b: Bounds): int {
    if b.has then b.maxX - b.minX + 1 else 144
  }

  function FinalLength(b: Bounds): int {
    if b.has then b.maxZ - b.minZ + 1 else 144
  }

  /** subChunkCountX, `(width + 143) / 144`: the columns the extent spans. */
  function CountX(b: Bounds): (n: int)
    requires Fits(b)
    ensures n >= 1 && (n - 1) * 144 < FinalWidth(b) <= n * 144
  {
    Quot(FinalWidth(b) + 143, 144)
  }

  /** subChunkIndex of addBlock, for bounds already widened by the block:
      the row and column of the block relative to the low corner, numbered
      row by row, in 32-bit `int`. */
  function DynamicIndex(b: Bounds, x: I32, z: I32): (index: I32)
    requires b.has && Fits(b) && Inside(x, z, b)
  {
    WrapI32(Quot(z - b.minZ, 144) * CountX(b) + Quot(x - b.minX, 144))
  }

  /** localX and localZ of addBlock: the offset from the low end, modulo 144. */
  function DynamicLocal(lo: I32, v: I32): (l: Coord)
    requires lo <= v
    ensures 0 <= l < 144 && l == (v - lo) % 144
  {
    Rem(v - lo, 144)
  }

  /** The column corner mergeAllCacheFiles gives partition `index`, before it
      is narrowed to a Coord. */
  function CornerX(b: Bounds, index: I32): int
    requires Fits(b)
  {
    b.minX + Rem(index, CountX(b)) * 144
  }

  function CornerZ(b: Bounds, index: I32): int
    requires Fits(b)
  {
    b.minZ + Quot(index, CountX(b)) * 144
  }

  /** The origin written for partition `index` with the final bounds. */
  function DynamicOrigin(b: Bounds, minY: I32, index: I32): (o: SubChunkOrigin)
    requires Fits(b)
    ensures o.originX == WrapI16(CornerX(b, index)) && o.originY == WrapI16(minY)
            && o.originZ == WrapI16(CornerZ(b, index))
  {
    SubChunkOrigin(WrapI16(CornerX(b, index)), WrapI16(minY), WrapI16(CornerZ(b, index)))
  }

  function DynamicOrigins(b: Bounds, minY: I32): (o: I32 -> SubChunkOrigin)
    requires Fits(b)
    ensures forall k :: o(k) == DynamicOrigin(b, minY, k)
  {
    (k: I32) => DynamicOrigin(b, minY, k)
  }

  lemma {:induction false} MulAtLeast(d: int, n: int)
    requires d >= 1 && n > 0
    ensures d * n >= n
  {
    assert d * n == (d - 1) * n + n;
  }

  lemma {:induction false} DivModUnique(m: int, n: int, q: int, a: int)
    requires n > 0 && q >= 0 && 0 <= a < n && m == q * n + a
    ensures m / n == q && m % n == a
  {
    var q', a' := m / n, m % n;
    assert m == q' * n + a';
    assert (q' - q) * n == a - a';
    if q' > q {
      MulAtLeast(q' - q, n);
    } else if q' < q {
      MulAtLeast(q - q', n);
    }
  }

  /** The largest index the extent can produce fits in `int`. */
  predicate IndexFits(b: Bounds)
    requires Fits(b)
  {
    b.has ==> Quot(b.maxZ - b.minZ, 144) * CountX(b) + CountX(b) <= 0x8000_0000
  }

  /** With bounds that no longer change (the block's own bounds are the final
      ones) and no index overflow, the index is non-negative, reading it back
      gives the block's column and row, and corner plus local position is the
      block's position. */
  lemma {:induction false} DynamicRoundTrip(b: Bounds, x: I32, z: I32)
    requires b.has && Fits(b) && IndexFits(b) && Inside(x, z, b)
    ensures 0 <= DynamicIndex(b, x, z)
    ensures Rem(DynamicIndex(b, x, z), CountX(b)) == (x - b.minX) / 144
    ensures Quot(DynamicIndex(b, x, z), CountX(b)) == (z - b.minZ) / 144
    ensures CornerX(b, DynamicIndex(b, x, z)) + DynamicLocal(b.minX, x) == x
    ensures CornerZ(b, DynamicIndex(b, x, z)) + DynamicLocal(b.minZ, z) == z
  {
    var n := CountX(b);
    var col, row := (x - b.minX) / 144, (z - b.minZ) / 144;
    IndexIs(b, x, z, n);
    ReadBack(row * n + col, n, row, col);
  }

  /** The index is the row times the column count plus the column, without
      wrapping. */
  lemma {:induction false} IndexIs(b: Bounds, x: I32, z: I32, n: int)
    requires b.has && Fits(b) && IndexFits(b) && Inside(x, z, b) && n == CountX(b)
    ensures 0 <= (x - b.minX) / 144 < n && 0 <= (z - b.minZ) / 144
    ensures DynamicIndex(b, x, z) == ((z - b.minZ) / 144) * n + (x - b.minX) / 144
  {
    var col, row := (x - b.minX) / 144, (z - b.minZ) / 144;
    QuotNonNeg(x - b.minX, 144);
    QuotNonNeg(z - b.minZ, 144);
    ColumnBelow(x - b.minX, FinalWidth(b), n);
    RowAtMost(z - b.minZ, b.maxZ - b.minZ, n);
    var last := (b.maxZ - b.minZ) / 144;
    assert last * n + n <= 0x8000_0000 by {
      QuotNonNeg(b.maxZ - b.minZ, 144);
    }
    assert 0 <= row * n + col < 0x8000_0000;
  }

  /** C++ `%` and `/` by the column count recover the column and the row. */
  lemma {:induction false} ReadBack(m: int, n: int, row: int, col: int)
    requires n > 0 && row >= 0 && 0 <= col < n && m == row * n + col
    ensures Quot(m, n) == row && Rem(m, n) == col
  {
    DivModUnique(m, n, row, col);
  }

  /** An offset below the extent is in one of its columns. */
  lemma {:induction false} ColumnBelow(d: int, w: int, n: int)
    requires 0 <= d < w <= n * 144
    ensures 0 <= d / 144 < n
  {
  }

  /** An offset's row is at most the last row, and so is its row times the
      column count. */
  lemma {:induction false} RowAtMost(d: int, e: int, n: int)
    requires 0 <= d <= e && n >= 1
    ensures 0 <= d / 144 <= e / 144 && 0 <= (d / 144) * n <= (e / 144) * n
  {
    MulMono(0, d / 144, n);
    MulMono(d / 144, e / 144, n);
  }

  lemma {:induction false} MulMono(a: int, c: int, n: int)
    requires 0 <= a <= c && n >= 0
    ensures a * n <= c * n
  {
    assert c * n == a * n + (c - a) * n;
  }

  /** Finding: the index is taken relative to the bounds as they stand when
      the block arrives. A first block at (x, z) is put at local x 0 of
      partition 0; a later block at (x - 144, z) moves minX down by 144 and
      is put at local x 0 of partition 0 too; the file then places partition
      0 at x - 144, so the first block is written 144 blocks from where it
      was. */
  lemma {:induction false} DynamicIndexCollides(x: I32, z: I32)
    requires -0x8000_0000 + 144 <= x
    ensures Widened(NoBounds, x, z) == Bounds(true, x, x, z, z)
    ensures Widened(Bounds(true, x, x, z, z), x - 144, z) == Bounds(true, x - 144, x, z, z)
    ensures DynamicIndex(Bounds(true, x, x, z, z), x, z) == 0 && DynamicLocal(x, x) == 0
    ensures DynamicIndex(Bounds(true, x - 144, x, z, z), x - 144, z) == 0 && DynamicLocal(x - 144, x - 144) == 0
    ensures CornerX(Bounds(true, x - 144, x, z, z), 0) + DynamicLocal(x, x) == x - 144
  {
    var b1, b2 := Bounds(true, x, x, z, z), Bounds(true, x - 144, x, z, z);
    IndexAtCorner(b1, CountX(b1));
    IndexAtCorner(b2, CountX(b2));
  }

  /** A block at the low corner of a non-empty extent gets index 0. */
  lemma {:induction false} IndexAtCorner(b: Bounds, n: int)
    requires b.has && Fits(b) && n == CountX(b)
    ensures DynamicIndex(b, b.minX, b.minZ) == 0 && Rem(0, n) == 0 && CornerX(b, 0) == b.minX
  {
    assert Quot(0, 144) == 0;
    assert DynamicIndex(b, b.minX, b.minZ) == WrapI32(0 * n + 0);
  }

  // ---------------------------------------------------------------------------
  // The batch insertion

  /** BlockData: one block of an addBlocks batch. */
  datatype BlockData = BlockData(x: I32, y: I32, z: I32, blockType: Bytes, states: seq<(Bytes, Bytes)>)

  /** The local y addBlocks computes for a block, as written: from the
      block's z. */
  function BatchLocalYAsWritten(b: BlockData): Coord {
    LocalY(b.z)
  }

  /** Finding: a batch block at y 0 and z 1 gets local y 57 where addBlock
      gives it 56; addBlocks evidently means the block's own y, as addBlock
      does. */
  lemma {:induction false} BatchLocalYAsWrittenDiffers()
    ensures BatchLocalYAsWritten(BlockData(0, 0, 1, [], [])) == 57 != LocalY(0)
  {
  }

  /** The local y the batch insertion is modelled with: the block's y, as in
      addBlock. */
  function BatchLocalY(b: BlockData): (ly: Coord)
    ensures ly == LocalY(b.y)
    ensures -0x8000 <= b.y + 56 < 0x8000 ==> ly == b.y + 56
  {
    LocalY(b.y)
  }

  /** The bounds after a batch: each block widens them in turn. */
  function WidenedAll(b: Bounds, blocks: seq<BlockData>): (r: Bounds)
    decreases |blocks|
  {
    if blocks == [] then b else WidenedAll(Widened(b, blocks[0].x, blocks[0].z), blocks[1..])
  }

  /** The block types, state names and state values of a batch. */
  ghost function BatchTypes(blocks: seq<BlockData>): set<Bytes>
    decreases |blocks|
  {
    if blocks == [] then {} else {blocks[0].blockType} + BatchTypes(blocks[1..])
  }

  ghost function BatchNames(blocks: seq<BlockData>): set<Bytes>
    decreases |blocks|
  {
    if blocks == [] then {} else StateNames(blocks[0].states) + BatchNames(blocks[1..])
  }

  ghost function BatchValues(blocks: seq<BlockData>): set<Bytes>
    decreases |blocks|
  {
    if blocks == [] then {} else StateValues(blocks[0].states) + BatchValues(blocks[1..])
  }

  /** Widening by the points of a window keeps the bounds inside it. */
  lemma {:induction false} WidenedAllWithin(b: Bounds, w: Bounds, blocks: seq<BlockData>)
    requires w.has && Fits(w) && Fits(b) && Within(b, w)
    requires forall i :: 0 <= i < |blocks| ==> Inside(blocks[i].x, blocks[i].z, w)
    ensures Within(WidenedAll(b, blocks), w) && Fits(WidenedAll(b, blocks))
    decreases |blocks|
  {
    if blocks != [] {
      WidenedWithin(b, w, blocks[0].x, blocks[0].z);
      var rest := blocks[1..];
      assert forall i :: 0 <= i < |rest| ==> rest[i] == blocks[i + 1];
      WidenedAllWithin(Widened(b, blocks[0].x, blocks[0].z), w, rest);
    }
  }

  /** The x and z coordinates of a batch. */
  ghost function BatchXs(blocks: seq<BlockData>): set<int>
    decreases |blocks|
  {
    if blocks == [] then {} else {blocks[0].x as int} + BatchXs(blocks[1..])
  }

  ghost function BatchZs(blocks: seq<BlockData>): set<int>
    decreases |blocks|
  {
    if blocks == [] then {} else {blocks[0].z as int} + BatchZs(blocks[1..])
  }

  /** The bounds after a batch are the extent of what was seen before and
      the batch's blocks. */
  lemma {:induction false} EnclosesAll(b: Bounds, xs: set<int>, zs: set<int>, blocks: seq<BlockData>)
    requires Encloses(b, xs, zs)
    ensures Encloses(WidenedAll(b, blocks), xs + BatchXs(blocks), zs + BatchZs(blocks))
    decreases |blocks|
  {
    if blocks != [] {
      var x, z := blocks[0].x, blocks[0].z;
      EnclosesWidened(b, xs, zs, x, z);
      EnclosesAll(Widened(b, x, z), xs + {x as int}, zs + {z as int}, blocks[1..]);
      assert xs + {x as int} + BatchXs(blocks[1..]) == xs + BatchXs(blocks);
      assert zs + {z as int} + BatchZs(blocks[1..]) == zs + BatchZs(blocks);
    }
  }

  // ---------------------------------------------------------------------------
  // checkAndFlush and finalize on the writer's maps

  /** The 80% target of checkAndFlush, `maxBlocksInMemory * 0.8` truncated,
      taken as the integer quotient. */
  function Target(maxBlocks: nat): (t: nat)
    ensures 5 * t <= 4 * maxBlocks < 5 * t + 5
  {
    4 * maxBlocks / 5
  }

  /** Room for `n` more cells in every partition's ledger. */
  ghost predicate Room(added: Ledger, n: nat) {
    forall k: I32 :: |In(added, k)| + n < 0x1_0000_0000
  }

  /** One more cell leaves room for one fewer. */
  lemma {:induction false} RoomAdd(added: Ledger, added': Ledger, n: nat, m: nat, k: I32, c: Cell)
    requires Room(added, n) && m < n && added' == added[k := In(added, k) + multiset{c}]
    ensures Room(added', m)
  {
    forall j: I32 ensures |In(added', j)| + m < 0x1_0000_0000 {
      assert |In(added, j)| + n < 0x1_0000_0000;
    }
  }

  /** checkAndFlush of this writer on its maps. Below the bound nothing
      happens. Otherwise the partitions are taken largest first and each is
      appended to its spill file and then erased, until no more than the 80%
      target is held. A spill file that does not open throws before the
      erase: the partition stays in memory and the call fails. */
  method ShedToTarget(active0: map<I32, seq<BlockGroup>>, files0: map<I32, Bytes>,
                      ghost batches0: map<I32, seq<seq<BlockGroup>>>, ghost added: Ledger,
                      maxBlocks: nat, opens: I32 -> bool)
    returns (r: Result<()>, active: map<I32, seq<BlockGroup>>, files: map<I32, Bytes>,
             ghost batches: map<I32, seq<seq<BlockGroup>>>)
    requires Store(active0, files0, batches0, added, map[])
    ensures Store(active, files, batches, added, map[])
    ensures Total(active0) < maxBlocks ==> r.Ok? && active == active0 && files == files0
    ensures r.Ok? && Total(active0) >= maxBlocks ==> Total(active) <= Target(maxBlocks)
    ensures Shed(active0, active, Target(maxBlocks))
    ensures Flushed(active0, active, files0, files, map[], map[], opens)
    ensures r.Err? ==> exists k :: && k in active && !opens(k) && Total(active) > Target(maxBlocks)
                                   && forall j :: j in active ==> Size(active[j]) <= Size(active[k])
  {
    r, active, files, batches := Ok(()), active0, files0, batches0;
    FlushedNone(active, files, map[], opens);
    ShedNone(active, Target(maxBlocks));
    var total := TotalBlocksInMemory(active);
    if total < maxBlocks {
      return;
    }
    var target := Target(maxBlocks);
    var sizes := SurveySizes(active);
    while active.Keys != {} && total > target
      invariant Store(active, files, batches, added, map[])
      invariant total == Total(active)
      invariant Shed(active0, active, target)
      invariant forall k :: k in active ==> k in sizes && sizes[k] == Size(active[k])
      invariant Flushed(active0, active, files0, files, map[], map[], opens)
      decreases |active.Keys|
    {
      var k := Largest(active.Keys, sizes);
      if !opens(k) {
        return Err("Failed to create cache file"), active, files, batches;
      }
      var size := sizes[k];
      TotalRemove(active, k);
      ShedStep(active0, active, target, k);
      active, files, batches := SpillOne(active0, files0, active, files, batches, added, opens, k);
      total := total - size;
    }
    if active.Keys == {} {
      TotalEmpty(active);
    }
  }

  /** One partition appended to its spill file, whose file opens, and
      erased. */
  method SpillOne(active0: map<I32, seq<BlockGroup>>, files0: map<I32, Bytes>,
                  active: map<I32, seq<BlockGroup>>, files: map<I32, Bytes>,
                  ghost batches: map<I32, seq<seq<BlockGroup>>>, ghost added: Ledger, opens: I32 -> bool, k: I32)
    returns (active': map<I32, seq<BlockGroup>>, files': map<I32, Bytes>, ghost batches': map<I32, seq<seq<BlockGroup>>>)
    requires Store(active, files, batches, added, map[]) && k in active && opens(k)
    requires active.Keys <= active0.Keys && active[k] == active0[k]
    requires Flushed(active0, active, files0, files, map[], map[], opens)
    ensures Store(active', files', batches', added, map[]) && active' == active - {k}
    ensures Flushed(active0, active', files0, files', map[], map[], opens)
    ensures |active'.Keys| < |active.Keys|
  {
    ghost var l1: Ledger;
    active', files', batches', l1 := Evict(active, files, batches, added, map[], k, true);
    FlushedStep(active0, active, files0, files, map[], map[], active', files', map[], opens, k);
    KeysShrink(active, k);
  }

  /** Removing a present key leaves fewer keys. */
  lemma {:induction false} KeysShrink<V>(m: map<I32, V>, k: I32)
    requires k in m
    ensures |(m - {k}).Keys| < |m.Keys|
  {
    assert (m - {k}).Keys == m.Keys - {k};
  }

  /** Every held partition up to `k`, in ascending order, has a spill file
      that opens. */
  ghost predicate OpenUpTo(a0: map<I32, seq<BlockGroup>>, opens: I32 -> bool, k: I32) {
    forall j :: j in a0 && j <= k ==> opens(j)
  }

  /** The spill files after the flush loop of finalize: the partitions
      before the first spill file that does not open are appended to their
      files; every other file is as it was. */
  ghost predicate Appended(a0: map<I32, seq<BlockGroup>>, f0: map<I32, Bytes>, f1: map<I32, Bytes>, opens: I32 -> bool) {
    forall k :: AppendedAt(a0, f0, f1, opens, k)
  }

  ghost predicate AppendedAt(a0: map<I32, seq<BlockGroup>>, f0: map<I32, Bytes>, f1: map<I32, Bytes>,
                             opens: I32 -> bool, k: I32) {
    if k in a0 && OpenUpTo(a0, opens, k) then k in f1 && AllWellFormed(a0[k]) && f1[k] == FileOf(f0, k) + BatchBytes(a0[k])
    else (k in f1 <==> k in f0) && FileOf(f1, k) == FileOf(f0, k)
  }

  /** Where the flush loop stops, the keys it walked are appended and the
      rest untouched. */
  lemma {:induction false} AppendedPrefix(a0: map<I32, seq<BlockGroup>>, a1: map<I32, seq<BlockGroup>>,
                                          f0: map<I32, Bytes>, f1: map<I32, Bytes>, ks: seq<I32>, i: nat, opens: I32 -> bool)
    requires Increasing(ks) && (forall k :: k in a0 <==> k in ks) && i <= |ks|
    requires forall k :: k in a1 <==> k in ks[i..]
    requires forall j :: 0 <= j < i ==> opens(ks[j])
    requires i < |ks| ==> !opens(ks[i])
    requires Flushed(a0, a1, f0, f1, map[], map[], opens)
    ensures Appended(a0, f0, f1, opens)
  {
    forall k ensures AppendedAt(a0, f0, f1, opens, k) {
      assert FlushedAt(a0, a1, f0, f1, map[], map[], opens, k);
      if k in a0 {
        var m :| 0 <= m < |ks| && ks[m] == k;
        if m < i {
          forall j | j in a0 && j <= k ensures opens(j) {
            var n :| 0 <= n < |ks| && ks[n] == j;
            if n > m { assert ks[m] < ks[n]; }
          }
        } else {
          assert ks[i] in a0 && ks[i] <= k;
        }
      }
    }
  }

  /** The flush loop of finalize: each held partition, in ascending order,
      is appended to its spill file; the first spill file that does not open
      throws. On success nothing is held. */
  method FlushEvery(active0: map<I32, seq<BlockGroup>>, files0: map<I32, Bytes>,
                    ghost batches0: map<I32, seq<seq<BlockGroup>>>, ghost added: Ledger, opens: I32 -> bool)
    returns (r: Result<()>, files: map<I32, Bytes>, ghost batches: map<I32, seq<seq<BlockGroup>>>)
    requires Store(active0, files0, batches0, added, map[])
    ensures r.Ok? <==> forall k :: k in active0 ==> opens(k)
    ensures r.Ok? ==> Store(map[], files, batches, added, map[])
    ensures r.Ok? ==> Flushed(active0, map[], files0, files, map[], map[], opens)
    ensures Appended(active0, files0, files, opens)
  {
    var ks := AscendingKeys(active0.Keys);
    var active := active0;
    r, files, batches := Ok(()), files0, batches0;
    FlushedNone(active, files, map[], opens);
    var i := 0;
    while i < |ks| && opens(ks[i])
      invariant 0 <= i <= |ks|
      invariant Store(active, files, batches, added, map[])
      invariant active.Keys <= active0.Keys && forall k :: k in active ==> active[k] == active0[k]
      invariant forall k :: k in active <==> k in ks[i..]
      invariant forall j :: 0 <= j < i ==> opens(ks[j])
      invariant Flushed(active0, active, files0, files, map[], map[], opens)
    {
      var k := ks[i];
      var a1, f1 := active, files;
      ghost var l1: Ledger;
      active, files, batches, l1 := Evict(active, files, batches, added, map[], k, true);
      FlushedStep(active0, a1, files0, f1, map[], map[], active, files, map[], opens, k);
      PendingAfter(ks, i, a1, active);
      OpensNext(ks, i, opens);
      i := i + 1;
    }
    AppendedPrefix(active0, active, files0, files, ks, i, opens);
    if i < |ks| {
      assert ks[i] in active0;
      return Err("Failed to create cache file"), files, batches;
    }
    assert active == map[];
  }

  /** The old bcf_io writeString16 stores a name as it is: no UTF-8
      normalisation. */
  function Verbatim(s: Bytes): (r: Bytes)
    ensures r == s
  {
    s
  }

  lemma {:induction false} VerbatimAll(ns: seq<Bytes>)
    ensures NormalizeAll(ns, Verbatim) == ns
  {
    assert forall j :: 0 <= j < |ns| ==> Utf8Of(ns[j], Verbatim) == ns[j];
  }

  /** The work of finalize and of mergeAllCacheFiles on the writer's maps and
      numberings: flush everything, open the output, then write the records
      in ascending index order with their dynamic origins and the six-order
      compressor's boxes, the tables without payloads and with names as
      they are, and a version-3 header whose width and length are the
      extent, narrowed to 16 bits. */
  method Complete(active: map<I32, seq<BlockGroup>>, files: map<I32, Bytes>, ghost batches: map<I32, seq<seq<BlockGroup>>>,
                  ghost added: Ledger, opens: I32 -> bool, bounds: Bounds, list: seq<PaletteKey>,
                  tFwd: map<nat, Bytes>, ghost tOrder: seq<Bytes>, ghost tRev: map<Bytes, nat>,
                  nFwd: map<nat, Bytes>, ghost nOrder: seq<Bytes>, ghost nRev: map<Bytes, nat>,
                  vFwd: map<nat, Bytes>, ghost vOrder: seq<Bytes>, ghost vRev: map<Bytes, nat>,
                  height: U16, minY: I32, outputOpens: bool)
    returns (r: Result<Bytes>, ghost keys: seq<I32>, ghost regs: seq<seq<BlockRegion>>, files': map<I32, Bytes>,
             flushed: bool)
    requires Store(active, files, batches, added, map[]) && Fits(bounds)
    requires Numbering(tOrder, tFwd, tRev) && Numbering(nOrder, nFwd, nRev) && Numbering(vOrder, vFwd, vRev)
    requires |tOrder| <= 0x1_0000 && |nOrder| <= 0x100 && |vOrder| <= 0x100
    ensures r.Ok? <==> (forall k :: k in active ==> opens(k)) && outputOpens && Short(tOrder) && Short(nOrder) && Short(vOrder)
    ensures flushed <==> forall k :: k in active ==> opens(k)
    ensures r.Err? ==> Appended(active, files, files', opens)
    ensures r.Ok? ==> files' == map[] && Increasing(keys) && |regs| == |keys| && |keys| <= 0x1_0000_0000
    ensures r.Ok? ==>
              r.value == ContainerFile(3, false, WrapU16(FinalWidth(bounds)), WrapU16(FinalLength(bounds)), height,
                                       Records3(regs, keys, DynamicOrigins(bounds, minY)), list, tOrder, nOrder, vOrder)
    ensures r.Ok? ==> forall i :: 0 <= i < |keys| ==> Compressed(regs[i], In(added, keys[i]))
    ensures r.Ok? ==> forall k :: k !in keys ==> In(added, k) == multiset{}
  {
    keys, regs := [], [];
    ghost var bs;
    var f;
    f, files', bs := FlushEvery(active, files, batches, added, opens);
    flushed := f.Ok?;
    if f.Err? {
      return Err(f.msg), keys, regs, files', flushed;
    }
    if !outputOpens {
      return Err("Failed to create output file"), keys, regs, files', flushed;
    }
    var types := Listed(tFwd, tOrder, tRev);
    var names := Listed(nFwd, nOrder, nRev);
    var values := Listed(vFwd, vOrder, vRev);
    r, keys, regs := MergeV3(files', bs, added, bounds, list, types, names, values, height, minY);
    if r.Ok? {
      files' := map[];
    }
  }

  /** mergeAllCacheFiles of this writer once the output opened and nothing
      is held. */
  method MergeV3(files: map<I32, Bytes>, ghost batches: map<I32, seq<seq<BlockGroup>>>, ghost added: Ledger,
                 bounds: Bounds, list: seq<PaletteKey>, types: seq<Bytes>, names: seq<Bytes>, values: seq<Bytes>,
                 height: U16, minY: I32)
    returns (r: Result<Bytes>, ghost keys: seq<I32>, ghost regs: seq<seq<BlockRegion>>)
    requires Store(map[], files, batches, added, map[]) && Fits(bounds)
    requires |types| <= 0x1_0000 && |names| <= 0x100 && |values| <= 0x100
    ensures r.Ok? <==> Short(types) && Short(names) && Short(values)
    ensures Increasing(keys) && |regs| == |keys| && |keys| <= 0x1_0000_0000
    ensures r.Ok? ==>
              r.value == ContainerFile(3, false, WrapU16(FinalWidth(bounds)), WrapU16(FinalLength(bounds)), height,
                                       Records3(regs, keys, DynamicOrigins(bounds, minY)), list, types, names, values)
    ensures forall i :: 0 <= i < |keys| ==> Compressed(regs[i], In(added, keys[i]))
    ensures forall k :: k !in keys ==> In(added, k) == multiset{}
  {
    VerbatimAll(types);
    VerbatimAll(names);
    VerbatimAll(values);
    MergeableOf(added, map[], batches, map[]);
    var ks := AscendingKeys(files.Keys);
    IncreasingShort(ks);
    r, regs := MergeFiles(files, ks, list, types, names, values, 3, false, WrapU16(FinalWidth(bounds)),
                          WrapU16(FinalLength(bounds)), height, DynamicOrigins(bounds, minY), true, Verbatim, batches);
    keys := ks;
    CoverageNoLoss(files, batches, added, keys, regs);
  }

  /** With nothing lost, the records cover, per partition, every cell added. */
  lemma {:induction false} CoverageNoLoss(files: map<I32, Bytes>, batches: map<I32, seq<seq<BlockGroup>>>,
                                          added: Ledger, keys: seq<I32>, regs: seq<seq<BlockRegion>>)
    requires Store(map[], files, batches, added, map[])
    requires (forall k :: k in files <==> k in keys) && |regs| == |keys|
    requires forall i :: 0 <= i < |keys| ==> Compressed(regs[i], Cells(Concat(batches[keys[i]])))
    ensures forall i :: 0 <= i < |keys| ==> Compressed(regs[i], In(added, keys[i]))
    ensures forall k :: k !in keys ==> In(added, k) == multiset{}
  {
    Coverage(files, batches, added, map[], keys, regs);
    forall i | 0 <= i < |keys| ensures Compressed(regs[i], In(added, keys[i])) {
      assert In(added, keys[i]) - In(map[], keys[i]) == In(added, keys[i]);
    }
  }

  // ---------------------------------------------------------------------------
  // What each block of a batch became

  /** Palette id `pids[j]` stands for block `j`'s type and states, without
      payload. */
  ghost predicate Described(types: seq<Bytes>, names: seq<Bytes>, values: seq<Bytes>, list: seq<PaletteKey>,
                            pids: seq<PaletteId>, blocks: seq<BlockData>) {
    |pids| == |blocks| && forall j :: 0 <= j < |pids| ==> DescribedAt(types, names, values, list, pids, blocks, j)
  }

  ghost predicate DescribedAt(types: seq<Bytes>, names: seq<Bytes>, values: seq<Bytes>, list: seq<PaletteKey>,
                              pids: seq<PaletteId>, blocks: seq<BlockData>, j: int) {
    0 <= j < |pids| && j < |blocks| ==>
      && pids[j] < |list| && Named(types, names, values, list[pids[j]])
      && Describe(types, names, values, list[pids[j]]) == (blocks[j].blockType, blocks[j].states, None)
  }

  /** The numberings and the palette grew and one more block was described. */
  lemma {:induction false} DescribedSnoc(types: seq<Bytes>, names: seq<Bytes>, values: seq<Bytes>, list: seq<PaletteKey>,
                                         types': seq<Bytes>, names': seq<Bytes>, values': seq<Bytes>,
                                         list': seq<PaletteKey>, pids: seq<PaletteId>, blocks: seq<BlockData>,
                                         p: PaletteId, b: BlockData)
    requires Described(types, names, values, list, pids, blocks)
    requires types <= types' && names <= names' && values <= values' && list <= list'
    requires p < |list'| && Named(types', names', values', list'[p])
    requires Describe(types', names', values', list'[p]) == (b.blockType, b.states, None)
    ensures Described(types', names', values', list', pids + [p], blocks + [b])
  {
    var pids', blocks' := pids + [p], blocks + [b];
    forall j | 0 <= j < |pids'| ensures DescribedAt(types', names', values', list', pids', blocks', j) {
      if j < |pids| {
        assert DescribedAt(types, names, values, list, pids, blocks, j);
        assert pids'[j] == pids[j] && blocks'[j] == blocks[j] && list'[pids[j]] == list[pids[j]];
        NamedGrows(types, names, values, types', names', values', list[pids[j]]);
      }
    }
  }

  /** Widening by a batch from its `i`-th block on is widening by that
      block, then by the rest. */
  lemma {:induction false} WidenedAllStep(b: Bounds, blocks: seq<BlockData>, i: nat)
    requires i < |blocks|
    ensures WidenedAll(b, blocks[i..]) == WidenedAll(Widened(b, blocks[i].x, blocks[i].z), blocks[i + 1..])
  {
    assert blocks[i..][1..] == blocks[i + 1..];
  }

  /** What is left of a batch after its next block. */
  lemma {:induction false} BatchRest(blocks: seq<BlockData>, i: nat)
    requires i < |blocks|
    ensures blocks[i..][1..] == blocks[i + 1..] && blocks[i..][0] == blocks[i]
    ensures BatchTypes(blocks[i..]) == {blocks[i].blockType} + BatchTypes(blocks[i + 1..])
    ensures BatchNames(blocks[i..]) == StateNames(blocks[i].states) + BatchNames(blocks[i + 1..])
    ensures BatchValues(blocks[i..]) == StateValues(blocks[i].states) + BatchValues(blocks[i + 1..])
  {
    assert blocks[i..][1..] == blocks[i + 1..];
  }

  /** The palette either kept its list or appended the new key. */
  lemma {:induction false} Grew(l0: seq<PaletteKey>, l1: seq<PaletteKey>, p: nat)
    requires p < |l1| && (l1 == l0 || l1 == l0 + [l1[p]])
    ensures l0 <= l1 && |l1| <= |l0| + 1
  {
  }

  // ---------------------------------------------------------------------------
  // The writer

  class Writer {
    const meta: Metadata
    /** maxBlocksInMemory */
    const maxBlocks: nat
    const height: U16
    const minY: I32
    /** hasBounds, minX, maxX, minZ, maxZ */
    var bounds: Bounds
    /** activeSubChunks */
    var active: map<I32, seq<BlockGroup>>
    /** The spill file of each partition in subChunkCacheFiles, by contents. */
    var files: map<I32, Bytes>
    /** The batches each spill file holds. */
    ghost var batches: map<I32, seq<seq<BlockGroup>>>
    /** The cells handed to each partition. */
    ghost var added: Ledger

    ghost predicate Valid()
      reads this, meta, meta.types, meta.names, meta.values, meta.palette
    {
      meta.Valid() && Store(active, files, batches, added, map[]) && Fits(bounds)
    }

    /** The constructor: empty metadata, no bounds, nothing held, nothing
        spilled. The world width and length it also takes are replaced by
        the extent when the file is written, so they are not modelled. */
    constructor (maxBlocks: nat, height: U16, minY: I32)
      ensures Valid() && fresh(meta) && fresh(meta.types) && fresh(meta.names) && fresh(meta.values) && fresh(meta.palette)
      ensures this.maxBlocks == maxBlocks && this.height == height && this.minY == minY && bounds == NoBounds
      ensures active == map[] && files == map[] && added == map[]
      ensures meta.palette.list == [] && meta.types.order == []
    {
      meta := new Metadata();
      this.maxBlocks, this.height, this.minY := maxBlocks, height, minY;
      bounds, active, files := NoBounds, map[], map[];
      batches, added := map[], map[];
    }

    /** The insertion shared by addBlock and addBlocks: the bounds widen to
        the block, the block's palette id is interned, and the cell joins
        its partition at its position, both taken relative to the widened
        bounds. */
    method Insert(x: I32, y: I32, z: I32, blockType: Bytes, states: seq<(Bytes, Bytes)>, payload: Option<Bytes>)
      returns (ghost pid: PaletteId)
      requires Valid()
      requires |meta.types.nameToId.Keys + {blockType}| <= 0x1_0000
      requires |meta.names.nameToId.Keys + StateNames(states)| <= 0x100
      requires |meta.values.nameToId.Keys + StateValues(states)| <= 0x100
      requires |meta.palette.list| < 0x1_0000_0000
      requires Fits(Widened(bounds, x, z)) && LocalY(y) < 0x7FFF
      requires |In(added, DynamicIndex(Widened(bounds, x, z), x, z))| + 1 < 0x1_0000_0000
      modifies this, meta.types, meta.names, meta.values, meta.palette
      ensures Valid()
      ensures bounds == Widened(old(bounds), x, z) && files == old(files)
      ensures old(meta.types.order) <= meta.types.order && old(meta.names.order) <= meta.names.order
      ensures old(meta.values.order) <= meta.values.order && old(meta.palette.list) <= meta.palette.list
      ensures |meta.palette.list| <= old(|meta.palette.list|) + 1
      ensures meta.types.nameToId.Keys == old(meta.types.nameToId.Keys) + {blockType}
      ensures meta.names.nameToId.Keys <= old(meta.names.nameToId.Keys) + StateNames(states)
      ensures meta.values.nameToId.Keys <= old(meta.values.nameToId.Keys) + StateValues(states)
      ensures pid < |meta.palette.list| && Named(meta.types.order, meta.names.order, meta.values.order, meta.palette.list[pid])
      ensures Describe(meta.types.order, meta.names.order, meta.values.order, meta.palette.list[pid])
              == (blockType, states, payload)
      ensures added == old(added)[DynamicIndex(bounds, x, z) :=
                        In(old(added), DynamicIndex(bounds, x, z))
                        + multiset{(pid, DynamicLocal(bounds.minX, x), LocalY(y), DynamicLocal(bounds.minZ, z))}]
      ensures active == old(active)[DynamicIndex(bounds, x, z) :=
                          WithBlock(Held(old(active), DynamicIndex(bounds, x, z)), pid,
                                    DynamicLocal(bounds.minX, x), LocalY(y), DynamicLocal(bounds.minZ, z))]
    {
      var b := Widened(bounds, x, z);
      var id := Number(blockType, states, payload);
      pid := id;
      ghost var t1, n1, v1, l1 := meta.types.order, meta.names.order, meta.values.order, meta.palette.list;
      assert meta.palette as object != this && meta.types as object != this;
      assert meta.names as object != this && meta.values as object != this;
      Put(b, x, y, z, id);
      assert meta.types.order == t1 && meta.names.order == n1 && meta.values.order == v1 && meta.palette.list == l1;
      assert meta.Valid() && Store(active, files, batches, added, map[]) && Fits(bounds);
    }

    /** The block's palette id, as Metadata.Intern gives it. */
    method Number(blockType: Bytes, states: seq<(Bytes, Bytes)>, payload: Option<Bytes>) returns (pid: PaletteId)
      requires meta.Valid()
      requires |meta.types.nameToId.Keys + {blockType}| <= 0x1_0000
      requires |meta.names.nameToId.Keys + StateNames(states)| <= 0x100
      requires |meta.values.nameToId.Keys + StateValues(states)| <= 0x100
      requires |meta.palette.list| < 0x1_0000_0000
      modifies meta.types, meta.names, meta.values, meta.palette
      ensures meta.Valid()
      ensures old(meta.types.order) <= meta.types.order && old(meta.names.order) <= meta.names.order
      ensures old(meta.values.order) <= meta.values.order && old(meta.palette.list) <= meta.palette.list
      ensures |meta.palette.list| <= old(|meta.palette.list|) + 1
      ensures meta.types.nameToId.Keys == old(meta.types.nameToId.Keys) + {blockType}
      ensures meta.names.nameToId.Keys <= old(meta.names.nameToId.Keys) + StateNames(states)
      ensures meta.values.nameToId.Keys <= old(meta.values.nameToId.Keys) + StateValues(states)
      ensures pid < |meta.palette.list| && Named(meta.types.order, meta.names.order, meta.values.order, meta.palette.list[pid])
      ensures Describe(meta.types.order, meta.names.order, meta.values.order, meta.palette.list[pid])
              == (blockType, states, payload)
    {
      ghost var l0 := meta.palette.list;
      pid := meta.Intern(blockType, states, payload);
      Grew(l0, meta.palette.list, pid);
    }

    /** The cell joins the group of its palette id in its partition. */
    method Put(b: Bounds, x: I32, y: I32, z: I32, pid: PaletteId)
      requires Store(active, files, batches, added, map[]) && b.has && Fits(b) && Inside(x, z, b)
      requires LocalY(y) < 0x7FFF && |In(added, DynamicIndex(b, x, z))| + 1 < 0x1_0000_0000
      modifies this
      ensures Store(active, files, batches, added, map[]) && bounds == b && files == old(files)
      ensures added == old(added)[DynamicIndex(b, x, z) :=
                        In(old(added), DynamicIndex(b, x, z))
                        + multiset{(pid, DynamicLocal(b.minX, x), LocalY(y), DynamicLocal(b.minZ, z))}]
      ensures active == old(active)[DynamicIndex(b, x, z) :=
                          WithBlock(Held(old(active), DynamicIndex(b, x, z)), pid,
                                    DynamicLocal(b.minX, x), LocalY(y), DynamicLocal(b.minZ, z))]
    {
      var idx := DynamicIndex(b, x, z);
      var lx, ly, lz := DynamicLocal(b.minX, x), LocalY(y), DynamicLocal(b.minZ, z);
      StoreAdd(active, files, batches, added, map[], idx, pid, lx, ly, lz);
      var gs := AddBlockToGroup(Held(active, idx), pid, lx, ly, lz);
      active, added, bounds := active[idx := gs], added[idx := In(added, idx) + multiset{(pid, lx, ly, lz)}], b;
    }

    /** checkAndFlush: as ShedToTarget describes. */
    method CheckAndFlush(opens: I32 -> bool) returns (r: Result<()>)
      requires Store(active, files, batches, added, map[])
      modifies this
      ensures Store(active, files, batches, added, map[]) && added == old(added) && bounds == old(bounds)
      ensures Total(old(active)) < maxBlocks ==> r.Ok? && active == old(active) && files == old(files)
      ensures r.Ok? && Total(old(active)) >= maxBlocks ==> Total(active) <= Target(maxBlocks)
      ensures Shed(old(active), active, Target(maxBlocks))
      ensures Flushed(old(active), active, old(files), files, map[], map[], opens)
      ensures r.Err? ==> exists k :: && k in active && !opens(k) && Total(active) > Target(maxBlocks)
                                     && forall j :: j in active ==> Size(active[j]) <= Size(active[k])
    {
      r, active, files, batches := ShedToTarget(active, files, batches, added, maxBlocks, opens);
    }

    /** addBlock: the insertion, then a check of the memory bound after
        every block; `held` is what was held before the check. */
    method AddBlock(x: I32, y: I32, z: I32, blockType: Bytes, states: seq<(Bytes, Bytes)>, payload: Option<Bytes>,
                    opens: I32 -> bool)
      returns (r: Result<()>, ghost pid: PaletteId, ghost held: map<I32, seq<BlockGroup>>)
      requires Valid()
      requires |meta.types.nameToId.Keys + {blockType}| <= 0x1_0000
      requires |meta.names.nameToId.Keys + StateNames(states)| <= 0x100
      requires |meta.values.nameToId.Keys + StateValues(states)| <= 0x100
      requires |meta.palette.list| < 0x1_0000_0000
      requires Fits(Widened(bounds, x, z)) && LocalY(y) < 0x7FFF
      requires |In(added, DynamicIndex(Widened(bounds, x, z), x, z))| + 1 < 0x1_0000_0000
      modifies this, meta.types, meta.names, meta.values, meta.palette
      ensures Valid()
      ensures bounds == Widened(old(bounds), x, z)
      ensures pid < |meta.palette.list| && Named(meta.types.order, meta.names.order, meta.values.order, meta.palette.list[pid])
      ensures Describe(meta.types.order, meta.names.order, meta.values.order, meta.palette.list[pid])
              == (blockType, states, payload)
      ensures added == old(added)[DynamicIndex(bounds, x, z) :=
                        In(old(added), DynamicIndex(bounds, x, z))
                        + multiset{(pid, DynamicLocal(bounds.minX, x), LocalY(y), DynamicLocal(bounds.minZ, z))}]
      ensures held == old(active)[DynamicIndex(bounds, x, z) :=
                        WithBlock(Held(old(active), DynamicIndex(bounds, x, z)), pid,
                                  DynamicLocal(bounds.minX, x), LocalY(y), DynamicLocal(bounds.minZ, z))]
      ensures Total(held) < maxBlocks ==> r.Ok? && active == held && files == old(files)
      ensures r.Ok? && Total(held) >= maxBlocks ==> Total(active) <= Target(maxBlocks)
      ensures Shed(held, active, Target(maxBlocks)) && Flushed(held, active, old(files), files, map[], map[], opens)
    {
      pid := Insert(x, y, z, blockType, states, payload);
      held := active;
      ghost var t1, n1, v1, l1 := meta.types.order, meta.names.order, meta.values.order, meta.palette.list;
      assert meta.palette as object != this && meta.types as object != this;
      assert meta.names as object != this && meta.values as object != this;
      r := CheckAndFlush(opens);
      assert meta.types.order == t1 && meta.names.order == n1 && meta.values.order == v1 && meta.palette.list == l1;
      assert meta.Valid() && Store(active, files, batches, added, map[]) && Fits(bounds);
    }

    /** addBlocks, with each block's local y taken from its y (see
        BatchLocalYAsWritten): every block is inserted as addBlock inserts
        it, without payload, and the memory bound is checked once at the
        end. The window `w` holds every block, so no extent overflows. */
    method AddBlocks(blocks: seq<BlockData>, opens: I32 -> bool, ghost w: Bounds)
      returns (r: Result<()>, ghost pids: seq<PaletteId>, ghost held: map<I32, seq<BlockGroup>>)
      requires Valid()
      requires |meta.types.nameToId.Keys + BatchTypes(blocks)| <= 0x1_0000
      requires |meta.names.nameToId.Keys + BatchNames(blocks)| <= 0x100
      requires |meta.values.nameToId.Keys + BatchValues(blocks)| <= 0x100
      requires |meta.palette.list| + |blocks| <= 0x1_0000_0000
      requires w.has && Fits(w) && Within(bounds, w)
      requires forall i :: 0 <= i < |blocks| ==> Inside(blocks[i].x, blocks[i].z, w) && BatchLocalY(blocks[i]) < 0x7FFF
      requires Room(added, |blocks|)
      modifies this, meta.types, meta.names, meta.values, meta.palette
      ensures Valid()
      ensures bounds == WidenedAll(old(bounds), blocks)
      ensures Described(meta.types.order, meta.names.order, meta.values.order, meta.palette.list, pids, blocks)
      ensures Total(held) < maxBlocks ==> r.Ok? && active == held && files == old(files)
      ensures r.Ok? && Total(held) >= maxBlocks ==> Total(active) <= Target(maxBlocks)
      ensures Shed(held, active, Target(maxBlocks)) && Flushed(held, active, old(files), files, map[], map[], opens)
    {
      pids := InsertAll(blocks, w);
      held := active;
      ghost var t1, n1, v1, l1 := meta.types.order, meta.names.order, meta.values.order, meta.palette.list;
      assert meta.palette as object != this && meta.types as object != this;
      assert meta.names as object != this && meta.values as object != this;
      r := CheckAndFlush(opens);
      assert meta.types.order == t1 && meta.names.order == n1 && meta.values.order == v1 && meta.palette.list == l1;
      assert meta.Valid() && Store(active, files, batches, added, map[]) && Fits(bounds);
    }

    /** The insertions of addBlocks, block by block. */
    method InsertAll(blocks: seq<BlockData>, ghost w: Bounds) returns (ghost pids: seq<PaletteId>)
      requires Valid()
      requires |meta.types.nameToId.Keys + BatchTypes(blocks)| <= 0x1_0000
      requires |meta.names.nameToId.Keys + BatchNames(blocks)| <= 0x100
      requires |meta.values.nameToId.Keys + BatchValues(blocks)| <= 0x100
      requires |meta.palette.list| + |blocks| <= 0x1_0000_0000
      requires w.has && Fits(w) && Within(bounds, w)
      requires forall i :: 0 <= i < |blocks| ==> Inside(blocks[i].x, blocks[i].z, w) && BatchLocalY(blocks[i]) < 0x7FFF
      requires Room(added, |blocks|)
      modifies this, meta.types, meta.names, meta.values, meta.palette
      ensures Valid() && files == old(files)
      ensures bounds == WidenedAll(old(bounds), blocks)
      ensures Described(meta.types.order, meta.names.order, meta.values.order, meta.palette.list, pids, blocks)
    {
      pids := [];
      var i := 0;
      assert blocks[..0] == [] && blocks[0..] == blocks;
      assert Described(meta.types.order, meta.names.order, meta.values.order, meta.palette.list, [], []);
      while i < |blocks|
        invariant Batching(blocks, i, w, old(bounds), pids) && files == old(files)
      {
        var pid := InsertNext(blocks, i, w, old(bounds), pids);
        pids := pids + [pid];
        i := i + 1;
      }
      assert blocks[i..] == [];
      TakeAll(blocks);
    }

    /** The state between the blocks of a batch: the first `i` blocks are
        inserted, the bounds widened by them stay inside the window, and the
        rest still fit the numberings, the palette and the partitions. */
    ghost predicate Batching(blocks: seq<BlockData>, i: int, w: Bounds, start: Bounds, pids: seq<PaletteId>)
      reads this, meta, meta.types, meta.names, meta.values, meta.palette
    {
      && 0 <= i <= |blocks| && |pids| == i
      && Valid() && Within(bounds, w)
      && WidenedAll(bounds, blocks[i..]) == WidenedAll(start, blocks)
      && |meta.types.nameToId.Keys + BatchTypes(blocks[i..])| <= 0x1_0000
      && |meta.names.nameToId.Keys + BatchNames(blocks[i..])| <= 0x100
      && |meta.values.nameToId.Keys + BatchValues(blocks[i..])| <= 0x100
      && |meta.palette.list| + (|blocks| - i) <= 0x1_0000_0000
      && Room(added, |blocks| - i)
      && Described(meta.types.order, meta.names.order, meta.values.order, meta.palette.list, pids, blocks[..i])
    }

    /** One block of addBlocks, inserted as addBlock inserts it, without
        payload and with its local y taken from its y. */
    method InsertNext(blocks: seq<BlockData>, i: nat, ghost w: Bounds, ghost start: Bounds, ghost pids: seq<PaletteId>)
      returns (ghost pid: PaletteId)
      requires Batching(blocks, i, w, start, pids) && i < |blocks|
      requires w.has && Fits(w) && Inside(blocks[i].x, blocks[i].z, w) && BatchLocalY(blocks[i]) < 0x7FFF
      modifies this, meta.types, meta.names, meta.values, meta.palette
      ensures Batching(blocks, i + 1, w, start, pids + [pid]) && files == old(files)
    {
      var b := blocks[i];
      BatchRest(blocks, i);
      ghost var t0, n0, v0, l0 := meta.types.order, meta.names.order, meta.values.order, meta.palette.list;
      ghost var tk, nk, vk := meta.types.nameToId.Keys, meta.names.nameToId.Keys, meta.values.nameToId.Keys;
      SubsetCard(tk + {b.blockType}, tk + BatchTypes(blocks[i..]));
      SubsetCard(nk + StateNames(b.states), nk + BatchNames(blocks[i..]));
      SubsetCard(vk + StateValues(b.states), vk + BatchValues(blocks[i..]));
      WidenedWithin(bounds, w, b.x, b.z);
      WidenedAllStep(bounds, blocks, i);
      ghost var k := DynamicIndex(Widened(bounds, b.x, b.z), b.x, b.z);
      ghost var a0, bd0 := added, bounds;
      assert |In(added, k)| + (|blocks| - i) < 0x1_0000_0000;
      pid := Insert(b.x, b.y, b.z, b.blockType, b.states, None);
      assert bounds == Widened(bd0, b.x, b.z);
      ghost var c: Cell := (pid, DynamicLocal(bounds.minX, b.x), LocalY(b.y), DynamicLocal(bounds.minZ, b.z));
      assert k == DynamicIndex(bounds, b.x, b.z);
      RoomAdd(a0, added, |blocks| - i, |blocks| - (i + 1), k, c);
      SubsetCard(meta.types.nameToId.Keys + BatchTypes(blocks[i + 1..]), tk + BatchTypes(blocks[i..]));
      SubsetCard(meta.names.nameToId.Keys + BatchNames(blocks[i + 1..]), nk + BatchNames(blocks[i..]));
      SubsetCard(meta.values.nameToId.Keys + BatchValues(blocks[i + 1..]), vk + BatchValues(blocks[i..]));
      DescribedSnoc(t0, n0, v0, l0, meta.types.order, meta.names.order, meta.values.order, meta.palette.list,
                    pids, blocks[..i], pid, b);
      TakeNext(blocks, i);
      assert Valid() && Within(bounds, w);
      assert WidenedAll(bounds, blocks[i + 1..]) == WidenedAll(start, blocks);
      assert |meta.palette.list| + (|blocks| - (i + 1)) <= 0x1_0000_0000;
      assert |meta.types.nameToId.Keys + BatchTypes(blocks[i + 1..])| <= 0x1_0000;
      assert |meta.names.nameToId.Keys + BatchNames(blocks[i + 1..])| <= 0x100;
      assert |meta.values.nameToId.Keys + BatchValues(blocks[i + 1..])| <= 0x100;
      assert Room(added, |blocks| - (i + 1));
      assert Described(meta.types.order, meta.names.order, meta.values.order, meta.palette.list, pids + [pid], blocks[..i + 1]);
    }

    /** finalize: every held partition is flushed in ascending order (the
        first spill file that does not open throws), the spill files are
        merged into a version-3 container, and on success they are removed.
        The boxes of each record cover exactly the coordinates, per palette
        id, of the cells added to that partition. */
    method Finalize(opens: I32 -> bool, outputOpens: bool)
      returns (r: Result<Bytes>, ghost keys: seq<I32>, ghost regs: seq<seq<BlockRegion>>)
      requires Valid()
      modifies this
      ensures bounds == old(bounds) && Fits(bounds) && added == old(added)
      ensures r.Ok? <==> (forall k :: k in old(active) ==> opens(k)) && outputOpens && Short(old(meta.types.order))
                         && Short(old(meta.names.order)) && Short(old(meta.values.order))
      ensures r.Ok? ==> active == map[] && files == map[] && Increasing(keys) && |regs| == |keys|
      ensures r.Ok? ==> |keys| <= 0x1_0000_0000
      ensures r.Ok? ==>
                r.value == ContainerFile(3, false, WrapU16(FinalWidth(old(bounds))), WrapU16(FinalLength(old(bounds))), height,
                                         Records3(regs, keys, DynamicOrigins(old(bounds), minY)), old(meta.palette.list),
                                         old(meta.types.order), old(meta.names.order), old(meta.values.order))
      ensures r.Ok? ==> forall i :: 0 <= i < |keys| ==> Compressed(regs[i], In(old(added), keys[i]))
      ensures r.Ok? ==> forall k :: k !in keys ==> In(old(added), k) == multiset{}
      ensures r.Err? ==> Appended(old(active), old(files), files, opens)
      ensures r.Err? ==> active == if forall k :: k in old(active) ==> opens(k) then map[] else old(active)
    {
      // The fields are read once, before the call, so that the container
      // the call describes is stated over plain values.
      var fs;
      var held, spilled, b, list := active, files, bounds, meta.palette.list;
      ghost var bs, ad := batches, added;
      var tFwd, nFwd, vFwd := meta.types.idToName, meta.names.idToName, meta.values.idToName;
      ghost var tOrder, tRev := meta.types.order, meta.types.nameToId;
      ghost var nOrder, nRev := meta.names.order, meta.names.nameToId;
      ghost var vOrder, vRev := meta.values.order, meta.values.nameToId;
      var flushed;
      r, keys, regs, fs, flushed := Complete(held, spilled, bs, ad, opens, b, list, tFwd, tOrder, tRev, nFwd, nOrder, nRev,
                                             vFwd, vOrder, vRev, height, minY, outputOpens);
      Conclude(r.Ok?, flushed, fs);
    }

    /** What finalize leaves. The flush loop does not erase: the held
        partitions are cleared only once every one of them is flushed, so a
        spill file that does not open leaves them all held, with the files
        before it already appended to. On success the spill files are
        removed. */
    method Conclude(ok: bool, flushed: bool, fs: map<I32, Bytes>)
      modifies this
      ensures active == (if flushed then map[] else old(active))
      ensures files == fs
      ensures batches == (if ok then map[] else old(batches))
      ensures bounds == old(bounds) && added == old(added)
    {
      if flushed {
        active := map[];
      }
      files := fs;
      if ok {
        batches := map[];
      }
    }
  }
}

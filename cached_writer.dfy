/** The latest cached writer (Writer/BCFCachedWriter.hpp). Blocks are
    numbered through the writer's metadata and bucketed into partitions of
    144 x 144 columns; every 200 blocks, when too many are held, the largest
    partitions are appended to their spill files until few enough remain;
    finalize spills the rest and merges the spill files into the version-4
    container. The ghost ledgers `added` and `lost` record per partition the
    cells handed to the writer and the cells whose spill file could not be
    opened. */
module CachedWriter {
  import opened Wrappers
  import opened LittleEndian
  import opened Structs
  import opened BlockGroups
  import opened Spill
  import opened Partitions
  import opened Tables
  import opened Container
  import opened Interning
  import opened CacheMerge

  /** FLUSH_CHECK_INTERVAL: blocks between two checks of the memory bound. */
  const FlushCheckInterval: nat := 200

  /** The default bound on the blocks held in memory. */
  const DefaultMaxBlocks: nat := 5000

  type Ledger = map<I32, multiset<Cell>>

  function In(m: Ledger, k: I32): multiset<Cell> {
    if k in m then m[k] else multiset{}
  }

  /** The partition `activeSubChunks[k]` would give: empty when absent. */
  function Held(active: map<I32, seq<BlockGroup>>, k: I32): seq<BlockGroup> {
    if k in active then active[k] else []
  }

  /** The spill file of a partition, empty before its first flush. */
  function FileOf(files: map<I32, Bytes>, k: I32): Bytes {
    if k in files then files[k] else []
  }

  function Spilled(batches: map<I32, seq<seq<BlockGroup>>>, k: I32): seq<seq<BlockGroup>> {
    if k in batches then batches[k] else []
  }

  // ---------------------------------------------------------------------------
  // Where every cell is

  /** Every cell handed to the writer for partition `k` is held in memory, in
      that partition's spill file, or lost to a spill file that failed to
      open, and nothing else is in any of them. */
  ghost predicate Conserved(added: Ledger, active: map<I32, seq<BlockGroup>>,
                            batches: map<I32, seq<seq<BlockGroup>>>, lost: Ledger) {
    forall k :: ConservedAt(added, active, batches, lost, k)
  }

  ghost predicate ConservedAt(added: Ledger, active: map<I32, seq<BlockGroup>>,
                              batches: map<I32, seq<seq<BlockGroup>>>, lost: Ledger, k: I32) {
    In(added, k) == Cells(Held(active, k)) + Cells(Concat(Spilled(batches, k))) + In(lost, k)
  }

  /** Fewer than 2^32 cells per partition, every coordinate below the
      compressor's limit. */
  ghost predicate Bounded(added: Ledger) {
    forall k :: BoundedAt(added, k)
  }

  ghost predicate BoundedAt(added: Ledger, k: I32) {
    |In(added, k)| < 0x1_0000_0000 && forall c :: c in In(added, k) ==> c.1 < 0x7FFF && c.2 < 0x7FFF && c.3 < 0x7FFF
  }

  /** Every held partition is a well-formed partition. */
  ghost predicate AllPartitions(active: map<I32, seq<BlockGroup>>) {
    forall k :: PartitionAt(active, k)
  }

  ghost predicate PartitionAt(active: map<I32, seq<BlockGroup>>, k: I32) {
    k in active ==> Partition(active[k])
  }

  /** A block added to partition `k`. */
  lemma {:induction false} ConservedAdd(added: Ledger, active: map<I32, seq<BlockGroup>>,
                                        batches: map<I32, seq<seq<BlockGroup>>>, lost: Ledger,
                                        k: I32, c: Cell, gs: seq<BlockGroup>)
    requires Conserved(added, active, batches, lost)
    requires Cells(gs) == Cells(Held(active, k)) + multiset{c}
    ensures Conserved(added[k := In(added, k) + multiset{c}], active[k := gs], batches, lost)
  {
    var added', active' := added[k := In(added, k) + multiset{c}], active[k := gs];
    forall j ensures ConservedAt(added', active', batches, lost, j) {
      assert ConservedAt(added, active, batches, lost, j);
      if j != k {
        assert In(added', j) == In(added, j) && Held(active', j) == Held(active, j);
      } else {
        ShuffleAdd(Cells(Held(active, k)), Cells(Concat(Spilled(batches, k))), In(lost, k), multiset{c});
      }
    }
  }

  lemma {:induction false} ShuffleAdd(a: multiset<Cell>, b: multiset<Cell>, c: multiset<Cell>, d: multiset<Cell>)
    ensures a + b + c + d == (a + d) + b + c
  {
  }

  lemma {:induction false} ShuffleSpill(a: multiset<Cell>, b: multiset<Cell>, c: multiset<Cell>)
    ensures a + b + c == multiset{} + (b + a) + c
  {
  }

  lemma {:induction false} ShuffleLose(a: multiset<Cell>, b: multiset<Cell>, c: multiset<Cell>)
    ensures a + b + c == multiset{} + b + (c + a)
  {
  }

  /** Partition `k` appended to its spill file. */
  lemma {:induction false} ConservedSpill(added: Ledger, active: map<I32, seq<BlockGroup>>,
                                          batches: map<I32, seq<seq<BlockGroup>>>, lost: Ledger, k: I32)
    requires Conserved(added, active, batches, lost) && k in active
    requires AllWellFormed(active[k]) && AllSpillable(Spilled(batches, k))
    ensures Conserved(added, active - {k}, batches[k := Spilled(batches, k) + [active[k]]], lost)
  {
    var active', batches' := active - {k}, batches[k := Spilled(batches, k) + [active[k]]];
    ConcatSnoc(Spilled(batches, k), active[k]);
    ConcatWellFormed(Spilled(batches, k));
    AlignedOf(Concat(Spilled(batches, k)));
    AlignedOf(active[k]);
    CellsAppend(Concat(Spilled(batches, k)), active[k]);
    forall j ensures ConservedAt(added, active', batches', lost, j) {
      assert ConservedAt(added, active, batches, lost, j);
      if j != k {
        assert Held(active', j) == Held(active, j) && Spilled(batches', j) == Spilled(batches, j);
      } else {
        assert Held(active', j) == [] && Held(active, j) == active[k];
        ShuffleSpill(Cells(active[k]), Cells(Concat(Spilled(batches, k))), In(lost, k));
      }
    }
  }

  /** Partition `k` dropped because its spill file did not open. */
  lemma {:induction false} ConservedLose(added: Ledger, active: map<I32, seq<BlockGroup>>,
                                         batches: map<I32, seq<seq<BlockGroup>>>, lost: Ledger, k: I32)
    requires Conserved(added, active, batches, lost) && k in active
    ensures Conserved(added, active - {k}, batches, lost[k := In(lost, k) + Cells(active[k])])
  {
    var active', lost' := active - {k}, lost[k := In(lost, k) + Cells(active[k])];
    forall j ensures ConservedAt(added, active', batches, lost', j) {
      assert ConservedAt(added, active, batches, lost, j);
      if j != k {
        assert Held(active', j) == Held(active, j) && In(lost', j) == In(lost, j);
      } else {
        assert Held(active', j) == [] && Held(active, j) == active[k];
        ShuffleLose(Cells(active[k]), Cells(Concat(Spilled(batches, k))), In(lost, k));
      }
    }
  }

  lemma {:induction false} AlignedOf(gs: seq<BlockGroup>)
    requires AllWellFormed(gs)
    ensures AllAligned(gs)
  {
    forall i | 0 <= i < |gs| ensures Aligned(gs[i]) { assert gs[i].WellFormed(); }
  }

  lemma {:induction false} BoundedAdd(added: Ledger, k: I32, c: Cell)
    requires Bounded(added) && |In(added, k)| + 1 < 0x1_0000_0000
    requires c.1 < 0x7FFF && c.2 < 0x7FFF && c.3 < 0x7FFF
    ensures Bounded(added[k := In(added, k) + multiset{c}])
  {
    var added' := added[k := In(added, k) + multiset{c}];
    forall j ensures BoundedAt(added', j) {
      assert BoundedAt(added, j);
      if j != k {
        assert In(added', j) == In(added, j);
      }
    }
  }

  /** A held partition has no more blocks than were added to it. */
  lemma {:induction false} HeldSize(added: Ledger, active: map<I32, seq<BlockGroup>>,
                                    batches: map<I32, seq<seq<BlockGroup>>>, lost: Ledger, k: I32)
    requires Conserved(added, active, batches, lost) && AllWellFormed(Held(active, k))
    ensures Size(Held(active, k)) <= |In(added, k)|
  {
    SizeIsCells(Held(active, k));
    assert ConservedAt(added, active, batches, lost, k);
  }

  /** A partition has no more groups than blocks. */
  lemma {:induction false} PartitionShort(gs: seq<BlockGroup>)
    requires Partition(gs)
    ensures |gs| <= Size(gs)
    decreases |gs|
  {
    if gs != [] {
      var init := gs[..|gs| - 1];
      assert Partition(init) by {
        forall i | 0 <= i < |init| ensures init[i].WellFormed() && init[i].count > 0 { assert init[i] == gs[i]; }
        forall i, j | 0 <= i < j < |init| ensures init[i].paletteId != init[j].paletteId {
          assert init[i] == gs[i] && init[j] == gs[j];
        }
      }
      PartitionShort(init);
      assert gs[|gs| - 1].count > 0;
    }
  }

  /** The spilled cells of a partition are within the compressor's limits. */
  lemma {:induction false} MergeableOf(added: Ledger, active: map<I32, seq<BlockGroup>>,
                                       batches: map<I32, seq<seq<BlockGroup>>>, lost: Ledger)
    requires Conserved(added, active, batches, lost) && Bounded(added)
    ensures forall k :: k in batches ==> Mergeable(Concat(batches[k]))
  {
    forall k | k in batches ensures Mergeable(Concat(batches[k])) {
      var spilled := Cells(Concat(batches[k]));
      assert ConservedAt(added, active, batches, lost, k);
      assert Spilled(batches, k) == batches[k];
      assert BoundedAt(added, k);
      forall c | c in spilled ensures c.1 < 0x7FFF && c.2 < 0x7FFF && c.3 < 0x7FFF {
        assert c in In(added, k);
      }
    }
  }

  /** With nothing held, a partition's spill file holds what was added to it
      and not lost, and a partition without one lost all its blocks. */
  lemma {:induction false} AllSpilled(added: Ledger, batches: map<I32, seq<seq<BlockGroup>>>, lost: Ledger)
    requires Conserved(added, map[], batches, lost)
    ensures forall k :: k in batches ==> Cells(Concat(batches[k])) == In(added, k) - In(lost, k)
    ensures forall k :: k !in batches ==> In(added, k) == In(lost, k)
  {
    forall k ensures In(added, k) == Cells(Concat(Spilled(batches, k))) + In(lost, k) {
      assert ConservedAt(added, map[], batches, lost, k);
      assert Held(map[], k) == [];
    }
  }

  /** One more batch in a spill file. */
  lemma {:induction false} SpillFilesSnoc(files: map<I32, Bytes>, batches: map<I32, seq<seq<BlockGroup>>>,
                                          k: I32, gs: seq<BlockGroup>)
    requires SpillFiles(files, batches) && Spillable(gs)
    ensures AllSpillable(Spilled(batches, k)) && FileOf(files, k) == SpillBytes(Spilled(batches, k))
    ensures SpillFiles(files[k := FileOf(files, k) + BatchBytes(gs)], batches[k := Spilled(batches, k) + [gs]])
  {
    assert SpillFileAt(files, batches, k);
    SpillBytesSnoc(Spilled(batches, k), gs);
    var files', batches' := files[k := FileOf(files, k) + BatchBytes(gs)], batches[k := Spilled(batches, k) + [gs]];
    forall j ensures SpillFileAt(files', batches', j) {
      assert SpillFileAt(files, batches, j);
    }
  }

  /** What the writer keeps true of its buckets, spill files and ledgers. */
  ghost predicate Store(active: map<I32, seq<BlockGroup>>, files: map<I32, Bytes>,
                        batches: map<I32, seq<seq<BlockGroup>>>, added: Ledger, lost: Ledger) {
    AllPartitions(active) && SpillFiles(files, batches) && Conserved(added, active, batches, lost) && Bounded(added)
  }

  /** addBlockToGroup on partition `k` keeps the store. */
  lemma {:induction false} StoreAdd(active: map<I32, seq<BlockGroup>>, files: map<I32, Bytes>,
                                    batches: map<I32, seq<seq<BlockGroup>>>, added: Ledger, lost: Ledger,
                                    k: I32, pid: PaletteId, x: Coord, y: Coord, z: Coord)
    requires Store(active, files, batches, added, lost)
    requires |In(added, k)| + 1 < 0x1_0000_0000 && x < 0x7FFF && y < 0x7FFF && z < 0x7FFF
    ensures Store(active[k := WithBlock(Held(active, k), pid, x, y, z)], files, batches,
                  added[k := In(added, k) + multiset{(pid, x, y, z)}], lost)
  {
    var gs := Held(active, k);
    assert PartitionAt(active, k);
    assert Partition(gs);
    HeldSize(added, active, batches, lost, k);
    WithBlockSpec(gs, pid, x, y, z);
    var gs' := WithBlock(gs, pid, x, y, z);
    ConservedAdd(added, active, batches, lost, k, (pid, x, y, z), gs');
    BoundedAdd(added, k, (pid, x, y, z));
    var active' := active[k := gs'];
    assert AllPartitions(active') by {
      forall j ensures PartitionAt(active', j) {
        assert PartitionAt(active, j);
      }
    }
  }

  /** Partition `k` appended to its spill file keeps the store. */
  lemma {:induction false} StoreSpill(active: map<I32, seq<BlockGroup>>, files: map<I32, Bytes>,
                                      batches: map<I32, seq<seq<BlockGroup>>>, added: Ledger, lost: Ledger, k: I32,
                                      active1: map<I32, seq<BlockGroup>>, files1: map<I32, Bytes>,
                                      batches1: map<I32, seq<seq<BlockGroup>>>)
    requires Store(active, files, batches, added, lost) && k in active && Partition(active[k])
    requires active1 == active - {k} && files1 == files[k := FileOf(files, k) + BatchBytes(active[k])]
    requires batches1 == batches[k := Spilled(batches, k) + [active[k]]]
    ensures AllWellFormed(active[k])
    ensures Store(active1, files1, batches1, added, lost)
  {
    var gs := active[k];
    assert Held(active, k) == gs;
    HeldSize(added, active, batches, lost, k);
    PartitionShort(gs);
    assert BoundedAt(added, k);
    SpillFilesSnoc(files, batches, k, gs);
    ConservedSpill(added, active, batches, lost, k);
    PartitionsRemove(active, k);
  }

  /** Partition `k` dropped keeps the store, its cells lost. */
  lemma {:induction false} StoreLose(active: map<I32, seq<BlockGroup>>, files: map<I32, Bytes>,
                                     batches: map<I32, seq<seq<BlockGroup>>>, added: Ledger, lost: Ledger, k: I32,
                                     active1: map<I32, seq<BlockGroup>>, lost1: Ledger)
    requires Store(active, files, batches, added, lost) && k in active
    requires active1 == active - {k} && lost1 == lost[k := In(lost, k) + Cells(active[k])]
    ensures Store(active1, files, batches, added, lost1)
  {
    ConservedLose(added, active, batches, lost, k);
    PartitionsRemove(active, k);
  }

  lemma {:induction false} PartitionOf(active: map<I32, seq<BlockGroup>>, k: I32)
    requires AllPartitions(active) && k in active
    ensures Partition(active[k])
  {
    assert PartitionAt(active, k);
  }

  lemma {:induction false} PartitionsRemove(active: map<I32, seq<BlockGroup>>, k: I32)
    requires AllPartitions(active)
    ensures AllPartitions(active - {k})
  {
    forall j ensures PartitionAt(active - {k}, j) {
      assert PartitionAt(active, j);
    }
  }

  /** One partition leaves memory (the erase of checkAndFlush, or the clear
      of finalize) and flushSubChunkToCache appends it to its spill file as
      a batch; when the file does not open the error is only logged, and as
      the partition has already left memory its blocks are lost. */
  method Evict(active: map<I32, seq<BlockGroup>>, files: map<I32, Bytes>, ghost batches: map<I32, seq<seq<BlockGroup>>>,
               ghost added: Ledger, ghost lost: Ledger, k: I32, fileOpens: bool)
    returns (active': map<I32, seq<BlockGroup>>, files': map<I32, Bytes>,
             ghost batches': map<I32, seq<seq<BlockGroup>>>, ghost lost': Ledger)
    requires Store(active, files, batches, added, lost) && k in active
    ensures Store(active', files', batches', added, lost')
    ensures active' == active - {k}
    ensures fileOpens ==> (lost' == lost && AllWellFormed(active[k])
                           && files' == files[k := FileOf(files, k) + BatchBytes(active[k])])
    ensures !fileOpens ==> files' == files && lost' == lost[k := In(lost, k) + Cells(active[k])]
  {
    var groups := active[k];
    PartitionOf(active, k);
    active' := active - {k};
    if fileOpens {
      ghost var f1 := files[k := FileOf(files, k) + BatchBytes(groups)];
      batches' := batches[k := Spilled(batches, k) + [groups]];
      StoreSpill(active, files, batches, added, lost, k, active', f1, batches');
      var file := AppendBatch(FileOf(files, k), groups);
      files', lost' := files[k := file], lost;
    } else {
      lost' := lost[k := In(lost, k) + Cells(groups)];
      StoreLose(active, files, batches, added, lost, k, active', lost');
      files', batches' := files, batches;
    }
  }

  // ---------------------------------------------------------------------------
  // The surveys of checkAndFlush

  /** The size of every held partition, as checkAndFlush lists them. */
  method SurveySizes(active: map<I32, seq<BlockGroup>>) returns (sizes: map<I32, nat>)
    ensures sizes.Keys == active.Keys && forall k :: k in active ==> sizes[k] == Size(active[k])
  {
    sizes := map[];
    var rest := active.Keys;
    while rest != {}
      invariant rest <= active.Keys && sizes.Keys == active.Keys - rest
      invariant forall k :: k in sizes ==> sizes[k] == Size(active[k])
      decreases |rest|
    {
      var k :| k in rest;
      var n := PartitionSize(active[k]);
      sizes := sizes[k := n];
      rest := rest - {k};
    }
  }

  /** The next entry of the sizes sorted in descending order: some remaining
      partition of the greatest size. std::sort is not stable, so among equal
      sizes any may come first. */
  method Largest(keys: set<I32>, sizes: map<I32, nat>) returns (k: I32)
    requires keys != {} && keys <= sizes.Keys
    ensures k in keys && forall j :: j in keys ==> sizes[j] <= sizes[k]
  {
    k :| k in keys;
    var rest := keys - {k};
    while rest != {}
      invariant rest <= keys && k in keys
      invariant forall j :: j in keys && j !in rest ==> sizes[j] <= sizes[k]
      decreases |rest|
    {
      var j :| j in rest;
      if sizes[j] > sizes[k] {
        k := j;
      }
      rest := rest - {j};
    }
  }

  /** The partitions checkAndFlush leaves in memory, out of `a0`: untouched,
      none larger than any that left, and the last to leave still needed to
      get down to the bound. */
  ghost predicate Shed(a0: map<I32, seq<BlockGroup>>, a1: map<I32, seq<BlockGroup>>, maxBlocks: nat) {
    && a1.Keys <= a0.Keys
    && (forall k :: k in a1 ==> a1[k] == a0[k])
    && (forall e, k :: e in a0 && e !in a1 && k in a1 ==> Size(a0[e]) >= Size(a1[k]))
    && (a1 != a0 ==> exists e :: e in a0 && e !in a1 && Total(a1) + Size(a0[e]) > maxBlocks)
  }

  lemma {:induction false} ShedNone(a: map<I32, seq<BlockGroup>>, maxBlocks: nat)
    ensures Shed(a, a, maxBlocks)
  {
  }

  /** Taking out a largest partition while above the bound keeps Shed. */
  lemma {:induction false} ShedStep(a0: map<I32, seq<BlockGroup>>, a1: map<I32, seq<BlockGroup>>, maxBlocks: nat, k: I32)
    requires Shed(a0, a1, maxBlocks) && k in a1 && Total(a1) > maxBlocks
    requires forall j :: j in a1 ==> Size(a1[j]) <= Size(a1[k])
    ensures Shed(a0, a1 - {k}, maxBlocks)
  {
    var a2 := a1 - {k};
    TotalRemove(a1, k);
    assert k in a0 && k !in a2 && Total(a2) + Size(a0[k]) > maxBlocks;
  }

  /** checkAndFlush on the writer's maps. Below the bound nothing happens.
      Otherwise the partitions are taken largest first, each spilled (or lost
      when its spill file does not open), until no more than the bound is
      held. */
  method FlushDown(active0: map<I32, seq<BlockGroup>>, files0: map<I32, Bytes>,
                   ghost batches0: map<I32, seq<seq<BlockGroup>>>, ghost added: Ledger, ghost lost0: Ledger,
                   maxBlocks: nat, opens: I32 -> bool)
    returns (active: map<I32, seq<BlockGroup>>, files: map<I32, Bytes>,
             ghost batches: map<I32, seq<seq<BlockGroup>>>, ghost lost: Ledger)
    requires Store(active0, files0, batches0, added, lost0)
    ensures Store(active, files, batches, added, lost)
    ensures Total(active) <= maxBlocks
    ensures Total(active0) < maxBlocks ==> active == active0 && files == files0 && lost == lost0
    ensures Shed(active0, active, maxBlocks)
    ensures Flushed(active0, active, files0, files, lost0, lost, opens)
  {
    active, files, batches, lost := active0, files0, batches0, lost0;
    FlushedNone(active, files, lost, opens);
    ShedNone(active, maxBlocks);
    var total := TotalBlocksInMemory(active);
    if total < maxBlocks {
      return;
    }
    var sizes := SurveySizes(active);
    while active.Keys != {} && total > maxBlocks
      invariant Store(active, files, batches, added, lost)
      invariant total == Total(active)
      invariant Shed(active0, active, maxBlocks)
      invariant forall k :: k in active ==> k in sizes && sizes[k] == Size(active[k])
      invariant Flushed(active0, active, files0, files, lost0, lost, opens)
      decreases |active.Keys|
    {
      var k := Largest(active.Keys, sizes);
      var size := sizes[k];
      TotalRemove(active, k);
      ShedStep(active0, active, maxBlocks, k);
      var a1, f1, l1 := active, files, lost;
      active, files, batches, lost := Evict(active, files, batches, added, lost, k, opens(k));
      FlushedStep(active0, a1, files0, f1, lost0, l1, active, files, lost, opens, k);
      total := total - size;
    }
    if active.Keys == {} {
      TotalEmpty(active);
    }
  }

  /** The clear of finalize: every held partition, in ascending order, is
      flushed to its spill file (or lost when the file does not open). */
  method FlushAll(active0: map<I32, seq<BlockGroup>>, files0: map<I32, Bytes>,
                  ghost batches0: map<I32, seq<seq<BlockGroup>>>, ghost added: Ledger, ghost lost0: Ledger,
                  opens: I32 -> bool)
    returns (files: map<I32, Bytes>, ghost batches: map<I32, seq<seq<BlockGroup>>>, ghost lost: Ledger)
    requires Store(active0, files0, batches0, added, lost0)
    ensures Store(map[], files, batches, added, lost)
    ensures Flushed(active0, map[], files0, files, lost0, lost, opens)
  {
    var ks := AscendingKeys(active0.Keys);
    var active := active0;
    files, batches, lost := files0, batches0, lost0;
    FlushedNone(active, files, lost, opens);
    var i := 0;
    while i < |ks|
      invariant 0 <= i <= |ks|
      invariant Store(active, files, batches, added, lost)
      invariant active.Keys <= active0.Keys && forall k :: k in active ==> active[k] == active0[k]
      invariant forall k :: k in active <==> k in ks[i..]
      invariant Flushed(active0, active, files0, files, lost0, lost, opens)
    {
      var k := ks[i];
      Pending(ks, i);
      var a1, f1, l1 := active, files, lost;
      active, files, batches, lost := Evict(active, files, batches, added, lost, k, opens(k));
      FlushedStep(active0, a1, files0, f1, lost0, l1, active, files, lost, opens, k);
      i := i + 1;
    }
    assert active == map[];
  }

  /** The keys still to flush after the `i`-th: the later ones. */
  lemma {:induction false} Pending(ks: seq<I32>, i: nat)
    requires Increasing(ks) && i < |ks|
    ensures forall k :: k in ks[i..] <==> k == ks[i] || k in ks[i + 1..]
    ensures ks[i] !in ks[i + 1..]
  {
    assert ks[i..] == [ks[i]] + ks[i + 1..];
  }

  /** Once the `i`-th key is erased, the map holds exactly the later keys. */
  lemma {:induction false} PendingAfter<V>(ks: seq<I32>, i: nat, a: map<I32, V>, a': map<I32, V>)
    requires Increasing(ks) && i < |ks|
    requires forall k :: k in a <==> k in ks[i..]
    requires a' == a - {ks[i]}
    ensures forall k :: k in a' <==> k in ks[i + 1..]
  {
    Pending(ks, i);
  }

  /** One more key whose file opens. */
  lemma {:induction false} OpensNext(ks: seq<I32>, i: nat, opens: I32 -> bool)
    requires i < |ks| && opens(ks[i]) && forall j :: 0 <= j < i ==> opens(ks[j])
    ensures forall j :: 0 <= j < i + 1 ==> opens(ks[j])
  {
  }

  /** The ascending walk of a dense id map (typeMap, stateMap, stateValueMap):
      the ids are `0..n`, so the walk lists the names in id order. */
  method Listed(fwd: map<nat, Bytes>, ghost order: seq<Bytes>, ghost rev: map<Bytes, nat>) returns (names: seq<Bytes>)
    requires Numbering(order, fwd, rev)
    ensures names == order
  {
    names := [];
    while |names| in fwd
      invariant |names| <= |order| && names == order[..|names|]
      decreases |order| - |names|
    {
      TakeNext(order, |names|);
      names := names + [fwd[|names|]];
    }
    TakeAll(order);
  }

  // ---------------------------------------------------------------------------
  // The writer

  class Writer {
    const meta: Metadata
    /** maxBlocksInMemory */
    const maxBlocks: nat
    const height: U16
    const minY: I32
    /** activeSubChunks */
    var active: map<I32, seq<BlockGroup>>
    /** The spill file of each partition in subChunkCacheFiles, by contents. */
    var files: map<I32, Bytes>
    var blockCounter: nat
    /** The batches each spill file holds. */
    ghost var batches: map<I32, seq<seq<BlockGroup>>>
    ghost var added: Ledger
    ghost var lost: Ledger

    ghost predicate Valid()
      reads this, meta, meta.types, meta.names, meta.values, meta.palette
    {
      meta.Valid() && Store(active, files, batches, added, lost) && blockCounter < FlushCheckInterval
    }

    /** The constructor: empty metadata, nothing held, nothing spilled. The
        world width and length it also takes are replaced by the spilled
        extent when the file is written, so they are not modelled. */
    constructor (maxBlocks: nat, height: U16, minY: I32)
      ensures Valid() && fresh(meta) && fresh(meta.types) && fresh(meta.names) && fresh(meta.values) && fresh(meta.palette)
      ensures this.maxBlocks == maxBlocks && this.height == height && this.minY == minY
      ensures active == map[] && files == map[] && blockCounter == 0 && added == map[] && lost == map[]
      ensures meta.palette.list == [] && meta.types.order == []
    {
      meta := new Metadata();
      this.maxBlocks, this.height, this.minY := maxBlocks, height, minY;
      active, files, blockCounter := map[], map[], 0;
      batches, added, lost := map[], map[], map[];
    }

    /** addBlock: the block's palette id, its partition and its position in
        the partition; the cell joins the partition's group of that id; every
        200th block checks the memory bound. */
    method AddBlock(x: I32, y: I32, z: I32, blockType: Bytes, states: seq<(Bytes, Bytes)>, payload: Option<Bytes>,
                    opens: I32 -> bool)
      returns (ghost pid: PaletteId, ghost held: map<I32, seq<BlockGroup>>)
      requires Valid()
      requires |meta.types.nameToId.Keys + {blockType}| <= 0x1_0000
      requires |meta.names.nameToId.Keys + StateNames(states)| <= 0x100
      requires |meta.values.nameToId.Keys + StateValues(states)| <= 0x100
      requires |meta.palette.list| < 0x1_0000_0000
      requires LocalY(y) < 0x7FFF && |In(added, PartitionIndex(x, z))| + 1 < 0x1_0000_0000
      modifies this, meta.types, meta.names, meta.values, meta.palette
      ensures Valid()
      ensures pid < |meta.palette.list|
      ensures Describe(meta.types.order, meta.names.order, meta.values.order, meta.palette.list[pid])
              == (blockType, states, payload)
      ensures added == old(added)[PartitionIndex(x, z) := old(In(added, PartitionIndex(x, z)))
                                                          + multiset{(pid, Local(x) as Coord, LocalY(y), Local(z) as Coord)}]
      ensures old(blockCounter) + 1 < FlushCheckInterval ==>
                && blockCounter == old(blockCounter) + 1 && files == old(files) && lost == old(lost)
                && active == old(active)[PartitionIndex(x, z) := WithBlock(Held(old(active), PartitionIndex(x, z)), pid,
                                                                            Local(x) as Coord, LocalY(y), Local(z) as Coord)]
      ensures held == old(active)[PartitionIndex(x, z) := WithBlock(Held(old(active), PartitionIndex(x, z)), pid,
                                                                    Local(x) as Coord, LocalY(y), Local(z) as Coord)]
      ensures old(blockCounter) + 1 == FlushCheckInterval ==>
                && blockCounter == 0 && Total(active) <= maxBlocks
                && Shed(held, active, maxBlocks) && Flushed(held, active, old(files), files, old(lost), lost, opens)
                && (Total(held) < maxBlocks ==> active == held && files == old(files) && lost == old(lost))
    {
      var id := meta.Intern(blockType, states, payload);
      pid := id;
      held := Place(x, y, z, id, opens);
    }

    /** The cell joins the group of its palette id in its partition, at its
        position in the partition, and every 200th block checks the memory
        bound. */
    method Place(x: I32, y: I32, z: I32, pid: PaletteId, opens: I32 -> bool) returns (ghost held: map<I32, seq<BlockGroup>>)
      requires Store(active, files, batches, added, lost) && blockCounter < FlushCheckInterval
      requires LocalY(y) < 0x7FFF && |In(added, PartitionIndex(x, z))| + 1 < 0x1_0000_0000
      modifies this
      ensures Store(active, files, batches, added, lost) && blockCounter < FlushCheckInterval
      ensures added == old(added)[PartitionIndex(x, z) := old(In(added, PartitionIndex(x, z)))
                                                          + multiset{(pid, Local(x) as Coord, LocalY(y), Local(z) as Coord)}]
      ensures old(blockCounter) + 1 < FlushCheckInterval ==>
                && blockCounter == old(blockCounter) + 1 && files == old(files) && lost == old(lost)
                && active == old(active)[PartitionIndex(x, z) := WithBlock(Held(old(active), PartitionIndex(x, z)), pid,
                                                                            Local(x) as Coord, LocalY(y), Local(z) as Coord)]
      ensures held == old(active)[PartitionIndex(x, z) := WithBlock(Held(old(active), PartitionIndex(x, z)), pid,
                                                                    Local(x) as Coord, LocalY(y), Local(z) as Coord)]
      ensures old(blockCounter) + 1 == FlushCheckInterval ==>
                && blockCounter == 0 && Total(active) <= maxBlocks
                && Shed(held, active, maxBlocks) && Flushed(held, active, old(files), files, old(lost), lost, opens)
                && (Total(held) < maxBlocks ==> active == held && files == old(files) && lost == old(lost))
    {
      var idx := PartitionIndex(x, z);
      var lx, ly, lz := Local(x) as Coord, LocalY(y), Local(z) as Coord;
      StoreAdd(active, files, batches, added, lost, idx, pid, lx, ly, lz);
      var gs := AddBlockToGroup(Held(active, idx), pid, lx, ly, lz);
      active := active[idx := gs];
      held := active;
      added := added[idx := In(added, idx) + multiset{(pid, lx, ly, lz)}];
      blockCounter := blockCounter + 1;
      if blockCounter >= FlushCheckInterval {
        CheckAndFlush(opens);
        blockCounter := 0;
      }
    }

    /** checkAndFlush: the held partitions are brought down to the bound as
        FlushDown describes. */
    method CheckAndFlush(opens: I32 -> bool)
      requires Store(active, files, batches, added, lost)
      modifies this
      ensures Store(active, files, batches, added, lost) && blockCounter == old(blockCounter) && added == old(added)
      ensures Total(active) <= maxBlocks
      ensures Total(old(active)) < maxBlocks ==> active == old(active) && files == old(files) && lost == old(lost)
      ensures Shed(old(active), active, maxBlocks)
      ensures Flushed(old(active), active, old(files), files, old(lost), lost, opens)
    {
      active, files, batches, lost := FlushDown(active, files, batches, added, lost, maxBlocks, opens);
    }

    /** finalize: every held partition is flushed in ascending order, the
        counter reset, the spill files merged into the container, and on
        success the spill files removed. The file's records are those of the
        partitions in `keys`, ascending; the boxes of each cover exactly the
        coordinates, per palette id, of the blocks added to that partition
        and not lost, and a partition without a record lost all its blocks. */
    method Finalize(opens: I32 -> bool, outputOpens: bool, fromCodePage: Bytes -> Bytes)
      returns (r: Result<Bytes>, ghost keys: seq<I32>, ghost regs: seq<seq<BlockRegion>>)
      requires Valid()
      modifies this
      ensures active == map[] && blockCounter == 0 && added == old(added)
      ensures !r.Ok? ==> Flushed(old(active), map[], old(files), files, old(lost), lost, opens)
      ensures r.Ok? <==> outputOpens && Short(NormalizeAll(meta.types.order, fromCodePage))
                         && Short(NormalizeAll(meta.names.order, fromCodePage))
                         && Short(NormalizeAll(meta.values.order, fromCodePage))
      ensures r.Ok? ==> files == map[] && Increasing(keys) && |regs| == |keys| && |keys| <= 0x1_0000_0000
      ensures r.Ok? ==>
                r.value == ContainerFile(4, true, Span(Lowest(XColumns(keys)), Highest(XColumns(keys))),
                                  Span(Lowest(ZColumns(keys)), Highest(ZColumns(keys))),
                                  height, Records3(regs, keys, LatestOrigins(minY)), meta.palette.list,
                                  NormalizeAll(meta.types.order, fromCodePage),
                                  NormalizeAll(meta.names.order, fromCodePage),
                                  NormalizeAll(meta.values.order, fromCodePage))
      ensures r.Ok? ==> forall i :: 0 <= i < |keys| ==> Compressed(regs[i], In(added, keys[i]) - In(lost, keys[i]))
      ensures r.Ok? ==> forall k :: k !in keys ==> In(added, k) == In(lost, k)
    {
      var fs;
      ghost var bs, ls;
      r, keys, regs, fs, bs, ls := Finish(active, files, batches, added, lost, opens, meta.palette.list,
                                          meta.types.idToName, meta.types.order, meta.types.nameToId,
                                          meta.names.idToName, meta.names.order, meta.names.nameToId,
                                          meta.values.idToName, meta.values.order, meta.values.nameToId,
                                          height, minY, fromCodePage, outputOpens);
      active, files, batches, lost, blockCounter := map[], fs, bs, ls, 0;
    }
  }

  /** The work of finalize on the writer's maps and numberings: flush
      everything, list the three dictionaries in id order, merge; on success
      the spill files are gone. */
  method Finish(active: map<I32, seq<BlockGroup>>, files: map<I32, Bytes>, ghost batches: map<I32, seq<seq<BlockGroup>>>,
                ghost added: Ledger, ghost lost: Ledger, opens: I32 -> bool, list: seq<PaletteKey>,
                tFwd: map<nat, Bytes>, ghost tOrder: seq<Bytes>, ghost tRev: map<Bytes, nat>,
                nFwd: map<nat, Bytes>, ghost nOrder: seq<Bytes>, ghost nRev: map<Bytes, nat>,
                vFwd: map<nat, Bytes>, ghost vOrder: seq<Bytes>, ghost vRev: map<Bytes, nat>,
                height: U16, minY: I32, fromCodePage: Bytes -> Bytes, outputOpens: bool)
    returns (r: Result<Bytes>, ghost keys: seq<I32>, ghost regs: seq<seq<BlockRegion>>,
             files': map<I32, Bytes>, ghost batches': map<I32, seq<seq<BlockGroup>>>, ghost lost': Ledger)
    requires Store(active, files, batches, added, lost)
    requires Numbering(tOrder, tFwd, tRev) && Numbering(nOrder, nFwd, nRev) && Numbering(vOrder, vFwd, vRev)
    requires |tOrder| <= 0x1_0000 && |nOrder| <= 0x100 && |vOrder| <= 0x100
    ensures !r.Ok? ==> Flushed(active, map[], files, files', lost, lost', opens)
    ensures r.Ok? <==> outputOpens && Short(NormalizeAll(tOrder, fromCodePage))
                       && Short(NormalizeAll(nOrder, fromCodePage)) && Short(NormalizeAll(vOrder, fromCodePage))
    ensures r.Ok? ==> files' == map[] && Increasing(keys) && |regs| == |keys| && |keys| <= 0x1_0000_0000
    ensures r.Ok? ==>
              r.value == ContainerFile(4, true, Span(Lowest(XColumns(keys)), Highest(XColumns(keys))),
                                Span(Lowest(ZColumns(keys)), Highest(ZColumns(keys))),
                                height, Records3(regs, keys, LatestOrigins(minY)), list,
                                NormalizeAll(tOrder, fromCodePage), NormalizeAll(nOrder, fromCodePage),
                                NormalizeAll(vOrder, fromCodePage))
    ensures r.Ok? ==> forall i :: 0 <= i < |keys| ==> Compressed(regs[i], In(added, keys[i]) - In(lost', keys[i]))
    ensures r.Ok? ==> forall k :: k !in keys ==> In(added, k) == In(lost', k)
  {
    files', batches', lost' := FlushAll(active, files, batches, added, lost, opens);
    var types := Listed(tFwd, tOrder, tRev);
    var names := Listed(nFwd, nOrder, nRev);
    var values := Listed(vFwd, vOrder, vRev);
    r, keys, regs := MergeSpilled(files', batches', added, lost', list, types, names, values, height, minY,
                                  fromCodePage, outputOpens);
    if r.Ok? {
      files', batches' := map[], map[];
    }
  }

  /** mergeAllCacheFiles once nothing is held: the records cover, per
      partition, the cells added and not lost. */
  method MergeSpilled(files: map<I32, Bytes>, ghost batches: map<I32, seq<seq<BlockGroup>>>, ghost added: Ledger,
                      ghost lost: Ledger, list: seq<PaletteKey>, types: seq<Bytes>, names: seq<Bytes>, values: seq<Bytes>,
                      height: U16, minY: I32, fromCodePage: Bytes -> Bytes, outputOpens: bool)
    returns (r: Result<Bytes>, ghost keys: seq<I32>, ghost regs: seq<seq<BlockRegion>>)
    requires Store(map[], files, batches, added, lost)
    requires |types| <= 0x1_0000 && |names| <= 0x100 && |values| <= 0x100
    ensures r.Ok? <==> outputOpens && Short(NormalizeAll(types, fromCodePage))
                       && Short(NormalizeAll(names, fromCodePage)) && Short(NormalizeAll(values, fromCodePage))
    ensures r.Ok? ==> Increasing(keys) && |regs| == |keys| && |keys| <= 0x1_0000_0000
    ensures r.Ok? ==>
              r.value == ContainerFile(4, true, Span(Lowest(XColumns(keys)), Highest(XColumns(keys))),
                                Span(Lowest(ZColumns(keys)), Highest(ZColumns(keys))),
                                height, Records3(regs, keys, LatestOrigins(minY)), list, NormalizeAll(types, fromCodePage),
                                NormalizeAll(names, fromCodePage), NormalizeAll(values, fromCodePage))
    ensures r.Ok? ==> forall i :: 0 <= i < |keys| ==> Compressed(regs[i], In(added, keys[i]) - In(lost, keys[i]))
    ensures r.Ok? ==> forall k :: k !in keys ==> In(added, k) == In(lost, k)
  {
    MergeableOf(added, map[], batches, lost);
    r, keys, regs := MergeAllCacheFiles(files, list, types, names, values, height, minY, fromCodePage, outputOpens, batches);
    if r.Ok? {
      Coverage(files, batches, added, lost, keys, regs);
    }
  }

  /** With nothing held, the records merged from the spill files cover, per
      partition, the cells added and not lost; a partition without a record
      lost all its cells. */
  lemma {:induction false} Coverage(files: map<I32, Bytes>, batches: map<I32, seq<seq<BlockGroup>>>,
                                    added: Ledger, lost: Ledger, keys: seq<I32>, regs: seq<seq<BlockRegion>>)
    requires Store(map[], files, batches, added, lost)
    requires (forall k :: k in files <==> k in keys) && |regs| == |keys|
    requires forall i :: 0 <= i < |keys| ==> Compressed(regs[i], Cells(Concat(batches[keys[i]])))
    ensures forall i :: 0 <= i < |keys| ==> Compressed(regs[i], In(added, keys[i]) - In(lost, keys[i]))
    ensures forall k :: k !in keys ==> In(added, k) == In(lost, k)
  {
    AllSpilled(added, batches, lost);
  }

  /** The spill files and the lost ledger after partitions left `a0` for
      `a1`: each one that left was appended to its file when the file opened
      and lost otherwise; nothing else changed. */
  ghost predicate Flushed(a0: map<I32, seq<BlockGroup>>, a1: map<I32, seq<BlockGroup>>,
                          f0: map<I32, Bytes>, f1: map<I32, Bytes>, l0: Ledger, l1: Ledger, opens: I32 -> bool) {
    forall k :: FlushedAt(a0, a1, f0, f1, l0, l1, opens, k)
  }

  ghost predicate FlushedAt(a0: map<I32, seq<BlockGroup>>, a1: map<I32, seq<BlockGroup>>,
                            f0: map<I32, Bytes>, f1: map<I32, Bytes>, l0: Ledger, l1: Ledger, opens: I32 -> bool, k: I32) {
    if k in a0 && k !in a1 && opens(k) then
      && AllWellFormed(a0[k]) && k in f1 && f1[k] == FileOf(f0, k) + BatchBytes(a0[k]) && In(l1, k) == In(l0, k)
    else if k in a0 && k !in a1 then
      && FileOf(f1, k) == FileOf(f0, k) && (k in f1 <==> k in f0) && In(l1, k) == In(l0, k) + Cells(a0[k])
    else
      && FileOf(f1, k) == FileOf(f0, k) && (k in f1 <==> k in f0) && In(l1, k) == In(l0, k)
  }

  lemma {:induction false} FlushedNone(a: map<I32, seq<BlockGroup>>, f: map<I32, Bytes>, l: Ledger, opens: I32 -> bool)
    ensures Flushed(a, a, f, f, l, l, opens)
  {
  }

  lemma {:induction false} FlushedStep(a0: map<I32, seq<BlockGroup>>, a1: map<I32, seq<BlockGroup>>,
                                       f0: map<I32, Bytes>, f1: map<I32, Bytes>, l0: Ledger, l1: Ledger,
                                       a2: map<I32, seq<BlockGroup>>, f2: map<I32, Bytes>, l2: Ledger,
                                       opens: I32 -> bool, k: I32)
    requires Flushed(a0, a1, f0, f1, l0, l1, opens)
    requires a1.Keys <= a0.Keys && k in a1 && a1[k] == a0[k] && a2 == a1 - {k}
    requires opens(k) ==> l2 == l1 && AllWellFormed(a1[k]) && f2 == f1[k := FileOf(f1, k) + BatchBytes(a1[k])]
    requires !opens(k) ==> f2 == f1 && l2 == l1[k := In(l1, k) + Cells(a1[k])]
    ensures Flushed(a0, a2, f0, f2, l0, l2, opens)
  {
    forall j ensures FlushedAt(a0, a2, f0, f2, l0, l2, opens, j) {
      assert FlushedAt(a0, a1, f0, f1, l0, l1, opens, j);
      if j != k {
        assert FileOf(f2, j) == FileOf(f1, j) && (j in f2 <==> j in f1) && In(l2, j) == In(l1, j);
      }
    }
  }
}

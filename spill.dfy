/** The spill files of the cached writers. flushSubChunkToCache appends one
    batch to a partition's file: the u32 number of groups, then each group's
    record (BlockUtils::writeBlockGroup). mergeAllCacheFiles reads the file
    back batch after batch until the end of the file. */
module Spill {
  import opened Wrappers
  import opened LittleEndian
  import opened StringCodec
  import opened Structs
  import opened BlockGroups
  import opened Records

  predicate AllWellFormed(gs: seq<BlockGroup>) {
    forall i :: 0 <= i < |gs| ==> gs[i].WellFormed()
  }

  /** A batch as the writers hold it: well-formed groups, fewer than 2^32 of
      them so that the group count is stored exactly. */
  predicate Spillable(gs: seq<BlockGroup>) {
    |gs| < 0x1_0000_0000 && AllWellFormed(gs)
  }

  predicate AllSpillable(batches: seq<seq<BlockGroup>>) {
    forall i :: 0 <= i < |batches| ==> Spillable(batches[i])
  }

  function GroupChunks(gs: seq<BlockGroup>): (r: seq<Bytes>)
    requires AllWellFormed(gs)
    ensures |r| == |gs|
  {
    seq(|gs|, j requires 0 <= j < |gs| && AllWellFormed(gs) => WriteBlockGroup(gs[j]))
  }

  lemma {:induction false} GroupChunk(gs: seq<BlockGroup>, j: nat)
    requires AllWellFormed(gs) && j < |gs|
    ensures GroupChunks(gs)[j] == WriteBlockGroup(gs[j])
  {
  }

  /** One batch: the group count cast to u32, then the group records. */
  function BatchBytes(gs: seq<BlockGroup>): (r: Bytes)
    requires AllWellFormed(gs)
    ensures |r| >= 4
  {
    WriteU32(WrapU32(|gs|)) + Flatten(GroupChunks(gs))
  }

  /** A spill file: its batches one after another. */
  function SpillBytes(batches: seq<seq<BlockGroup>>): (r: Bytes)
    requires AllSpillable(batches)
    ensures batches == [] <==> r == []
  {
    if batches == [] then [] else BatchBytes(batches[0]) + SpillBytes(batches[1..])
  }

  /** The groups of all batches, in file order. */
  function Concat(batches: seq<seq<BlockGroup>>): (r: seq<BlockGroup>)
    ensures batches == [] ==> r == []
  {
    if batches == [] then [] else batches[0] + Concat(batches[1..])
  }

  // ---------------------------------------------------------------------------
  // Writing a batch

  /** flushSubChunkToCache once the file is open: the count, then each group's
      record, appended to the file. */
  method AppendBatch(file: Bytes, groups: seq<BlockGroup>) returns (r: Bytes)
    requires AllWellFormed(groups)
    ensures r == file + BatchBytes(groups)
  {
    var chunks := GroupChunks(groups);
    var head := WriteU32(WrapU32(|groups|));
    r := file + head;
    var i := 0;
    while i < |groups|
      invariant 0 <= i <= |groups|
      invariant r == file + head + Flatten(chunks[..i])
    {
      AppendChunk(file + head, chunks, i);
      GroupChunk(groups, i);
      r := r + WriteBlockGroup(groups[i]);
      i := i + 1;
    }
    AppendBatchDone(file, groups, r);
  }

  lemma {:induction false} AppendBatchDone(file: Bytes, groups: seq<BlockGroup>, r: Bytes)
    requires AllWellFormed(groups)
    requires r == file + WriteU32(WrapU32(|groups|)) + Flatten(GroupChunks(groups)[..|groups|])
    ensures r == file + BatchBytes(groups)
  {
    var chunks := GroupChunks(groups);
    assert chunks[..|groups|] == chunks;
    Assoc(file, WriteU32(WrapU32(|groups|)), Flatten(chunks));
  }

  /** Appending a batch to a spill file extends its list of batches. */
  lemma {:induction false} SpillBytesSnoc(batches: seq<seq<BlockGroup>>, b: seq<BlockGroup>)
    requires AllSpillable(batches) && Spillable(b)
    ensures AllSpillable(batches + [b])
    ensures SpillBytes(batches + [b]) == SpillBytes(batches) + BatchBytes(b)
    decreases |batches|
  {
    assert AllSpillable(batches + [b]) by {
      forall i | 0 <= i < |batches + [b]| ensures Spillable((batches + [b])[i]) {
        if i < |batches| { assert (batches + [b])[i] == batches[i]; }
      }
    }
    if batches == [] {
      assert batches + [b] == [b];
      assert [b][1..] == [];
    } else {
      assert (batches + [b])[1..] == batches[1..] + [b];
      SpillBytesSnoc(batches[1..], b);
    }
  }

  lemma {:induction false} ConcatSnoc(batches: seq<seq<BlockGroup>>, b: seq<BlockGroup>)
    ensures Concat(batches + [b]) == Concat(batches) + b
    decreases |batches|
  {
    if batches == [] {
      assert batches + [b] == [b];
      assert [b][1..] == [];
    } else {
      assert (batches + [b])[1..] == batches[1..] + [b];
      ConcatSnoc(batches[1..], b);
    }
  }

  // ---------------------------------------------------------------------------
  // Reading a spill file

  function GroupReader(s: Bytes): (read: nat -> Option<(BlockGroup, nat)>) {
    (p: nat) => ReadBlockGroup(s, p)
  }

  lemma {:induction false} GroupReaderKeeps(s: Bytes)
    ensures forall p: nat :: GroupReader(s)(p).Some? ==>
              GroupReader(s)(p).value.1 >= p && GroupReader(s)(p).value.0.WellFormed()
  {
  }

  /** One batch: a u32 count, then that many group records. */
  function ReadBatch(s: Bytes, pos: nat): (r: Option<(seq<BlockGroup>, nat)>)
    ensures r.Some? ==> r.value.1 >= pos + 4 && AllWellFormed(r.value.0)
  {
    GroupReaderKeeps(s);
    ReadCountedKeeps(GroupReader(s), s, pos, (g: BlockGroup) => g.WellFormed());
    ReadCounted(GroupReader(s), s, pos)
  }

  /** The read loop of mergeAllCacheFiles, from `pos` to the end of the file;
      `None` when the file ends inside a batch. */
  function ReadSpill(s: Bytes, pos: nat): (r: Option<seq<BlockGroup>>)
    ensures r.Some? ==> AllWellFormed(r.value)
    decreases |s| - pos
  {
    if pos >= |s| then Some([])
    else match ReadBatch(s, pos)
      case None => None
      case Some((gs, p)) =>
        match ReadSpill(s, p)
        case None => None
        case Some(rest) =>
          assert AllWellFormed(gs + rest) by {
            forall i | 0 <= i < |gs + rest| ensures (gs + rest)[i].WellFormed() {
              if i >= |gs| { assert (gs + rest)[i] == rest[i - |gs|]; }
            }
          }
          Some(gs + rest)
  }

  /** A group record is read back as written, wherever it lies. */
  lemma {:induction false} GroupAt(s: Bytes, p: nat, bg: BlockGroup)
    requires bg.WellFormed() && HasAt(s, p, WriteBlockGroup(bg))
    ensures ReadBlockGroup(s, p) == Some((bg, p + |WriteBlockGroup(bg)|))
  {
    SliceEq(s, p, p + |WriteBlockGroup(bg)|, p + 8 + 6 * bg.count as int);
    ReadBlockGroupAt(s, p, bg);
  }

  /** Every group record of a batch decodes, wherever it lies. */
  lemma {:induction false} GroupsDecode(s: Bytes, gs: seq<BlockGroup>)
    requires AllWellFormed(gs)
    ensures Decodes(GroupReader(s), s, GroupChunks(gs), gs)
  {
    GroupsRead(s, gs);
  }

  lemma {:induction false} GroupsRead(s: Bytes, gs: seq<BlockGroup>)
    requires AllWellFormed(gs)
    ensures forall p: nat, j {:trigger HasAt(s, p, GroupChunks(gs)[j])} :: 0 <= j < |gs| && HasAt(s, p, GroupChunks(gs)[j])
              ==> ReadBlockGroup(s, p) == Some((gs[j], p + |GroupChunks(gs)[j]|))
  {
    forall p: nat, j | 0 <= j < |gs| && HasAt(s, p, GroupChunks(gs)[j])
      ensures ReadBlockGroup(s, p) == Some((gs[j], p + |GroupChunks(gs)[j]|))
    {
      GroupChunk(gs, j);
      GroupAt(s, p, gs[j]);
    }
  }

  /** A batch is read back as written, wherever it lies. */
  lemma {:induction false} ReadBatchAt(s: Bytes, pos: nat, gs: seq<BlockGroup>, end: nat)
    requires Spillable(gs) && HasAt(s, pos, BatchBytes(gs)) && end == pos + |BatchBytes(gs)|
    ensures ReadBatch(s, pos) == Some((gs, end))
  {
    GroupsDecode(s, gs);
    BatchLayout(gs);
    ReadBatchOf(s, pos, gs, GroupChunks(gs), BatchBytes(gs), end);
  }

  lemma {:induction false} BatchLayout(gs: seq<BlockGroup>)
    requires Spillable(gs)
    ensures BatchBytes(gs) == WriteU32(|gs|) + Flatten(GroupChunks(gs))
  {
  }

  lemma {:induction false} ReadBatchOf(s: Bytes, pos: nat, gs: seq<BlockGroup>, chunks: seq<Bytes>, t: Bytes, end: nat)
    requires |gs| < 0x1_0000_0000 && t == WriteU32(|gs|) + Flatten(chunks)
    requires Decodes(GroupReader(s), s, chunks, gs) && HasAt(s, pos, t) && end == pos + |t|
    ensures ReadBatch(s, pos) == Some((gs, end))
  {
    assert ReadCounted(GroupReader(s), s, pos) == Some((gs, end)) by {
      ReadCountedAt(GroupReader(s), s, pos, chunks, gs, t);
    }
    ReadBatchIs(s, pos, gs, end, end);
  }

  lemma {:induction false} ReadBatchIs(s: Bytes, pos: nat, gs: seq<BlockGroup>, e: nat, end: nat)
    requires ReadCounted(GroupReader(s), s, pos) == Some((gs, e)) && end == e
    ensures ReadBatch(s, pos) == Some((gs, end))
  {
  }

  lemma {:induction false} ReadSpillAt(s: Bytes, pos: nat, batches: seq<seq<BlockGroup>>)
    requires AllSpillable(batches)
    requires HasAt(s, pos, SpillBytes(batches)) && pos + |SpillBytes(batches)| == |s|
    ensures ReadSpill(s, pos) == Some(Concat(batches))
    decreases |batches|
  {
    if batches != [] {
      SpillCons(batches);
      var p := ReadSpillHead(s, pos, batches[0], SpillBytes(batches[1..]));
      ReadSpillAt(s, p, batches[1..]);
      ReadSpillStep(s, pos, batches[0], p, Concat(batches[1..]));
    }
  }

  /** The first batch of a spill file is read back, leaving the rest. */
  lemma {:induction false} ReadSpillHead(s: Bytes, pos: nat, b: seq<BlockGroup>, tail: Bytes) returns (p: nat)
    requires Spillable(b)
    requires HasAt(s, pos, BatchBytes(b) + tail) && pos + |BatchBytes(b) + tail| == |s|
    ensures pos < |s| && ReadBatch(s, pos) == Some((b, p))
    ensures HasAt(s, p, tail) && p + |tail| == |s|
  {
    var head := BatchBytes(b);
    HasAtSplit(s, pos, head, tail);
    p := pos + |head|;
    ReadBatchAt(s, pos, b, p);
    BatchLayout(b);
  }

  lemma {:induction false} ReadSpillStep(s: Bytes, pos: nat, b: seq<BlockGroup>, p: nat, rest: seq<BlockGroup>)
    requires pos < |s| && ReadBatch(s, pos) == Some((b, p)) && ReadSpill(s, p) == Some(rest)
    ensures ReadSpill(s, pos) == Some(b + rest)
  {
  }

  /** A non-empty spill file starts with its first batch. */
  lemma {:induction false} SpillCons(batches: seq<seq<BlockGroup>>)
    requires AllSpillable(batches) && batches != []
    ensures Spillable(batches[0]) && AllSpillable(batches[1..])
    ensures SpillBytes(batches) == BatchBytes(batches[0]) + SpillBytes(batches[1..])
    ensures Concat(batches) == batches[0] + Concat(batches[1..])
  {
    var rest := batches[1..];
    assert AllSpillable(rest) by {
      forall i | 0 <= i < |rest| ensures Spillable(rest[i]) { assert rest[i] == batches[i + 1]; }
    }
  }

  /** A spill file reads back as all its batches' groups, in the order they
      were flushed. */
  lemma {:induction false} ReadSpillOfWritten(batches: seq<seq<BlockGroup>>)
    requires AllSpillable(batches)
    ensures ReadSpill(SpillBytes(batches), 0) == Some(Concat(batches))
  {
    var s := SpillBytes(batches);
    assert s[0..|s|] == s;
    ReadSpillAt(s, 0, batches);
  }

  /** The read loop itself: while the file is not at its end, a u32 count and
      that many group records. */
  method ReadSpillFile(s: Bytes) returns (r: Option<seq<BlockGroup>>)
    ensures r == ReadSpill(s, 0)
  {
    var all: seq<BlockGroup> := [];
    var pos: nat := 0;
    PrefixedEmpty(ReadSpill(s, 0));
    while pos < |s|
      invariant ReadSpill(s, 0) == Prefixed(all, ReadSpill(s, pos))
      decreases |s| - pos
    {
      var batch := ReadBatchLoop(s, pos);
      if batch.None? {
        return None;
      }
      var gs, q := batch.value.0, batch.value.1;
      PrefixedAppend(all, gs, ReadSpill(s, q));
      all := all + gs;
      pos := q;
    }
    assert all + [] == all;
    return Some(all);
  }

  /** One pass of the outer loop: the count, then the inner loop over the
      records. */
  method ReadBatchLoop(s: Bytes, pos: nat) returns (r: Option<(seq<BlockGroup>, nat)>)
    requires pos < |s|
    ensures r == ReadBatch(s, pos)
    ensures r.None? ==> ReadSpill(s, pos) == None
    ensures r.Some? ==> r.value.1 > pos && ReadSpill(s, pos) == Prefixed(r.value.0, ReadSpill(s, r.value.1))
  {
    var head := ReadU32(s, pos);
    if head.None? {
      return None;
    }
    r := ReadGroups(s, head.value.1, head.value.0);
  }

  /** The inner loop: `n` group records from `p`. */
  method ReadGroups(s: Bytes, p: nat, n: nat) returns (r: Option<(seq<BlockGroup>, nat)>)
    ensures r == ReadMany(GroupReader(s), p, n)
  {
    var gs: seq<BlockGroup> := [];
    var q := p;
    var i := 0;
    while i < n
      invariant 0 <= i <= n
      invariant ReadMany(GroupReader(s), p, i) == Some((gs, q))
    {
      var g := ReadBlockGroup(s, q);
      if g.None? {
        ReadManyStops(GroupReader(s), p, i, n, gs, q);
        return None;
      }
      ReadManyStep(GroupReader(s), p, i, gs, q, g.value.0, g.value.1);
      gs := gs + [g.value.0];
      q := g.value.1;
      i := i + 1;
    }
    return Some((gs, q));
  }

  lemma {:induction false} PrefixedEmpty(o: Option<seq<BlockGroup>>)
    ensures Prefixed([], o) == o
  {
    if o.Some? { assert [] + o.value == o.value; }
  }

  /** `o` with `all` in front of its groups. */
  function Prefixed(all: seq<BlockGroup>, o: Option<seq<BlockGroup>>): (r: Option<seq<BlockGroup>>)
    ensures r.Some? <==> o.Some?
    ensures o.Some? ==> r.value == all + o.value
  {
    match o
    case None => None
    case Some(rest) => Some(all + rest)
  }

  lemma {:induction false} PrefixedAppend(all: seq<BlockGroup>, gs: seq<BlockGroup>, o: Option<seq<BlockGroup>>)
    ensures Prefixed(all, Prefixed(gs, o)) == Prefixed(all + gs, o)
  {
    if o.Some? {
      assert all + (gs + o.value) == (all + gs) + o.value;
    }
  }
}

/** BCFUtils.hpp: `writeBCF`, which lays out a whole file from per-sub-chunk
    region lists and the three tables; `readPalette`; and the coordinate
    lookups over the utility's sub-chunks and tables (`getSubChunkIndex`,
    `getLocalY`, `fetchPaletteId`, `getBlockType`, `getBlockState`). */
module BcfUtils {
  import opened Wrappers
  import opened LittleEndian
  import opened CInt
  import opened StringCodec
  import opened Structs
  import opened Records
  import opened Tables
  import opened SubChunks
  import opened Container
  import CacheMerge

  // ---------------------------------------------------------------------------
  // std::map iteration

  /** The entries of `m` with an id below `n`, in ascending id order: the
      iteration order of a `std::map`. */
  function Ascending(m: map<nat, Bytes>, n: nat): (es: seq<DictEntry>)
    ensures |es| <= n
    ensures forall j :: 0 <= j < |es| ==> es[j].0 < n && es[j].0 in m && m[es[j].0] == es[j].1
    ensures forall j, k :: 0 <= j < k < |es| ==> es[j].0 < es[k].0
    decreases n
  {
    if n == 0 then []
    else if n - 1 in m then Ascending(m, n - 1) + [(n - 1, m[n - 1])]
    else Ascending(m, n - 1)
  }

  /** Every id of `m` below `n` has its entry in the traversal. */
  lemma {:induction false} AscendingHas(m: map<nat, Bytes>, n: nat, id: nat) returns (j: nat)
    requires id in m && id < n
    ensures j < |Ascending(m, n)| && Ascending(m, n)[j] == (id, m[id])
    decreases n
  {
    if id == n - 1 {
      j := |Ascending(m, n - 1)|;
    } else {
      j := AscendingHas(m, n - 1, id);
    }
  }

  /** The part of `m` below `n`. */
  function Below(m: map<nat, Bytes>, n: nat): (r: map<nat, Bytes>)
    ensures forall id :: id in r <==> id in m && id < n
  {
    map id | id in m && id < n :: m[id]
  }

  /** Reading the traversal back into a map rebuilds the map below `n`: what
      a reader of a written dictionary gets. */
  lemma {:induction false} InsertAscending(m: map<nat, Bytes>, n: nat)
    ensures Insert(map[], Ascending(m, n)) == Below(m, n)
    decreases n
  {
    if n > 0 {
      InsertAscending(m, n - 1);
      if n - 1 in m {
        InsertSnoc(map[], Ascending(m, n - 1), (n - 1, m[n - 1]));
        assert Below(m, n) == Below(m, n - 1)[n - 1 := m[n - 1]];
      } else {
        assert Below(m, n) == Below(m, n - 1);
      }
    }
  }

  // ---------------------------------------------------------------------------
  // writeBCF

  /** The traversal of the type map, ids below 2^16. */
  function TypeEntries(typeMap: map<BlockTypeId, Bytes>): (es: seq<DictEntry>)
    ensures |es| <= 0x1_0000 && forall j :: 0 <= j < |es| ==> es[j].0 < 0x1_0000
  {
    Ascending(typeMap, 0x1_0000)
  }

  /** The traversal of the state-name map, ids below 2^8. */
  function StateEntries(stateMap: map<StateNameId, Bytes>): (es: seq<DictEntry>)
    ensures |es| <= 0x100 && forall j :: 0 <= j < |es| ==> es[j].0 < 0x100
  {
    Ascending(stateMap, 0x100)
  }

  /** No name is longer than a string16 holds. */
  predicate Writable(es: seq<DictEntry>) {
    forall j :: 0 <= j < |es| ==> |es[j].1| <= 0xFFFF
  }

  /** The record of sub-chunk `i`: its regions at `originY = (Coord)(i * 16)`. */
  function SubChunkRecords(subChunks: seq<seq<BlockRegion>>): (recs: seq<Bytes>)
    ensures |recs| == |subChunks|
    ensures forall i :: 0 <= i < |subChunks| ==> recs[i] == SubChunkRecord(subChunks[i], WrapI16(i * 16))
  {
    seq(|subChunks|, i requires 0 <= i < |subChunks| => SubChunkRecord(subChunks[i], WrapI16(i * 16)))
  }

  /** The four tables of writeBCF: offsets, the palette without payloads, the
      type map with 2-byte ids and the state-name map with 1-byte ids. There
      is no state-value map. */
  function UtilsTables(offs: seq<U64>, list: seq<PaletteKey>, types: seq<DictEntry>, states: seq<DictEntry>)
    : (ts: seq<Bytes>)
    requires |offs| < 0x1_0000_0000_0000_0000
    requires AllFit(types, 2) && AllFit(states, 1)
    ensures |ts| == 4
  {
    [OffsetTableBytes(offs), PaletteBytes(list, false), DictBytes(types, 2), DictBytes(states, 1)]
  }

  /** The patched header: the default header (version 4, 144 x 144 x 376)
      with the record count and the positions of the four tables; the
      state-value map offset keeps its default 0. */
  function UtilsHeader(records: seq<Bytes>, tables: seq<Bytes>): (h: Header)
    requires |tables| == 4
    ensures h.version == 4 && h.stateValueMapOffset == 0 && h.subChunkCount == WrapU64(|records|)
  {
    var t := HeaderSize + |Flatten(records)|;
    DefaultHeader().(subChunkCount := WrapU64(|records|),
                     subChunkOffsetsTableOffset := WrapU64(Start(t, tables, 0)),
                     paletteOffset := WrapU64(Start(t, tables, 1)),
                     blockTypeMapOffset := WrapU64(Start(t, tables, 2)),
                     stateNameMapOffset := WrapU64(Start(t, tables, 3)))
  }

  lemma {:induction false} EntriesFit(es: seq<DictEntry>, width: nat, bound: nat)
    requires bound == Pow256(width) && Writable(es)
    requires forall j :: 0 <= j < |es| ==> es[j].0 < bound
    ensures AllFit(es, width)
  {
  }

  /** The four tables writeBCF lays out for these contents. */
  function BcfTables(subChunks: seq<seq<BlockRegion>>, list: seq<PaletteKey>,
                     typeMap: map<BlockTypeId, Bytes>, stateMap: map<StateNameId, Bytes>): (ts: seq<Bytes>)
    requires |subChunks| < 0x1_0000_0000_0000_0000
    requires Writable(TypeEntries(typeMap)) && Writable(StateEntries(stateMap))
    ensures AllFit(TypeEntries(typeMap), 2) && AllFit(StateEntries(stateMap), 1)
    ensures ts == UtilsTables(RecordOffsets(SubChunkRecords(subChunks)), list, TypeEntries(typeMap), StateEntries(stateMap))
  {
    Pow256Values();
    EntriesFit(TypeEntries(typeMap), 2, 0x1_0000);
    EntriesFit(StateEntries(stateMap), 1, 0x100);
    UtilsTables(RecordOffsets(SubChunkRecords(subChunks)), list, TypeEntries(typeMap), StateEntries(stateMap))
  }

  /** The file writeBCF produces when every name fits a string16. */
  function BcfFile(subChunks: seq<seq<BlockRegion>>, list: seq<PaletteKey>,
                   typeMap: map<BlockTypeId, Bytes>, stateMap: map<StateNameId, Bytes>): (s: Bytes)
    requires |subChunks| < 0x1_0000_0000_0000_0000
    requires Writable(TypeEntries(typeMap)) && Writable(StateEntries(stateMap))
  {
    var recs := SubChunkRecords(subChunks);
    var tables := BcfTables(subChunks, list, typeMap, stateMap);
    Layout(UtilsHeader(recs, tables), recs, tables)
  }

  /** A dictionary as writeBCF emits it: the entry count as a u32, then per
      entry (in the order given) the id in `width` bytes and the name as a
      string16; a name longer than 65535 bytes throws. */
  method WriteEntries(out: Bytes, es: seq<DictEntry>, width: nat) returns (r: Result<Bytes>)
    requires forall j :: 0 <= j < |es| ==> es[j].0 < Pow256(width)
    ensures r.Ok? <==> Writable(es)
    ensures r.Ok? ==> AllFit(es, width) && r.value == out + DictBytes(es, width)
  {
    var head := WriteU32(WrapU32(|es|));
    var res := out + head;
    var i := 0;
    while i < |es|
      invariant 0 <= i <= |es|
      invariant Writable(es[..i]) && AllFit(es[..i], width)
      invariant res == out + head + Flatten(DictChunks(es[..i], width))
    {
      var w := WriteString16Plain(es[i].1);
      if w.Err? {
        assert !Writable(es) by { assert |es[i].1| > 0xFFFF; }
        return Err(w.msg);
      }
      EntryStep(es, i, width);
      Assoc(out + head, Flatten(DictChunks(es[..i], width)), ToLE(es[i].0, width) + w.value);
      res := res + (ToLE(es[i].0, width) + w.value);
      i := i + 1;
    }
    assert es[..i] == es;
    Assoc(out, head, Flatten(DictChunks(es, width)));
    return Ok(res);
  }

  /** One more dictionary entry written. */
  lemma {:induction false} EntryStep(es: seq<DictEntry>, i: nat, width: nat)
    requires i < |es| && es[i].0 < Pow256(width) && |es[i].1| <= 0xFFFF
    requires AllFit(es[..i], width)
    ensures Writable(es[..i]) ==> Writable(es[..i + 1])
    ensures AllFit(es[..i + 1], width)
    ensures Flatten(DictChunks(es[..i + 1], width))
         == Flatten(DictChunks(es[..i], width)) + (ToLE(es[i].0, width) + String16Bytes(es[i].1))
  {
    assert es[..i + 1] == es[..i] + [es[i]];
    var c := DictEntryBytes(es[i], width);
    assert DictChunks(es[..i + 1], width) == DictChunks(es[..i], width) + [c];
    FlattenSnoc(DictChunks(es[..i], width), c);
  }

  /** `writeBCF`: a default header, then record `i` for sub-chunk `i` (its
      regions at originY `i * 16` cast to i16), noting each record's position;
      then the offset table, the palette without payloads, the type map and
      the state-name map in ascending id order; finally the header is
      rewritten with the count and the table positions. A name that does not
      fit a string16 fails the write. */
  method WriteBCF(subChunks: seq<seq<BlockRegion>>, list: seq<PaletteKey>,
                  typeMap: map<BlockTypeId, Bytes>, stateMap: map<StateNameId, Bytes>) returns (r: Result<Bytes>)
    requires |subChunks| < 0x1_0000_0000_0000_0000
    ensures r.Ok? <==> Writable(TypeEntries(typeMap)) && Writable(StateEntries(stateMap))
    ensures r.Ok? ==> r.value == BcfFile(subChunks, list, typeMap, stateMap)
  {
    Pow256Values();
    var h0 := DefaultHeader();
    var out: Bytes, offsets: seq<U64>;
    ghost var recs: seq<Bytes>;
    out, offsets, recs := WriteSubChunks(WriteHeader(h0), subChunks);
    var t, pos := WriteUtilsTables(out, offsets, list, TypeEntries(typeMap), StateEntries(stateMap));
    if t.Err? {
      return Err(t.msg);
    }
    var h := h0.(subChunkCount := WrapU64(|subChunks|), subChunkOffsetsTableOffset := WrapU64(pos[0]),
                 paletteOffset := WrapU64(pos[1]), blockTypeMapOffset := WrapU64(pos[2]),
                 stateNameMapOffset := WrapU64(pos[3]));
    PatchedUtilsFile(h0, h, recs, offsets, list, TypeEntries(typeMap), StateEntries(stateMap), pos, t.value);
    r := Ok(WriteHeader(h) + t.value[HeaderSize..]);
  }

  /** The record loop of writeBCF. */
  method WriteSubChunks(out0: Bytes, subChunks: seq<seq<BlockRegion>>)
    returns (out: Bytes, offsets: seq<U64>, ghost recs: seq<Bytes>)
    requires |out0| == HeaderSize
    ensures recs == SubChunkRecords(subChunks)
    ensures out == out0 + Flatten(SubChunkRecords(subChunks)) && offsets == RecordOffsets(SubChunkRecords(subChunks))
  {
    out, offsets, recs := out0, [], [];
    var i := 0;
    while i < |subChunks|
      invariant 0 <= i <= |subChunks|
      invariant recs == SubChunkRecords(subChunks[..i])
      invariant out == out0 + Flatten(recs) && offsets == RecordOffsets(recs)
    {
      var originY := WrapI16(i * 16);
      ghost var rec := SubChunkRecord(subChunks[i], originY);
      CacheMerge.RecordStep(out0, recs, rec, offsets);
      RecordsSnoc(subChunks, i);
      offsets := offsets + [WrapU64(|out|)];
      out := WriteSubChunk(out, subChunks[i], originY);
      recs := recs + [rec];
      i := i + 1;
    }
    assert subChunks[..i] == subChunks;
  }

  lemma {:induction false} RecordsSnoc(subChunks: seq<seq<BlockRegion>>, i: nat)
    requires i < |subChunks|
    ensures SubChunkRecords(subChunks[..i + 1])
         == SubChunkRecords(subChunks[..i]) + [SubChunkRecord(subChunks[i], WrapI16(i * 16))]
  {
  }

  /** The four tables after the records; `pos` holds where each starts. */
  method WriteUtilsTables(out0: Bytes, offsets: seq<U64>, list: seq<PaletteKey>, types: seq<DictEntry>,
                          states: seq<DictEntry>) returns (r: Result<Bytes>, pos: seq<int>)
    requires |offsets| < 0x1_0000_0000_0000_0000
    requires forall j :: 0 <= j < |types| ==> types[j].0 < 0x1_0000
    requires forall j :: 0 <= j < |states| ==> states[j].0 < 0x100
    ensures r.Ok? <==> Writable(types) && Writable(states)
    ensures r.Ok? ==> AllFit(types, 2) && AllFit(states, 1)
                      && UtilsTablesWritten(out0, r.value, pos, offsets, list, types, states)
  {
    Pow256Values();
    pos := [];
    var o1 := WriteOffsetTable(out0, offsets);
    var o2 := WritePalette(o1, list, false);
    var d := WriteEntries(o2, types, 2);
    if d.Err? {
      return Err(d.msg), pos;
    }
    var e := WriteEntries(d.value, states, 1);
    if e.Err? {
      return Err(e.msg), pos;
    }
    pos := [|out0|, |o1|, |o2|, |d.value|];
    Layout4(out0, o1, o2, d.value, e.value, UtilsTables(offsets, list, types, states));
    r := Ok(e.value);
  }

  /** `out` is `out0` followed by the four tables, and `pos` holds where each starts. */
  ghost predicate UtilsTablesWritten(out0: Bytes, out: Bytes, pos: seq<int>, offsets: seq<U64>, list: seq<PaletteKey>,
                                     types: seq<DictEntry>, states: seq<DictEntry>) {
    && |offsets| < 0x1_0000_0000_0000_0000
    && AllFit(types, 2) && AllFit(states, 1)
    && var ts := UtilsTables(offsets, list, types, states);
       && out == out0 + Flatten(ts)
       && pos == [Start(|out0|, ts, 0), Start(|out0|, ts, 1), Start(|out0|, ts, 2), Start(|out0|, ts, 3)]
  }

  /** Four chunks appended one after another, and where each starts. */
  lemma {:induction false} Layout4(out0: Bytes, o1: Bytes, o2: Bytes, o3: Bytes, o4: Bytes, ts: seq<Bytes>)
    requires |ts| == 4
    requires o1 == out0 + ts[0] && o2 == o1 + ts[1] && o3 == o2 + ts[2] && o4 == o3 + ts[3]
    ensures o4 == out0 + Flatten(ts)
    ensures Start(|out0|, ts, 0) == |out0| && Start(|out0|, ts, 1) == |o1| && Start(|out0|, ts, 2) == |o2|
    ensures Start(|out0|, ts, 3) == |o3|
  {
    Flatten4(ts);
    assert out0 + ts[0] + ts[1] + ts[2] + ts[3] == out0 + (ts[0] + (ts[1] + (ts[2] + ts[3])));
    assert ts[..0] == [];
    StartNext(|out0|, ts, 0);
    StartNext(|out0|, ts, 1);
    StartNext(|out0|, ts, 2);
  }

  lemma {:induction false} Flatten4(ts: seq<Bytes>)
    requires |ts| == 4
    ensures Flatten(ts) == ts[0] + (ts[1] + (ts[2] + ts[3]))
  {
    var t1 := ts[1..];
    var t2 := t1[1..];
    var t3 := t2[1..];
    assert t3[1..] == [];
    assert Flatten(t3) == ts[3];
    assert Flatten(t2) == ts[2] + ts[3];
    assert Flatten(t1) == ts[1] + (ts[2] + ts[3]);
  }

  /** The header rewritten over the default one gives BcfFile. */
  lemma {:induction false} PatchedUtilsFile(h0: Header, h: Header, recs: seq<Bytes>, offsets: seq<U64>,
                                            list: seq<PaletteKey>, types: seq<DictEntry>, states: seq<DictEntry>,
                                            pos: seq<int>, out: Bytes)
    requires |recs| < 0x1_0000_0000_0000_0000 && offsets == RecordOffsets(recs)
    requires h0 == DefaultHeader()
    requires UtilsTablesWritten(WriteHeader(h0) + Flatten(recs), out, pos, offsets, list, types, states)
    requires h == h0.(subChunkCount := WrapU64(|recs|), subChunkOffsetsTableOffset := WrapU64(pos[0]),
                      paletteOffset := WrapU64(pos[1]), blockTypeMapOffset := WrapU64(pos[2]),
                      stateNameMapOffset := WrapU64(pos[3]))
    ensures WriteHeader(h) + out[HeaderSize..] == Layout(UtilsHeader(recs, UtilsTables(offsets, list, types, states)),
                                                         recs, UtilsTables(offsets, list, types, states))
  {
    var tables := UtilsTables(offsets, list, types, states);
    CacheMerge.PatchHeader(WriteHeader(h0), WriteHeader(h), Flatten(recs), Flatten(tables));
    assert h == UtilsHeader(recs, tables);
  }

  // ---------------------------------------------------------------------------
  // Reading a writeBCF file back

  /** A map whose ids are all below `n` is its own part below `n`. */
  lemma {:induction false} BelowAll(m: map<nat, Bytes>, n: nat)
    requires forall id :: id in m ==> id < n
    ensures Below(m, n) == m
  {
  }

  /** The four tables laid out from `t` to the end of the stream read back
      from their starts, each ending where the next begins. */
  lemma {:induction false} UtilsTablesIn(s: Bytes, t: nat, offs: seq<U64>, list: seq<PaletteKey>,
                                         types: seq<DictEntry>, states: seq<DictEntry>)
    requires |offs| < 0x1_0000_0000_0000_0000
    requires AllFit(types, 2) && AllFit(states, 1) && |types| < 0x1_0000_0000 && |states| < 0x1_0000_0000
    requires |list| < 0x1_0000_0000 && forall j :: 0 <= j < |list| ==> Storable(list[j], false)
    requires HasAt(s, t, Flatten(UtilsTables(offs, list, types, states)))
    requires t + |Flatten(UtilsTables(offs, list, types, states))| == |s|
    ensures var ts := UtilsTables(offs, list, types, states);
            && Start(t, ts, 0) <= Start(t, ts, 1) <= Start(t, ts, 2) <= Start(t, ts, 3) <= |s|
            && ReadOffsetTable(s, Start(t, ts, 0)) == Some((offs, Start(t, ts, 1)))
            && ReadPalette(s, Start(t, ts, 1), false) == Some((Decoded(list, false), Start(t, ts, 2)))
            && ReadDict(s, Start(t, ts, 2), 2) == Some((Insert(map[], types), Start(t, ts, 3)))
            && ReadDict(s, Start(t, ts, 3), 1) == Some((Insert(map[], states), |s|))
  {
    var ts := UtilsTables(offs, list, types, states);
    TablesAt(s, t, ts);
    UtilsTablesRead(s, Start(t, ts, 0), Start(t, ts, 1), Start(t, ts, 2), Start(t, ts, 3), Start(t, ts, 4),
                    offs, list, types, states);
  }

  /** The four tables read back, each ending where the next begins. */
  lemma {:induction false} UtilsTablesRead(s: Bytes, p0: nat, p1: nat, p2: nat, p3: nat, p4: nat, offs: seq<U64>,
                                           list: seq<PaletteKey>, types: seq<DictEntry>, states: seq<DictEntry>)
    requires |offs| < 0x1_0000_0000_0000_0000
    requires AllFit(types, 2) && AllFit(states, 1) && |types| < 0x1_0000_0000 && |states| < 0x1_0000_0000
    requires |list| < 0x1_0000_0000 && forall j :: 0 <= j < |list| ==> Storable(list[j], false)
    requires HasAt(s, p0, OffsetTableBytes(offs)) && p1 == p0 + |OffsetTableBytes(offs)|
    requires HasAt(s, p1, PaletteBytes(list, false)) && p2 == p1 + |PaletteBytes(list, false)|
    requires HasAt(s, p2, DictBytes(types, 2)) && p3 == p2 + |DictBytes(types, 2)|
    requires HasAt(s, p3, DictBytes(states, 1)) && p4 == p3 + |DictBytes(states, 1)|
    ensures ReadOffsetTable(s, p0) == Some((offs, p1))
    ensures ReadPalette(s, p1, false) == Some((Decoded(list, false), p2))
    ensures ReadDict(s, p2, 2) == Some((Insert(map[], types), p3))
    ensures ReadDict(s, p3, 1) == Some((Insert(map[], states), p4))
  {
    OffsetTableTo(s, p0, offs, p1);
    PaletteTo(s, p1, list, false, p2);
    EntriesTo(s, p2, types, 2, p3);
    EntriesTo(s, p3, states, 1, p4);
  }

  lemma {:induction false} EntriesTo(s: Bytes, pos: nat, es: seq<DictEntry>, width: nat, end: nat)
    requires |es| < 0x1_0000_0000 && AllFit(es, width)
    requires HasAt(s, pos, DictBytes(es, width)) && end == pos + |DictBytes(es, width)|
    ensures ReadDict(s, pos, width) == Some((Insert(map[], es), end))
  {
    ReadDictAt(s, pos, es, width);
  }

  /** A file laid out as writeBCF does, from its records and the entries of
      its two dictionaries. */
  ghost predicate UtilsFile(s: Bytes, recs: seq<Bytes>, list: seq<PaletteKey>, types: seq<DictEntry>,
                            states: seq<DictEntry>) {
    && |recs| < 0x1_0000_0000_0000_0000
    && AllFit(types, 2) && AllFit(states, 1) && |types| < 0x1_0000_0000 && |states| < 0x1_0000_0000
    && |list| < 0x1_0000_0000 && (forall j :: 0 <= j < |list| ==> Storable(list[j], false))
    && var ts := UtilsTables(RecordOffsets(recs), list, types, states);
       s == Layout(UtilsHeader(recs, ts), recs, ts) && |s| < 0x1_0000_0000_0000_0000
  }

  /** Such a file starts with its patched header and holds each record at
      its offset. */
  lemma {:induction false} ReadUtilsHead(s: Bytes, recs: seq<Bytes>, list: seq<PaletteKey>,
                                         types: seq<DictEntry>, states: seq<DictEntry>)
    requires UtilsFile(s, recs, list, types, states)
    ensures ReadHeader(s, 0) == Some((UtilsHeader(recs, UtilsTables(RecordOffsets(recs), list, types, states)), HeaderSize))
    ensures forall i :: 0 <= i < |recs| ==> HasAt(s, RecordOffsets(recs)[i], recs[i])
  {
    var tables := UtilsTables(RecordOffsets(recs), list, types, states);
    LayoutParts(UtilsHeader(recs, tables), recs, tables);
    ReadHeaderAt(s, 0, UtilsHeader(recs, tables));
    RecordsIn(s, recs);
  }

  /** Where the parts of such a file lie. */
  lemma {:induction false} UtilsFileParts(s: Bytes, recs: seq<Bytes>, list: seq<PaletteKey>,
                                          types: seq<DictEntry>, states: seq<DictEntry>)
    requires UtilsFile(s, recs, list, types, states)
    ensures var ts := UtilsTables(RecordOffsets(recs), list, types, states);
            && HasAt(s, 0, WriteHeader(UtilsHeader(recs, ts)))
            && HasAt(s, HeaderSize, Flatten(recs))
            && HasAt(s, HeaderSize + |Flatten(recs)|, Flatten(ts))
            && HeaderSize + |Flatten(recs)| + |Flatten(ts)| == |s|
  {
    var tables := UtilsTables(RecordOffsets(recs), list, types, states);
    LayoutParts(UtilsHeader(recs, tables), recs, tables);
  }

  /** Such a file holds its four tables from the end of its records, each
      ending where the next begins and the last at the end of the file; the
      header holds where each starts. */
  lemma {:induction false} UtilsTablesAt(s: Bytes, recs: seq<Bytes>, list: seq<PaletteKey>,
                                         types: seq<DictEntry>, states: seq<DictEntry>)
    requires UtilsFile(s, recs, list, types, states)
    ensures var ts := UtilsTables(RecordOffsets(recs), list, types, states);
            var t := HeaderSize + |Flatten(recs)|;
            var h := UtilsHeader(recs, ts);
            && h.subChunkOffsetsTableOffset == Start(t, ts, 0) && h.paletteOffset == Start(t, ts, 1)
            && h.blockTypeMapOffset == Start(t, ts, 2) && h.stateNameMapOffset == Start(t, ts, 3)
            && ReadOffsetTable(s, Start(t, ts, 0)) == Some((RecordOffsets(recs), Start(t, ts, 1)))
            && ReadPalette(s, Start(t, ts, 1), false) == Some((Decoded(list, false), Start(t, ts, 2)))
            && ReadDict(s, Start(t, ts, 2), 2) == Some((Insert(map[], types), Start(t, ts, 3)))
            && ReadDict(s, Start(t, ts, 3), 1) == Some((Insert(map[], states), |s|))
  {
    var tables := UtilsTables(RecordOffsets(recs), list, types, states);
    UtilsFileParts(s, recs, list, types, states);
    UtilsTablesIn(s, HeaderSize + |Flatten(recs)|, RecordOffsets(recs), list, types, states);
    HeaderOffsets(recs, tables, |s|);
  }

  /** The contents of writeBCF make such a file. */
  lemma {:induction false} BcfFileIsUtilsFile(subChunks: seq<seq<BlockRegion>>, list: seq<PaletteKey>,
                                              typeMap: map<BlockTypeId, Bytes>, stateMap: map<StateNameId, Bytes>)
    requires |subChunks| < 0x1_0000_0000_0000_0000
    requires Writable(TypeEntries(typeMap)) && Writable(StateEntries(stateMap))
    requires |list| < 0x1_0000_0000 && forall j :: 0 <= j < |list| ==> Storable(list[j], false)
    requires |BcfFile(subChunks, list, typeMap, stateMap)| < 0x1_0000_0000_0000_0000
    ensures UtilsFile(BcfFile(subChunks, list, typeMap, stateMap), SubChunkRecords(subChunks), list,
                      TypeEntries(typeMap), StateEntries(stateMap))
  {
    var tables := BcfTables(subChunks, list, typeMap, stateMap);
  }

  /** The file of writeBCF reads back: the header as patched (version 4, the
      record count), one offset per record pointing at record `i` (the
      regions of sub-chunk `i` at originY `i * 16`), the palette without its
      payloads, and both id maps exactly as given; each table ends where the
      next begins and the last at the end of the file. */
  lemma {:induction false} ReadBcfFile(s: Bytes, subChunks: seq<seq<BlockRegion>>, list: seq<PaletteKey>,
                                       typeMap: map<BlockTypeId, Bytes>, stateMap: map<StateNameId, Bytes>)
    requires |subChunks| < 0x1_0000_0000_0000_0000
    requires Writable(TypeEntries(typeMap)) && Writable(StateEntries(stateMap))
    requires |list| < 0x1_0000_0000 && forall j :: 0 <= j < |list| ==> Storable(list[j], false)
    requires s == BcfFile(subChunks, list, typeMap, stateMap) && |s| < 0x1_0000_0000_0000_0000
    ensures var h := UtilsHeader(SubChunkRecords(subChunks), BcfTables(subChunks, list, typeMap, stateMap));
            var offs := RecordOffsets(SubChunkRecords(subChunks));
            && ReadHeader(s, 0) == Some((h, HeaderSize))
            && h.version == 4 && h.subChunkCount == |subChunks| && h.stateValueMapOffset == 0
            && ReadOffsetTable(s, h.subChunkOffsetsTableOffset) == Some((offs, h.paletteOffset as nat))
            && (forall i :: 0 <= i < |subChunks| ==> HasAt(s, offs[i], SubChunkRecord(subChunks[i], WrapI16(i * 16))))
            && ReadPalette(s, h.paletteOffset, false) == Some((Decoded(list, false), h.blockTypeMapOffset as nat))
            && ReadDict(s, h.blockTypeMapOffset, 2) == Some((typeMap, h.stateNameMapOffset as nat))
            && ReadDict(s, h.stateNameMapOffset, 1) == Some((stateMap, |s|))
  {
    var recs := SubChunkRecords(subChunks);
    var tables := BcfTables(subChunks, list, typeMap, stateMap);
    BcfFileIsUtilsFile(subChunks, list, typeMap, stateMap);
    ReadUtilsHead(s, recs, list, TypeEntries(typeMap), StateEntries(stateMap));
    UtilsTablesAt(s, recs, list, TypeEntries(typeMap), StateEntries(stateMap));
    MapsBack(typeMap, stateMap);
  }

  /** The offsets the patched header holds are the table positions when the
      file is shorter than 2^64 bytes. */
  lemma {:induction false} HeaderOffsets(recs: seq<Bytes>, tables: seq<Bytes>, size: nat)
    requires |tables| == 4
    requires Start(HeaderSize + |Flatten(recs)|, tables, 3) <= size < 0x1_0000_0000_0000_0000
    requires Start(HeaderSize + |Flatten(recs)|, tables, 0) <= Start(HeaderSize + |Flatten(recs)|, tables, 1)
             <= Start(HeaderSize + |Flatten(recs)|, tables, 2) <= Start(HeaderSize + |Flatten(recs)|, tables, 3)
    ensures var t := HeaderSize + |Flatten(recs)|;
            var h := UtilsHeader(recs, tables);
            && h.subChunkOffsetsTableOffset == Start(t, tables, 0) && h.paletteOffset == Start(t, tables, 1)
            && h.blockTypeMapOffset == Start(t, tables, 2) && h.stateNameMapOffset == Start(t, tables, 3)
  {
  }

  /** Both dictionaries read back as the maps written. */
  lemma {:induction false} MapsBack(typeMap: map<BlockTypeId, Bytes>, stateMap: map<StateNameId, Bytes>)
    ensures Insert(map[], TypeEntries(typeMap)) == typeMap
    ensures Insert(map[], StateEntries(stateMap)) == stateMap
  {
    InsertAscending(typeMap, 0x1_0000);
    BelowAll(typeMap, 0x1_0000);
    InsertAscending(stateMap, 0x100);
    BelowAll(stateMap, 0x100);
  }

  /** What `readPalette` rebuilds from a stream: the header, then the palette
      at the header's palette offset; a stream that ends early gives nothing. */
  function PaletteOf(s: Bytes): (r: Option<seq<PaletteKey>>)
    ensures |s| < HeaderSize ==> r == None
  {
    match ReadHeader(s, 0)
    case None => None
    case Some((h, _)) =>
      match ReadPalette(s, h.paletteOffset, false)
      case None => None
      case Some((keys, _)) => Some(keys)
  }

  /** `readPalette`: a file that cannot be opened gives the empty list;
      otherwise the palette as the stream holds it. */
  method ReadPaletteFile(file: Option<Bytes>) returns (r: Option<seq<PaletteKey>>)
    ensures file.None? ==> r == Some([])
    ensures file.Some? ==> r == PaletteOf(file.value)
  {
    if file.None? {
      return Some([]);
    }
    var s := file.value;
    var header := ReadHeader(s, 0);
    if header.None? {
      return None;
    }
    var keys := ReadPaletteLoop(s, header.value.0.paletteOffset);
    if keys.None? {
      return None;
    }
    return Some(keys.value.0);
  }

  /** `readPalette` on a file of writeBCF gives the palette it was given,
      without payloads. */
  lemma {:induction false} PaletteOfBcfFile(subChunks: seq<seq<BlockRegion>>, list: seq<PaletteKey>,
                                            typeMap: map<BlockTypeId, Bytes>, stateMap: map<StateNameId, Bytes>)
    requires |subChunks| < 0x1_0000_0000_0000_0000
    requires Writable(TypeEntries(typeMap)) && Writable(StateEntries(stateMap))
    requires |list| < 0x1_0000_0000 && forall j :: 0 <= j < |list| ==> Storable(list[j], false)
    requires |BcfFile(subChunks, list, typeMap, stateMap)| < 0x1_0000_0000_0000_0000
    ensures PaletteOf(BcfFile(subChunks, list, typeMap, stateMap)) == Some(Decoded(list, false))
  {
    BcfFileIsUtilsFile(subChunks, list, typeMap, stateMap);
    PaletteOfUtilsFile(BcfFile(subChunks, list, typeMap, stateMap), SubChunkRecords(subChunks), list,
                       TypeEntries(typeMap), StateEntries(stateMap));
  }

  lemma {:induction false} PaletteOfUtilsFile(s: Bytes, recs: seq<Bytes>, list: seq<PaletteKey>,
                                              types: seq<DictEntry>, states: seq<DictEntry>)
    requires UtilsFile(s, recs, list, types, states)
    ensures PaletteOf(s) == Some(Decoded(list, false))
  {
    ReadUtilsHead(s, recs, list, types, states);
    UtilsTablesAt(s, recs, list, types, states);
  }

  // ---------------------------------------------------------------------------
  // Lookups by world coordinates

  /** The utility's own state: per sub-chunk its block groups, the palette
      and the two id maps. */
  datatype Utils = Utils(subChunks: seq<seq<BlockGroup>>, palette: seq<PaletteKey>,
                         typeMap: map<BlockTypeId, Bytes>, stateMap: map<StateNameId, Bytes>)
  {
    /** Every group's coordinate vectors cover its count. */
    predicate Indexable() {
      forall i, j :: 0 <= i < |subChunks| && 0 <= j < |subChunks[i]| ==> subChunks[i][j].Indexable()
    }
  }

  /** `getSubChunkIndex`: `y / 16` truncated toward zero, as a u32. */
  function SubChunkIndex(y: I32): (r: U32) {
    WrapU32(Quot(y, 16))
  }

  /** `getLocalY`: `y % 16`, with the sign of `y`, as a u32. */
  function LocalY(y: I32): (r: U32) {
    WrapU32(Rem(y, 16))
  }

  /** A height at or above 0 lies in sub-chunk `y / 16` at a local height
      below 16, and the two recombine to `y`. */
  lemma {:induction false} HeightSplits(y: I32)
    requires y >= 0
    ensures LocalY(y) < 16 && 16 * SubChunkIndex(y) + LocalY(y) == y
  {
  }

  /** The local height, passed back as an `int`, is `y % 16` with the sign of
      `y`. */
  lemma {:induction false} LocalYBack(y: I32)
    ensures WrapI32(LocalY(y)) == Rem(y, 16)
  {
    var r := Rem(y, 16);
    if r < 0 {
      assert LocalY(y) == r + 0x1_0000_0000;
    }
  }

  /** Heights from -15 to -1 fall in sub-chunk 0 at their own (negative)
      local height; anything lower maps to an index of at least 0xF800_0000,
      past every shorter sub-chunk list. */
  lemma {:induction false} NegativeHeights(y: I32)
    requires y < 0
    ensures y > -16 ==> SubChunkIndex(y) == 0 && WrapI32(LocalY(y)) == y
    ensures y <= -16 ==> SubChunkIndex(y) >= 0xF800_0000
  {
    LocalYBack(y);
    var q := Quot(y, 16);
    assert q == -((-(y as int)) / 16);
    if y <= -16 {
      assert -0x800_0000 <= q < 0;
      assert SubChunkIndex(y) == q + 0x1_0000_0000;
    }
  }

  /** `fetchPaletteId`: -1 when the sub-chunk index is past the list;
      otherwise the palette id of the first group of that sub-chunk that holds
      (x, y % 16, z), or -1 when none does, as an `int` (so an id of 2^31 or
      more comes out negative). */
  function FetchPaletteId(u: Utils, x: I32, y: I32, z: I32): (r: I32)
    requires u.Indexable()
    ensures SubChunkIndex(y) >= |u.subChunks| ==> r == -1
    ensures SubChunkIndex(y) < |u.subChunks| ==>
              var gs := u.subChunks[SubChunkIndex(y)];
              && ((forall i :: 0 <= i < |gs| ==> !HasCell(gs[i], x, Rem(y, 16), z)) ==> r == -1)
              && (forall i :: (0 <= i < |gs| && HasCell(gs[i], x, Rem(y, 16), z)
                                && (forall j :: 0 <= j < i ==> !HasCell(gs[j], x, Rem(y, 16), z)))
                               ==> r == WrapI32(gs[i].paletteId))
  {
    var sc := SubChunkIndex(y);
    if sc >= |u.subChunks| then -1
    else
      LocalYBack(y);
      WrapI32(GetPaletteId(u.subChunks[sc], x, WrapI32(LocalY(y)), z))
  }

  /** "minecraft:air". */
  const Air: Bytes := [0x6D, 0x69, 0x6E, 0x65, 0x63, 0x72, 0x61, 0x66, 0x74, 0x3A, 0x61, 0x69, 0x72]

  /** `getBlockType`: the type name of the block's palette entry, or
      "minecraft:air" when no group holds the cell or the entry's type id has
      no name. Indexing the palette past its end is undefined in the source,
      so an id found must lie within the palette. */
  function GetBlockType(u: Utils, x: I32, y: I32, z: I32): (r: Bytes)
    requires u.Indexable() && FetchPaletteId(u, x, y, z) < |u.palette|
    ensures FetchPaletteId(u, x, y, z) < 0 ==> r == Air
    ensures r != Air ==> exists id :: id in u.typeMap && u.typeMap[id] == r
  {
    var pid := FetchPaletteId(u, x, y, z);
    if pid < 0 then Air
    else if u.palette[pid].typeId in u.typeMap then u.typeMap[u.palette[pid].typeId]
    else Air
  }

  /** The cell held first by group `i` of its sub-chunk, with an id below
      2^31 inside the palette, has the name of that entry's type (air when
      unnamed). */
  lemma {:induction false} BlockTypeOfCell(u: Utils, x: I32, y: I32, z: I32, i: nat)
    requires u.Indexable() && SubChunkIndex(y) < |u.subChunks|
    requires var gs := u.subChunks[SubChunkIndex(y)];
             && i < |gs| && HasCell(gs[i], x, Rem(y, 16), z)
             && (forall j :: 0 <= j < i ==> !HasCell(gs[j], x, Rem(y, 16), z))
             && gs[i].paletteId < 0x8000_0000 && gs[i].paletteId < |u.palette|
    ensures FetchPaletteId(u, x, y, z) < |u.palette|
    ensures var k := u.palette[u.subChunks[SubChunkIndex(y)][i].paletteId];
            GetBlockType(u, x, y, z) == if k.typeId in u.typeMap then u.typeMap[k.typeId] else Air
  {
  }

  /** `std::to_string` of an unsigned value: its decimal digits, most
      significant first, with no leading zero. */
  function Decimal(v: nat): (r: Bytes)
    ensures 1 <= |r| && forall i :: 0 <= i < |r| ==> 0x30 <= r[i] <= 0x39
    ensures |r| == 1 <==> v < 10
    ensures r[0] == 0x30 <==> v == 0
    decreases v
  {
    if v < 10 then [0x30 + v] else Decimal(v / 10) + [0x30 + v % 10]
  }

  /** The value a string of decimal digits denotes. */
  function DigitsValue(s: Bytes): (v: nat)
    requires forall i :: 0 <= i < |s| ==> 0x30 <= s[i] <= 0x39
    decreases |s|
  {
    if s == [] then 0 else 10 * DigitsValue(s[..|s| - 1]) + (s[|s| - 1] - 0x30)
  }

  /** The digits of `Decimal(v)` denote `v`. */
  lemma {:induction false} DecimalValue(v: nat)
    ensures DigitsValue(Decimal(v)) == v
    decreases v
  {
    if v >= 10 {
      DecimalValue(v / 10);
      var r := Decimal(v);
      assert r[..|r| - 1] == Decimal(v / 10);
    }
  }

  /** The pair `p` names `name` through the state-name map. */
  predicate NamedBy(p: StatePair, stateMap: map<StateNameId, Bytes>, name: Bytes) {
    p.0 in stateMap && stateMap[p.0] == name
  }

  /** The map getBlockState builds from a key's pairs: for each pair in order
      whose name id is mapped, `result[name] = to_string(value)`. */
  function StatesOf(pairs: seq<StatePair>, stateMap: map<StateNameId, Bytes>): (r: map<Bytes, Bytes>)
    decreases |pairs|
  {
    if pairs == [] then map[]
    else
      var m := StatesOf(pairs[..|pairs| - 1], stateMap);
      var p := pairs[|pairs| - 1];
      if p.0 in stateMap then m[stateMap[p.0] := Decimal(p.1)] else m
  }

  /** A name is in the map exactly when some pair names it: pairs with
      unmapped name ids are dropped. */
  lemma {:induction false} StatesOfNames(pairs: seq<StatePair>, stateMap: map<StateNameId, Bytes>, name: Bytes)
    ensures name in StatesOf(pairs, stateMap) <==> exists j :: 0 <= j < |pairs| && NamedBy(pairs[j], stateMap, name)
    decreases |pairs|
  {
    if pairs != [] {
      var n := |pairs| - 1;
      var pre := pairs[..n];
      StatesOfNames(pre, stateMap, name);
      if name in StatesOf(pairs, stateMap) && !NamedBy(pairs[n], stateMap, name) {
        var j :| 0 <= j < n && NamedBy(pre[j], stateMap, name);
        assert NamedBy(pairs[j], stateMap, name);
      }
      if exists j :: 0 <= j < |pairs| && NamedBy(pairs[j], stateMap, name) {
        var j :| 0 <= j < |pairs| && NamedBy(pairs[j], stateMap, name);
        if j < n {
          assert NamedBy(pre[j], stateMap, name);
        }
      }
    }
  }

  /** The value of a name is the decimal of the value of the last pair that
      names it: later pairs overwrite earlier ones. */
  lemma {:induction false} StatesOfLast(pairs: seq<StatePair>, stateMap: map<StateNameId, Bytes>, name: Bytes, j: nat)
    requires j < |pairs| && NamedBy(pairs[j], stateMap, name)
    requires forall k :: j < k < |pairs| ==> !NamedBy(pairs[k], stateMap, name)
    ensures name in StatesOf(pairs, stateMap) && StatesOf(pairs, stateMap)[name] == Decimal(pairs[j].1)
    decreases |pairs|
  {
    var n := |pairs| - 1;
    if j < n {
      var pre := pairs[..n];
      assert pre[j] == pairs[j];
      assert forall k :: j < k < |pre| ==> pre[k] == pairs[k];
      StatesOfLast(pre, stateMap, name, j);
      assert !NamedBy(pairs[n], stateMap, name);
    }
  }

  /** `getBlockState`: the empty map when no group holds the cell; otherwise
      the map built from the pairs of the block's palette entry. */
  method GetBlockState(u: Utils, x: I32, y: I32, z: I32) returns (result: map<Bytes, Bytes>)
    requires u.Indexable() && FetchPaletteId(u, x, y, z) < |u.palette|
    ensures FetchPaletteId(u, x, y, z) < 0 ==> result == map[]
    ensures FetchPaletteId(u, x, y, z) >= 0 ==> result == StatesOf(u.palette[FetchPaletteId(u, x, y, z)].states, u.stateMap)
  {
    result := map[];
    var pid := FetchPaletteId(u, x, y, z);
    if pid < 0 {
      return;
    }
    var states := u.palette[pid].states;
    var i := 0;
    while i < |states|
      invariant 0 <= i <= |states|
      invariant result == StatesOf(states[..i], u.stateMap)
    {
      assert states[..i + 1][..i] == states[..i];
      var (id, v) := states[i];
      if id in u.stateMap {
        result := result[u.stateMap[id] := Decimal(v)];
      }
      i := i + 1;
    }
    assert states[..i] == states;
  }
}

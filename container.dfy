/** The container file the writers produce: the 67-byte header, the sub-chunk
    records one after another, then the tables (offset table, palette and id
    dictionaries). The header is patched at the end with the positions at
    which the tables start. */
module Container {
  import opened Wrappers
  import opened LittleEndian
  import opened StringCodec
  import opened Structs
  import opened Records
  import opened Tables

  /** A container: the header, then the records, then the tables. */
  function Layout(h: Header, records: seq<Bytes>, tables: seq<Bytes>): (r: Bytes)
    ensures |r| == HeaderSize + |Flatten(records)| + |Flatten(tables)|
  {
    WriteHeader(h) + Flatten(records) + Flatten(tables)
  }

  /** The position of chunk `i` of `chunks` laid out after `base` bytes. */
  function Start(base: nat, chunks: seq<Bytes>, i: nat): (p: nat)
    requires i <= |chunks|
    ensures p >= base
  {
    base + |Flatten(chunks[..i])|
  }

  /** The offsets the writers record, one per record: the stream position
      before it, as a u64. */
  function RecordOffsets(records: seq<Bytes>): (offs: seq<U64>)
    ensures |offs| == |records|
    ensures forall i :: 0 <= i < |records| ==> offs[i] == WrapU64(Start(HeaderSize, records, i))
  {
    seq(|records|, i requires 0 <= i < |records| => WrapU64(Start(HeaderSize, records, i)))
  }

  lemma {:induction false} FlattenAppend(a: seq<Bytes>, b: seq<Bytes>)
    ensures Flatten(a + b) == Flatten(a) + Flatten(b)
    decreases |a|
  {
    if a == [] {
      assert a + b == b;
    } else {
      assert (a + b)[1..] == a[1..] + b;
      FlattenAppend(a[1..], b);
      Assoc(a[0], Flatten(a[1..]), Flatten(b));
    }
  }

  /** Chunk `i` starts where chunk `i - 1` ends. */
  lemma {:induction false} StartNext(base: nat, chunks: seq<Bytes>, i: nat)
    requires i < |chunks|
    ensures Start(base, chunks, i + 1) == Start(base, chunks, i) + |chunks[i]|
  {
    TakeNext(chunks, i);
    FlattenSnoc(chunks[..i], chunks[i]);
  }

  /** Past the last chunk is the end of all of them. */
  lemma {:induction false} StartEnd(base: nat, chunks: seq<Bytes>)
    ensures Start(base, chunks, |chunks|) == base + |Flatten(chunks)|
  {
    TakeAll(chunks);
  }

  /** A stream holding the chunks at `base` holds chunk `i` at its start. */
  lemma {:induction false} ChunkAt(s: Bytes, base: nat, chunks: seq<Bytes>, i: nat)
    requires i < |chunks| && HasAt(s, base, Flatten(chunks))
    ensures HasAt(s, Start(base, chunks, i), chunks[i])
  {
    var pre, rest, post := chunks[..i], chunks[i..], chunks[i + 1..];
    assert chunks == pre + rest;
    assert rest[1..] == post;
    FlattenAppend(pre, rest);
    HasAtSplit(s, base, Flatten(pre), Flatten(rest));
    HasAtSplit(s, base + |Flatten(pre)|, chunks[i], Flatten(post));
  }

  /** The three parts of a container, where they lie in it. */
  lemma {:induction false} LayoutParts(h: Header, records: seq<Bytes>, tables: seq<Bytes>)
    ensures HasAt(Layout(h, records, tables), 0, WriteHeader(h))
    ensures HasAt(Layout(h, records, tables), HeaderSize, Flatten(records))
    ensures HasAt(Layout(h, records, tables), HeaderSize + |Flatten(records)|, Flatten(tables))
  {
    PartsAt(WriteHeader(h), Flatten(records), Flatten(tables));
  }

  lemma {:induction false} PartsAt(w: Bytes, a: Bytes, b: Bytes)
    ensures HasAt(w + a + b, 0, w) && HasAt(w + a + b, |w|, a) && HasAt(w + a + b, |w| + |a|, b)
  {
    Slice3(w, a, b);
    assert (w + a + b)[|w| + |a|..] == (w + a + b)[|w| + |a|..|w| + |a| + |b|];
  }

  // ---------------------------------------------------------------------------
  // The containers of the cached writers

  /** A name list a dictionary of `width`-byte ids can hold: its ids fit the
      width and the u32 count, and its names the u16 length. */
  predicate Listable(names: seq<Bytes>, width: nat) {
    |names| < 0x1_0000_0000 && |names| <= Pow256(width)
    && forall j :: 0 <= j < |names| ==> |names[j]| <= 0xFFFF
  }

  /** The dictionary of a dense id map: id i names `names[i]`. */
  function DictOf(names: seq<Bytes>, width: nat): (r: Bytes)
    requires Listable(names, width)
    ensures AllFit(Dense(names, 0), width) && r == DictBytes(Dense(names, 0), width)
  {
    DenseFits(names, width);
    DictBytes(Dense(names, 0), width)
  }

  /** The tables after the records: the offset table, the palette (with
      payloads in version 4, without in version 3), the type map (2-byte ids),
      the state-name and state-value maps (1-byte ids). */
  function FileTables(offs: seq<U64>, list: seq<PaletteKey>, withPayload: bool, types: seq<Bytes>, names: seq<Bytes>,
                      values: seq<Bytes>): (r: seq<Bytes>)
    requires |offs| < 0x1_0000_0000_0000_0000
    requires Listable(types, 2) && Listable(names, 1) && Listable(values, 1)
    ensures |r| == 5
  {
    [OffsetTableBytes(offs), PaletteBytes(list, withPayload), DictOf(types, 2), DictOf(names, 1), DictOf(values, 1)]
  }

  /** The patched header: the default header with the world size, the
      version, the record count and the position of each table; no separate
      payload section. */
  function FileHeader(version: U8, width: U16, length: U16, height: U16, records: seq<Bytes>, tables: seq<Bytes>): (h: Header)
    requires |tables| == 5
    ensures h.version == version && h.nbtDataOffset == 0 && h.magic == DefaultHeader().magic
  {
    var t := HeaderSize + |Flatten(records)|;
    DefaultHeader().(version := version, width := width, length := length, height := height,
                     subChunkCount := WrapU64(|records|),
                     subChunkOffsetsTableOffset := WrapU64(Start(t, tables, 0)),
                     paletteOffset := WrapU64(Start(t, tables, 1)),
                     blockTypeMapOffset := WrapU64(Start(t, tables, 2)),
                     stateNameMapOffset := WrapU64(Start(t, tables, 3)),
                     stateValueMapOffset := WrapU64(Start(t, tables, 4)),
                     nbtDataOffset := 0)
  }

  /** The file of mergeAllCacheFiles, given its records and tables' contents:
      version 4 (palette payloads) for the latest cached writer, version 3
      (no payloads) for the older one. */
  function ContainerFile(version: U8, withPayload: bool, width: U16, length: U16, height: U16, records: seq<Bytes>,
                         list: seq<PaletteKey>, types: seq<Bytes>, names: seq<Bytes>, values: seq<Bytes>): (r: Bytes)
    requires |records| < 0x1_0000_0000_0000_0000
    requires Listable(types, 2) && Listable(names, 1) && Listable(values, 1)
  {
    var tables := FileTables(RecordOffsets(records), list, withPayload, types, names, values);
    Layout(FileHeader(version, width, length, height, records, tables), records, tables)
  }

  /** Reading a container back: the header as patched, one offset per record
      pointing at that record, then the palette (the keys as the entry format
      keeps them: without payloads when they are not written) and the three id
      maps, each table starting where the header says and ending where the
      next one starts, the last at the end of the file. */
  lemma {:induction false} ReadContainerFile(s: Bytes, version: U8, withPayload: bool, width: U16, length: U16, height: U16,
                                             records: seq<Bytes>, list: seq<PaletteKey>, types: seq<Bytes>,
                                             names: seq<Bytes>, values: seq<Bytes>)
    requires |records| < 0x1_0000_0000_0000_0000
    requires Listable(types, 2) && Listable(names, 1) && Listable(values, 1)
    requires |list| < 0x1_0000_0000 && forall j :: 0 <= j < |list| ==> Storable(list[j], withPayload)
    requires s == ContainerFile(version, withPayload, width, length, height, records, list, types, names, values)
    requires |s| < 0x1_0000_0000_0000_0000
    ensures var h := FileHeader(version, width, length, height, records,
                                FileTables(RecordOffsets(records), list, withPayload, types, names, values));
            && ReadHeader(s, 0) == Some((h, HeaderSize))
            && h.version == version && h.subChunkCount == |records|
            && h.width == width && h.length == length && h.height == height
            && ReadOffsetTable(s, h.subChunkOffsetsTableOffset) == Some((RecordOffsets(records), h.paletteOffset as nat))
            && (forall i :: 0 <= i < |records| ==> HasAt(s, RecordOffsets(records)[i], records[i]))
            && ReadPalette(s, h.paletteOffset, withPayload) == Some((Decoded(list, withPayload), h.blockTypeMapOffset as nat))
            && ReadDict(s, h.blockTypeMapOffset, 2) == Some((IdMap(types, |types|), h.stateNameMapOffset as nat))
            && ReadDict(s, h.stateNameMapOffset, 1) == Some((IdMap(names, |names|), h.stateValueMapOffset as nat))
            && ReadDict(s, h.stateValueMapOffset, 1) == Some((IdMap(values, |values|), |s|))
  {
    var offs := RecordOffsets(records);
    var tables := FileTables(offs, list, withPayload, types, names, values);
    var h := FileHeader(version, width, length, height, records, tables);
    var t := HeaderSize + |Flatten(records)|;
    assert s == Layout(h, records, tables);
    LayoutParts(h, records, tables);
    ReadHeaderAt(s, 0, h);
    RecordsIn(s, records);
    FileTablesIn(s, t, offs, list, withPayload, types, names, values);
  }

  /** The records laid out after the header lie at the offsets the writers
      record for them, which are exact in a stream shorter than 2^64. */
  lemma {:induction false} RecordsIn(s: Bytes, records: seq<Bytes>)
    requires HasAt(s, HeaderSize, Flatten(records)) && |s| < 0x1_0000_0000_0000_0000
    ensures forall i :: 0 <= i < |records| ==> HasAt(s, RecordOffsets(records)[i], records[i])
  {
    forall i | 0 <= i < |records|
      ensures HasAt(s, RecordOffsets(records)[i], records[i])
    {
      ChunkAt(s, HeaderSize, records, i);
    }
  }

  /** The tables laid out from `t` to the end of the stream read back from
      their starts, each ending where the next begins. */
  lemma {:induction false} FileTablesIn(s: Bytes, t: nat, offs: seq<U64>, list: seq<PaletteKey>, withPayload: bool,
                                      types: seq<Bytes>, names: seq<Bytes>, values: seq<Bytes>)
    requires |offs| < 0x1_0000_0000_0000_0000
    requires Listable(types, 2) && Listable(names, 1) && Listable(values, 1)
    requires |list| < 0x1_0000_0000 && forall j :: 0 <= j < |list| ==> Storable(list[j], withPayload)
    requires HasAt(s, t, Flatten(FileTables(offs, list, withPayload, types, names, values)))
    requires t + |Flatten(FileTables(offs, list, withPayload, types, names, values))| == |s|
    ensures var tables := FileTables(offs, list, withPayload, types, names, values);
            && Start(t, tables, 0) <= Start(t, tables, 1) <= Start(t, tables, 2) <= Start(t, tables, 3)
               <= Start(t, tables, 4) <= |s|
            && ReadOffsetTable(s, Start(t, tables, 0)) == Some((offs, Start(t, tables, 1)))
            && ReadPalette(s, Start(t, tables, 1), withPayload) == Some((Decoded(list, withPayload), Start(t, tables, 2)))
            && ReadDict(s, Start(t, tables, 2), 2) == Some((IdMap(types, |types|), Start(t, tables, 3)))
            && ReadDict(s, Start(t, tables, 3), 1) == Some((IdMap(names, |names|), Start(t, tables, 4)))
            && ReadDict(s, Start(t, tables, 4), 1) == Some((IdMap(values, |values|), |s|))
  {
    var tables := FileTables(offs, list, withPayload, types, names, values);
    TablesAt(s, t, tables);
    FileTablesRead(s, Start(t, tables, 0), Start(t, tables, 1), Start(t, tables, 2), Start(t, tables, 3),
                   Start(t, tables, 4), Start(t, tables, 5), offs, list, withPayload, types, names, values);
  }

  /** The five tables read back, each ending where the next begins. */
  lemma {:induction false} FileTablesRead(s: Bytes, p0: nat, p1: nat, p2: nat, p3: nat, p4: nat, p5: nat,
                                          offs: seq<U64>, list: seq<PaletteKey>, withPayload: bool,
                                        types: seq<Bytes>, names: seq<Bytes>, values: seq<Bytes>)
    requires |offs| < 0x1_0000_0000_0000_0000
    requires Listable(types, 2) && Listable(names, 1) && Listable(values, 1)
    requires |list| < 0x1_0000_0000 && forall j :: 0 <= j < |list| ==> Storable(list[j], withPayload)
    requires HasAt(s, p0, OffsetTableBytes(offs)) && p1 == p0 + |OffsetTableBytes(offs)|
    requires HasAt(s, p1, PaletteBytes(list, withPayload)) && p2 == p1 + |PaletteBytes(list, withPayload)|
    requires HasAt(s, p2, DictOf(types, 2)) && p3 == p2 + |DictOf(types, 2)|
    requires HasAt(s, p3, DictOf(names, 1)) && p4 == p3 + |DictOf(names, 1)|
    requires HasAt(s, p4, DictOf(values, 1)) && p5 == p4 + |DictOf(values, 1)|
    ensures ReadOffsetTable(s, p0) == Some((offs, p1))
    ensures ReadPalette(s, p1, withPayload) == Some((Decoded(list, withPayload), p2))
    ensures ReadDict(s, p2, 2) == Some((IdMap(types, |types|), p3))
    ensures ReadDict(s, p3, 1) == Some((IdMap(names, |names|), p4))
    ensures ReadDict(s, p4, 1) == Some((IdMap(values, |values|), p5))
  {
    OffsetTableTo(s, p0, offs, p1);
    PaletteTo(s, p1, list, withPayload, p2);
    DictTo(s, p2, types, 2, p3);
    DictTo(s, p3, names, 1, p4);
    DictTo(s, p4, values, 1, p5);
  }

  lemma {:induction false} OffsetTableTo(s: Bytes, pos: nat, offs: seq<U64>, end: nat)
    requires |offs| < 0x1_0000_0000_0000_0000
    requires HasAt(s, pos, OffsetTableBytes(offs)) && end == pos + |OffsetTableBytes(offs)|
    ensures ReadOffsetTable(s, pos) == Some((offs, end))
  {
    ReadOffsetTableAt(s, pos, offs);
  }

  lemma {:induction false} PaletteTo(s: Bytes, pos: nat, list: seq<PaletteKey>, withPayload: bool, end: nat)
    requires |list| < 0x1_0000_0000 && forall j :: 0 <= j < |list| ==> Storable(list[j], withPayload)
    requires HasAt(s, pos, PaletteBytes(list, withPayload)) && end == pos + |PaletteBytes(list, withPayload)|
    ensures ReadPalette(s, pos, withPayload) == Some((Decoded(list, withPayload), end))
  {
    ReadPaletteAt(s, pos, list, withPayload);
  }

  lemma {:induction false} DictTo(s: Bytes, pos: nat, names: seq<Bytes>, width: nat, end: nat)
    requires Listable(names, width)
    requires HasAt(s, pos, DictOf(names, width)) && end == pos + |DictOf(names, width)|
    ensures ReadDict(s, pos, width) == Some((IdMap(names, |names|), end))
  {
    ReadDenseDict(s, pos, names, width);
  }

  /** Where the tables lie, and that each ends where the next begins. */
  lemma {:induction false} TablesAt(s: Bytes, t: nat, tables: seq<Bytes>)
    requires HasAt(s, t, Flatten(tables)) && t + |Flatten(tables)| == |s|
    ensures forall i :: 0 <= i < |tables| ==> HasAt(s, Start(t, tables, i), tables[i])
    ensures forall i :: 0 <= i < |tables| ==> Start(t, tables, i) + |tables[i]| == Start(t, tables, i + 1)
    ensures Start(t, tables, |tables|) == |s|
  {
    forall i | 0 <= i < |tables|
      ensures HasAt(s, Start(t, tables, i), tables[i])
      ensures Start(t, tables, i) + |tables[i]| == Start(t, tables, i + 1)
    {
      ChunkAt(s, t, tables, i);
      StartNext(t, tables, i);
    }
    StartEnd(t, tables);
  }
}

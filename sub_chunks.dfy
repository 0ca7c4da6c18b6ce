/** SubChunkUtils.hpp: the partition record (a size field patched after the
    body is written, the origin, and the region list) and the cell lookup over
    block groups. */
module SubChunks {
  import opened Wrappers
  import opened LittleEndian
  import opened Structs
  import opened BlockGroups
  import opened StringCodec
  import opened Records

  /** u32 paletteId, then x1, y1, z1, x2, y2, z2 as i16: 16 bytes. */
  function RegionBytes(r: BlockRegion): (b: Bytes)
    ensures |b| == 16
  {
    WriteU32(r.paletteId) + WriteCell(r.x1, r.y1, r.z1) + WriteCell(r.x2, r.y2, r.z2)
  }

  function RegionsBytes(rs: seq<BlockRegion>): (b: Bytes)
    ensures |b| == 16 * |rs|
  {
    if rs == [] then [] else RegionsBytes(rs[..|rs| - 1]) + RegionBytes(rs[|rs| - 1])
  }

  /** A record whose origin part is `origin`: the u64 size of the whole record,
      the origin, the u32 region count, then the regions. */
  function Record(origin: Bytes, regions: seq<BlockRegion>): (b: Bytes)
    ensures |b| == 8 + |origin| + 4 + 16 * |regions|
  {
    WriteU64(WrapU64(12 + |origin| + 16 * |regions|)) + origin + WriteU32(WrapU32(|regions|))
      + RegionsBytes(regions)
  }

  /** The record of `writeSubChunk(ofs, regions, originY)`: 14 + 16n bytes. */
  function SubChunkRecord(regions: seq<BlockRegion>, originY: Coord): (b: Bytes)
    ensures |b| == 14 + 16 * |regions|
  {
    Record(WriteI16(originY), regions)
  }

  /** The record with the three-coordinate origin that the latest writer emits:
      18 + 16n bytes. */
  function SubChunkRecord3(regions: seq<BlockRegion>, o: SubChunkOrigin): (b: Bytes)
    ensures |b| == 18 + 16 * |regions|
  {
    Record(WriteI16(o.originX) + WriteI16(o.originY) + WriteI16(o.originZ), regions)
  }

  /** The size field of a record holds the record's own length while that fits. */
  lemma {:induction false} RecordSizeField(origin: Bytes, regions: seq<BlockRegion>)
    requires 12 + |origin| + 16 * |regions| < 0x1_0000_0000_0000_0000
    ensures ReadU64(Record(origin, regions), 0) == Some((|Record(origin, regions)|, 8))
  {
    var b := Record(origin, regions);
    var size := WrapU64(12 + |origin| + 16 * |regions|);
    assert b[0..8] == WriteU64(size);
    ReadU64At(b, 0, size);
  }

  /** Appends the record to the stream `out`: a zero placeholder, the body, then
      the size is written over the placeholder; the stream ends at the record's
      end. */
  method WriteRecord(out: Bytes, origin: Bytes, regions: seq<BlockRegion>) returns (res: Bytes)
    ensures res == out + Record(origin, regions)
  {
    var startPos := |out|;
    var count := WriteU32(WrapU32(|regions|));
    res := AppendRegions(out + WriteU64(0) + origin + count, regions);
    Regroup(out, WriteU64(0), origin, count, RegionsBytes(regions));
    var size := WrapU64(|res| - startPos);
    Patch(out, WriteU64(0), WriteU64(size), origin + count + RegionsBytes(regions));
    res := res[..startPos] + WriteU64(size) + res[startPos + 8..];
    Regroup(out, WriteU64(size), origin, count, RegionsBytes(regions));
    RecordParts(origin, regions, size);
  }

  lemma {:induction false} RecordParts(origin: Bytes, regions: seq<BlockRegion>, size: U64)
    requires size == WrapU64(12 + |origin| + 16 * |regions|)
    ensures Record(origin, regions) == WriteU64(size) + origin + WriteU32(WrapU32(|regions|)) + RegionsBytes(regions)
  {
  }

  /** The loop of `writeSubChunk` that writes the regions one after another. */
  method AppendRegions(out: Bytes, regions: seq<BlockRegion>) returns (res: Bytes)
    ensures res == out + RegionsBytes(regions)
  {
    res := out;
    var i := 0;
    while i < |regions|
      invariant 0 <= i <= |regions|
      invariant res == out + RegionsBytes(regions[..i])
    {
      RegionsPrefix(regions, i);
      Assoc(out, RegionsBytes(regions[..i]), RegionBytes(regions[i]));
      res := res + RegionBytes(regions[i]);
      i := i + 1;
    }
    assert regions[..i] == regions;
  }

  lemma {:induction false} RegionsPrefix(regions: seq<BlockRegion>, i: nat)
    requires i < |regions|
    ensures RegionsBytes(regions[..i + 1]) == RegionsBytes(regions[..i]) + RegionBytes(regions[i])
  {
    assert regions[..i + 1][..i] == regions[..i];
  }

  /** `writeSubChunk(ofs, regions, originY)`. */
  method WriteSubChunk(out: Bytes, regions: seq<BlockRegion>, originY: Coord) returns (res: Bytes)
    ensures res == out + SubChunkRecord(regions, originY)
    ensures |res| == |out| + 14 + 16 * |regions|
  {
    res := WriteRecord(out, WriteI16(originY), regions);
  }

  /** The three-origin `writeSubChunk` the latest writer calls. */
  method WriteSubChunk3(out: Bytes, regions: seq<BlockRegion>, o: SubChunkOrigin) returns (res: Bytes)
    ensures res == out + SubChunkRecord3(regions, o)
    ensures |res| == |out| + 18 + 16 * |regions|
  {
    res := WriteRecord(out, WriteI16(o.originX) + WriteI16(o.originY) + WriteI16(o.originZ), regions);
  }

  // ---------------------------------------------------------------------------
  // Reading

  function ReadRegion(s: Bytes, pos: nat): (r: Option<(BlockRegion, nat)>)
    ensures r.Some? ==> r.value.1 == pos + 16
  {
    match ReadU32(s, pos)
    case None => None
    case Some((pid, p1)) =>
      match ReadCell(s, p1)
      case None => None
      case Some((x1, y1, z1, p2)) =>
        match ReadCell(s, p2)
        case None => None
        case Some((x2, y2, z2, p3)) => Some((BlockRegion(pid, x1, y1, z1, x2, y2, z2), p3))
  }

  lemma {:induction false} ReadRegionAt(s: Bytes, pos: nat, r: BlockRegion)
    requires pos + 16 <= |s| && s[pos..pos + 16] == RegionBytes(r)
    ensures ReadRegion(s, pos) == Some((r, pos + 16))
  {
    Slice3(WriteU32(r.paletteId), WriteCell(r.x1, r.y1, r.z1), WriteCell(r.x2, r.y2, r.z2));
    SliceOfSlice(s, pos, 16, 0, 4);
    SliceOfSlice(s, pos, 16, 4, 10);
    SliceOfSlice(s, pos, 16, 10, 16);
    ReadU32At(s, pos, r.paletteId);
    ReadCellAt(s, pos + 4, r.x1, r.y1, r.z1);
    ReadCellAt(s, pos + 10, r.x2, r.y2, r.z2);
  }

  function RegionReader(s: Bytes): (read: nat -> Option<(BlockRegion, nat)>) {
    (p: nat) => ReadRegion(s, p)
  }

  /** `n` regions from `pos`, each 16 bytes. */
  function ReadRegions(s: Bytes, pos: nat, n: nat): (r: Option<(seq<BlockRegion>, nat)>)
    ensures r.Some? ==> |r.value.0| == n && r.value.1 == pos + 16 * n
  {
    ReadManyFixed(RegionReader(s), pos, n, 16);
    ReadMany(RegionReader(s), pos, n)
  }

  /** The regions of a run, one chunk each. */
  function RegionChunks(rs: seq<BlockRegion>): (r: seq<Bytes>)
    ensures |r| == |rs| && forall j :: 0 <= j < |rs| ==> r[j] == RegionBytes(rs[j])
  {
    seq(|rs|, j requires 0 <= j < |rs| => RegionBytes(rs[j]))
  }

  lemma {:induction false} RegionsFlatten(rs: seq<BlockRegion>)
    ensures RegionsBytes(rs) == Flatten(RegionChunks(rs))
    decreases |rs|
  {
    if rs != [] {
      var init := rs[..|rs| - 1];
      RegionsFlatten(init);
      assert RegionChunks(rs) == RegionChunks(init) + [RegionBytes(rs[|rs| - 1])];
      FlattenSnoc(RegionChunks(init), RegionBytes(rs[|rs| - 1]));
    } else {
      assert RegionChunks(rs) == [];
    }
  }

  lemma {:induction false} RegionsRead(s: Bytes, rs: seq<BlockRegion>)
    ensures forall p: nat, j {:trigger HasAt(s, p, RegionChunks(rs)[j])} :: 0 <= j < |rs| && HasAt(s, p, RegionChunks(rs)[j])
              ==> ReadRegion(s, p) == Some((rs[j], p + |RegionChunks(rs)[j]|))
  {
    forall p: nat, j | 0 <= j < |rs| && HasAt(s, p, RegionChunks(rs)[j])
      ensures ReadRegion(s, p) == Some((rs[j], p + |RegionChunks(rs)[j]|))
    {
      ReadRegionAt(s, p, rs[j]);
    }
  }

  lemma {:induction false} RegionsDecode(s: Bytes, rs: seq<BlockRegion>)
    ensures Decodes(RegionReader(s), s, RegionChunks(rs), rs)
  {
    RegionsRead(s, rs);
  }

  /** A run of regions is read back as written, wherever it lies. */
  lemma {:induction false} ReadRegionsAt(s: Bytes, pos: nat, rs: seq<BlockRegion>, end: nat)
    requires end == pos + 16 * |rs| && end <= |s| && s[pos..pos + 16 * |rs|] == RegionsBytes(rs)
    ensures ReadRegions(s, pos, |rs|) == Some((rs, end))
  {
    RegionsFlatten(rs);
    RegionsDecode(s, rs);
    ReadRegionsOf(s, pos, rs, Flatten(RegionChunks(rs)), end);
  }

  lemma {:induction false} ReadRegionsOf(s: Bytes, pos: nat, rs: seq<BlockRegion>, t: Bytes, end: nat)
    requires t == Flatten(RegionChunks(rs)) && end == pos + |t|
    requires end <= |s| && s[pos..end] == t
    requires Decodes(RegionReader(s), s, RegionChunks(rs), rs)
    ensures ReadRegions(s, pos, |rs|) == Some((rs, end))
  {
    ReadManyTo(RegionReader(s), s, pos, RegionChunks(rs), rs, end);
    ReadRegionsIs(s, pos, |rs|, Some((rs, end)));
  }

  lemma {:induction false} ReadRegionsIs(s: Bytes, pos: nat, n: nat, r: Option<(seq<BlockRegion>, nat)>)
    requires ReadMany(RegionReader(s), pos, n) == r
    ensures ReadRegions(s, pos, n) == r
  {
  }

  /** The decoded fields of a record: size, originY, regions, next cursor. */
  datatype SubChunk = SubChunk(size: U64, originY: Coord, regions: seq<BlockRegion>)

  /** The record at `pos`: size, originY and count, then that many regions. */
  function ParseSubChunk(s: Bytes, pos: nat): (r: Option<(SubChunk, nat)>)
    ensures r.Some? ==> r.value.1 == pos + 14 + 16 * |r.value.0.regions|
  {
    match ReadU64(s, pos)
    case None => None
    case Some((size, p1)) =>
      match ReadI16(s, p1)
      case None => None
      case Some((y, p2)) =>
        match ReadU32(s, p2)
        case None => None
        case Some((n, p3)) =>
          match ReadRegions(s, p3, n)
          case None => None
          case Some((rs, p4)) => Some((SubChunk(size, y, rs), p4))
  }

  /** `readSubChunk`: the header fields, then the regions. */
  method ReadSubChunk(s: Bytes, pos: nat) returns (r: Option<(SubChunk, nat)>)
    ensures r == ParseSubChunk(s, pos)
  {
    var h1 := ReadU64(s, pos);
    if h1.None? { return None; }
    var h2 := ReadI16(s, pos + 8);
    if h2.None? { return None; }
    var h3 := ReadU32(s, pos + 10);
    if h3.None? { return None; }
    var rs := ReadRegionList(s, pos + 14, h3.value.0);
    if rs.None? { return None; }
    return Some((SubChunk(h1.value.0, h2.value.0, rs.value.0), rs.value.1));
  }

  /** The loop of `readSubChunk` that reads `count` regions one by one. */
  method ReadRegionList(s: Bytes, pos: nat, count: nat) returns (r: Option<(seq<BlockRegion>, nat)>)
    ensures r == ReadRegions(s, pos, count)
  {
    var regions: seq<BlockRegion> := [];
    var cursor := pos;
    var i := 0;
    while i < count
      invariant 0 <= i <= count
      invariant ReadMany(RegionReader(s), pos, i) == Some((regions, cursor))
    {
      var next := ReadRegion(s, cursor);
      if next.None? {
        ReadManyStops(RegionReader(s), pos, i, count, regions, cursor);
        return None;
      }
      ReadManyStep(RegionReader(s), pos, i, regions, cursor, next.value.0, next.value.1);
      regions := regions + [next.value.0];
      cursor := next.value.1;
      i := i + 1;
    }
    return Some((regions, cursor));
  }

  /** Reading back a written record of length `len` gives its originY and
      regions, a size field equal to `len`, and the cursor at the record end. */
  lemma {:induction false} ReadSubChunkAt(s: Bytes, pos: nat, len: nat, regions: seq<BlockRegion>, originY: Coord)
    requires |regions| < 0x1_0000_0000 && len == 14 + 16 * |regions|
    requires pos + len <= |s| && s[pos..pos + len] == SubChunkRecord(regions, originY)
    ensures ParseSubChunk(s, pos) == Some((SubChunk(len, originY, regions), pos + len))
  {
    SubChunkFieldsAt(s, pos, len, regions, originY);
    ParseSubChunkIs(s, pos, len, originY, regions);
  }

  /** ParseSubChunk in terms of the reads it is made of. */
  lemma {:induction false} ParseSubChunkIs(s: Bytes, pos: nat, len: U64, originY: Coord, regions: seq<BlockRegion>)
    requires |regions| < 0x1_0000_0000 && len == 14 + 16 * |regions|
    requires ReadU64(s, pos) == Some((len, pos + 8))
    requires ReadI16(s, pos + 8) == Some((originY, pos + 10))
    requires ReadU32(s, pos + 10) == Some((|regions|, pos + 14))
    requires pos + len <= |s| && s[pos + 14..pos + 14 + 16 * |regions|] == RegionsBytes(regions)
    ensures ParseSubChunk(s, pos) == Some((SubChunk(len, originY, regions), pos + len))
  {
    ReadRegionsAt(s, pos + 14, regions, pos + len);
  }

  /** The fixed fields of a record, and where its regions sit. */
  lemma {:induction false} SubChunkFieldsAt(s: Bytes, pos: nat, len: nat, regions: seq<BlockRegion>, originY: Coord)
    requires |regions| < 0x1_0000_0000 && len == 14 + 16 * |regions|
    requires pos + len <= |s| && s[pos..pos + len] == SubChunkRecord(regions, originY)
    ensures ReadU64(s, pos) == Some((len, pos + 8))
    ensures ReadI16(s, pos + 8) == Some((originY, pos + 10))
    ensures ReadU32(s, pos + 10) == Some((|regions|, pos + 14))
    ensures s[pos + 14..pos + 14 + 16 * |regions|] == RegionsBytes(regions)
  {
    SubChunkRecordParts(regions, originY);
    RecordFieldsAt(s, pos, len, WriteU64(len), WriteI16(originY), WriteU32(|regions|), RegionsBytes(regions));
    ReadU64At(s, pos, len);
    ReadI16At(s, pos + 8, originY);
    ReadU32At(s, pos + 10, |regions|);
    SliceEq(s, pos + 14, pos + len, pos + 14 + 16 * |regions|);
  }

  lemma {:induction false} SubChunkRecordParts(regions: seq<BlockRegion>, originY: Coord)
    requires |regions| < 0x1_0000_0000
    ensures SubChunkRecord(regions, originY)
      == WriteU64(14 + 16 * |regions|) + WriteI16(originY) + WriteU32(|regions|) + RegionsBytes(regions)
  {
    assert WrapU64(14 + 16 * |regions|) == 14 + 16 * |regions|;
    assert WrapU32(|regions|) == |regions|;
  }

  /** Where the four parts of a record of length `len` sit inside a stream
      holding it at `pos`. */
  lemma {:induction false} RecordFieldsAt(s: Bytes, pos: nat, len: nat, w0: Bytes, w1: Bytes, w2: Bytes, w3: Bytes)
    requires |w0| == 8 && |w1| == 2 && |w2| == 4 && 14 + |w3| == len
    requires pos + len <= |s| && s[pos..pos + len] == w0 + w1 + w2 + w3
    ensures s[pos..pos + 8] == w0 && s[pos + 8..pos + 10] == w1 && s[pos + 10..pos + 14] == w2
    ensures s[pos + 14..pos + len] == w3
  {
    var t := s[pos..pos + len];
    Slice4(w0, w1, w2, w3);
    assert t[0..8] == w0 && t[8..10] == w1 && t[10..14] == w2 && t[14..len] == w3;
    SliceOfSlice(s, pos, len, 0, 8);
    SliceOfSlice(s, pos, len, 8, 10);
    SliceOfSlice(s, pos, len, 10, 14);
    SliceOfSlice(s, pos, len, 14, len);
  }

  /** The decoded fields of a record with the three-coordinate origin. */
  datatype SubChunk3 = SubChunk3(size: U64, origin: SubChunkOrigin, regions: seq<BlockRegion>)

  /** The record at `pos` in the three-coordinate layout: size, originX,
      originY, originZ and count, then that many regions. */
  function ParseSubChunk3(s: Bytes, pos: nat): (r: Option<(SubChunk3, nat)>)
    ensures r.Some? ==> r.value.1 == pos + 18 + 16 * |r.value.0.regions|
  {
    match ReadU64(s, pos)
    case None => None
    case Some((size, p1)) =>
      match ReadI16(s, p1)
      case None => None
      case Some((x, p2)) =>
        match ReadI16(s, p2)
        case None => None
        case Some((y, p3)) =>
          match ReadI16(s, p3)
          case None => None
          case Some((z, p4)) =>
            match ReadU32(s, p4)
            case None => None
            case Some((n, p5)) =>
              match ReadRegions(s, p5, n)
              case None => None
              case Some((rs, p6)) => Some((SubChunk3(size, SubChunkOrigin(x, y, z), rs), p6))
  }

  /** Reading back a written three-coordinate record of length `len` gives
      its origin and regions, a size field equal to `len`, and the cursor at
      the record end. */
  lemma {:induction false} ReadSubChunk3At(s: Bytes, pos: nat, len: nat, regions: seq<BlockRegion>, o: SubChunkOrigin)
    requires |regions| < 0x1_0000_0000 && len == 18 + 16 * |regions|
    requires pos + len <= |s| && s[pos..pos + len] == SubChunkRecord3(regions, o)
    ensures ParseSubChunk3(s, pos) == Some((SubChunk3(len, o, regions), pos + len))
  {
    SubChunk3FieldsAt(s, pos, len, regions, o);
    ParseSubChunk3Is(s, pos, len, o, regions);
  }

  lemma {:induction false} ParseSubChunk3Is(s: Bytes, pos: nat, len: U64, o: SubChunkOrigin, regions: seq<BlockRegion>)
    requires |regions| < 0x1_0000_0000 && len == 18 + 16 * |regions|
    requires ReadU64(s, pos) == Some((len, pos + 8))
    requires ReadI16(s, pos + 8) == Some((o.originX, pos + 10))
    requires ReadI16(s, pos + 10) == Some((o.originY, pos + 12))
    requires ReadI16(s, pos + 12) == Some((o.originZ, pos + 14))
    requires ReadU32(s, pos + 14) == Some((|regions|, pos + 18))
    requires pos + len <= |s| && s[pos + 18..pos + 18 + 16 * |regions|] == RegionsBytes(regions)
    ensures ParseSubChunk3(s, pos) == Some((SubChunk3(len, o, regions), pos + len))
  {
    ReadRegionsAt(s, pos + 18, regions, pos + len);
  }

  /** The fixed fields of a three-coordinate record, and where its regions sit. */
  lemma {:induction false} SubChunk3FieldsAt(s: Bytes, pos: nat, len: nat, regions: seq<BlockRegion>, o: SubChunkOrigin)
    requires |regions| < 0x1_0000_0000 && len == 18 + 16 * |regions|
    requires pos + len <= |s| && s[pos..pos + len] == SubChunkRecord3(regions, o)
    ensures ReadU64(s, pos) == Some((len, pos + 8))
    ensures ReadI16(s, pos + 8) == Some((o.originX, pos + 10))
    ensures ReadI16(s, pos + 10) == Some((o.originY, pos + 12))
    ensures ReadI16(s, pos + 12) == Some((o.originZ, pos + 14))
    ensures ReadU32(s, pos + 14) == Some((|regions|, pos + 18))
    ensures s[pos + 18..pos + 18 + 16 * |regions|] == RegionsBytes(regions)
  {
    var ox, oy, oz := WriteI16(o.originX), WriteI16(o.originY), WriteI16(o.originZ);
    SubChunkRecord3Parts(regions, o);
    Record3FieldsAt(s, pos, len, WriteU64(len), ox + oy + oz, WriteU32(|regions|), RegionsBytes(regions));
    OriginFieldsAt(s, pos + 8, ox, oy, oz);
    ReadU64At(s, pos, len);
    ReadI16At(s, pos + 8, o.originX);
    ReadI16At(s, pos + 10, o.originY);
    ReadI16At(s, pos + 12, o.originZ);
    ReadU32At(s, pos + 14, |regions|);
    SliceEq(s, pos + 18, pos + len, pos + 18 + 16 * |regions|);
  }

  lemma {:induction false} SubChunkRecord3Parts(regions: seq<BlockRegion>, o: SubChunkOrigin)
    requires |regions| < 0x1_0000_0000
    ensures SubChunkRecord3(regions, o)
      == WriteU64(18 + 16 * |regions|) + (WriteI16(o.originX) + WriteI16(o.originY) + WriteI16(o.originZ))
         + WriteU32(|regions|) + RegionsBytes(regions)
  {
    assert WrapU64(18 + 16 * |regions|) == 18 + 16 * |regions|;
    assert WrapU32(|regions|) == |regions|;
  }

  /** RecordFieldsAt for a six-byte origin part. */
  lemma {:induction false} Record3FieldsAt(s: Bytes, pos: nat, len: nat, w0: Bytes, w1: Bytes, w2: Bytes, w3: Bytes)
    requires |w0| == 8 && |w1| == 6 && |w2| == 4 && 18 + |w3| == len
    requires pos + len <= |s| && s[pos..pos + len] == w0 + w1 + w2 + w3
    ensures s[pos..pos + 8] == w0 && s[pos + 8..pos + 14] == w1 && s[pos + 14..pos + 18] == w2
    ensures s[pos + 18..pos + len] == w3
  {
    var t := s[pos..pos + len];
    Slice4(w0, w1, w2, w3);
    assert t[0..8] == w0 && t[8..14] == w1 && t[14..18] == w2 && t[18..len] == w3;
    SliceOfSlice(s, pos, len, 0, 8);
    SliceOfSlice(s, pos, len, 8, 14);
    SliceOfSlice(s, pos, len, 14, 18);
    SliceOfSlice(s, pos, len, 18, len);
  }

  /** The three coordinates inside a six-byte origin part. */
  lemma {:induction false} OriginFieldsAt(s: Bytes, p: nat, a: Bytes, b: Bytes, c: Bytes)
    requires |a| == 2 && |b| == 2 && |c| == 2
    requires p + 6 <= |s| && s[p..p + 6] == a + b + c
    ensures s[p..p + 2] == a && s[p + 2..p + 4] == b && s[p + 4..p + 6] == c
  {
    var t := s[p..p + 6];
    assert t[0..2] == a && t[2..4] == b && t[4..6] == c;
    SliceOfSlice(s, p, 6, 0, 2);
    SliceOfSlice(s, p, 6, 2, 4);
    SliceOfSlice(s, p, 6, 4, 6);
  }

  // ---------------------------------------------------------------------------
  // getPaletteId

  predicate HasCell(g: BlockGroup, x: int, y: int, z: int)
    requires g.Indexable()
  {
    exists i :: 0 <= i < g.count as int && g.x[i] == x && g.y[i] == y && g.z[i] == z
  }

  function FindCell(g: BlockGroup, x: int, y: int, z: int, i: nat): (found: bool)
    requires g.Indexable() && i <= g.count as int
    ensures found <==> exists j :: i <= j < g.count as int && g.x[j] == x && g.y[j] == y && g.z[j] == z
    decreases g.count as int - i
  {
    if i == g.count as int then false
    else if g.x[i] == x && g.y[i] == y && g.z[i] == z then true
    else FindCell(g, x, y, z, i + 1)
  }

  /** `getPaletteId`: the id of the first group, in list order, holding the
      cell; `(PaletteID)-1` when none does. */
  function GetPaletteId(groups: seq<BlockGroup>, x: int, y: int, z: int): (r: PaletteId)
    requires forall i :: 0 <= i < |groups| ==> groups[i].Indexable()
    ensures (forall i :: 0 <= i < |groups| ==> !HasCell(groups[i], x, y, z)) ==> r == NoPalette
    ensures forall i :: (0 <= i < |groups| && HasCell(groups[i], x, y, z)
              && (forall j :: 0 <= j < i ==> !HasCell(groups[j], x, y, z))) ==> r == groups[i].paletteId
  {
    if groups == [] then NoPalette
    else if FindCell(groups[0], x, y, z, 0) then groups[0].paletteId
    else
      var r := GetPaletteId(groups[1..], x, y, z);
      assert forall i :: 1 <= i < |groups| ==> groups[1..][i - 1] == groups[i];
      r
  }
}

/** BCFStreamReader.hpp and BCFReader.hpp: opening a container, loading its
    tables, and listing the blocks of one sub-chunk with their type names and
    state texts. The stream reader keeps the sub-chunk offsets and reads a
    record only when asked for it; the plain reader reads the records one
    after another right behind the header. Neither changes anything once
    constructed, so both are values here. */
module Readers {
  import opened Wrappers
  import opened LittleEndian
  import opened Structs
  import opened Records
  import opened Tables
  import opened SubChunks
  import opened Container
  import opened StringCodec
  import BcfUtils

  // ---------------------------------------------------------------------------
  // The tables both readers load

  /** The palette and the two name maps, from the tables the header points at. */
  datatype Catalog = Catalog(palette: seq<PaletteKey>, typeMap: map<nat, Bytes>, stateMap: map<nat, Bytes>)

  /** The palette (entries without payload), then the type map with 2-byte
      ids, then the state-name map with 1-byte ids, each from its offset; a
      read past the end fails. */
  function LoadCatalog(s: Bytes, h: Header): Result<Catalog> {
    match ReadPalette(s, h.paletteOffset, false)
    case None => Err("truncated palette")
    case Some((palette, _)) =>
      match ReadDict(s, h.blockTypeMapOffset, 2)
      case None => Err("truncated block type map")
      case Some((types, _)) =>
        match ReadDict(s, h.stateNameMapOffset, 1)
        case None => Err("truncated state name map")
        case Some((states, _)) => Ok(Catalog(palette, types, states))
  }

  /** The three table loops of both constructors. */
  method ReadCatalog(s: Bytes, h: Header) returns (r: Result<Catalog>)
    ensures r == LoadCatalog(s, h)
  {
    var palette := ReadPaletteLoop(s, h.paletteOffset);
    if palette.None? { return Err("truncated palette"); }
    var types := ReadDictLoop(s, h.blockTypeMapOffset, 2);
    if types.None? { return Err("truncated block type map"); }
    var states := ReadDictLoop(s, h.stateNameMapOffset, 1);
    if states.None? { return Err("truncated state name map"); }
    return Ok(Catalog(palette.value.0, types.value.0, states.value.0));
  }

  // ---------------------------------------------------------------------------
  // Listing the blocks of a sub-chunk

  type Pos = (Coord, Coord, Coord)

  /** The number of integers in `lo..hi`. */
  function Span(lo: int, hi: int): nat {
    if hi < lo then 0 else hi - lo + 1
  }

  /** The cells `(x, y, lo..hi)`, by increasing z. */
  function Run(x: Coord, y: Coord, lo: int, hi: int): seq<Pos>
    requires -0x8000 <= lo && hi <= 0x7FFF
    decreases Span(lo, hi)
  {
    if hi < lo then [] else Run(x, y, lo, hi - 1) + [(x, y, hi)]
  }

  /** The cells `(x, ylo..yhi, zlo..zhi)`, by increasing y, then z. */
  function Plane(x: Coord, ylo: int, yhi: int, zlo: int, zhi: int): seq<Pos>
    requires -0x8000 <= ylo && yhi <= 0x7FFF && -0x8000 <= zlo && zhi <= 0x7FFF
    decreases Span(ylo, yhi)
  {
    if yhi < ylo then [] else Plane(x, ylo, yhi - 1, zlo, zhi) + Run(x, yhi, zlo, zhi)
  }

  /** The cells of the box `xlo..xhi` by `ylo..yhi` by `zlo..zhi`, by
      increasing x, then y, then z. */
  function Box(xlo: int, xhi: int, ylo: int, yhi: int, zlo: int, zhi: int): seq<Pos>
    requires -0x8000 <= xlo && xhi <= 0x7FFF
    requires -0x8000 <= ylo && yhi <= 0x7FFF && -0x8000 <= zlo && zhi <= 0x7FFF
    decreases Span(xlo, xhi)
  {
    if xhi < xlo then [] else Box(xlo, xhi - 1, ylo, yhi, zlo, zhi) + Plane(xhi, ylo, yhi, zlo, zhi)
  }

  /** A run holds exactly the cells of its z range, once each. */
  lemma {:induction false} RunCells(x: Coord, y: Coord, lo: int, hi: int)
    requires -0x8000 <= lo && hi <= 0x7FFF
    ensures |Run(x, y, lo, hi)| == Span(lo, hi)
    ensures forall c :: c in Run(x, y, lo, hi) <==> c.0 == x && c.1 == y && lo <= c.2 <= hi
    decreases Span(lo, hi)
  {
    if lo <= hi {
      RunCells(x, y, lo, hi - 1);
    }
  }

  /** A plane holds exactly the cells of its y and z ranges. */
  lemma {:induction false} PlaneHas(x: Coord, ylo: int, yhi: int, zlo: int, zhi: int)
    requires -0x8000 <= ylo && yhi <= 0x7FFF && -0x8000 <= zlo && zhi <= 0x7FFF
    ensures forall c :: c in Plane(x, ylo, yhi, zlo, zhi) <==> c.0 == x && ylo <= c.1 <= yhi && zlo <= c.2 <= zhi
    decreases Span(ylo, yhi)
  {
    if ylo <= yhi {
      PlaneHas(x, ylo, yhi - 1, zlo, zhi);
      RunCells(x, yhi, zlo, zhi);
    }
  }

  /** A plane holds one cell per pair of its y and z ranges. */
  lemma {:induction false} PlaneSize(x: Coord, ylo: int, yhi: int, zlo: int, zhi: int)
    requires -0x8000 <= ylo && yhi <= 0x7FFF && -0x8000 <= zlo && zhi <= 0x7FFF
    ensures |Plane(x, ylo, yhi, zlo, zhi)| == Span(ylo, yhi) * Span(zlo, zhi)
    decreases Span(ylo, yhi)
  {
    if ylo <= yhi {
      PlaneSize(x, ylo, yhi - 1, zlo, zhi);
      RunCells(x, yhi, zlo, zhi);
      MulSucc(Span(ylo, yhi - 1), Span(zlo, zhi));
    }
  }

  lemma {:induction false} MulSucc(a: nat, b: nat)
    ensures (a + 1) * b == a * b + b
  {
  }

  /** A box holds exactly the cells of its three ranges. */
  lemma {:induction false} BoxHas(xlo: int, xhi: int, ylo: int, yhi: int, zlo: int, zhi: int)
    requires -0x8000 <= xlo && xhi <= 0x7FFF
    requires -0x8000 <= ylo && yhi <= 0x7FFF && -0x8000 <= zlo && zhi <= 0x7FFF
    ensures forall c :: c in Box(xlo, xhi, ylo, yhi, zlo, zhi) <==> xlo <= c.0 <= xhi && ylo <= c.1 <= yhi && zlo <= c.2 <= zhi
    decreases Span(xlo, xhi)
  {
    if xlo <= xhi {
      BoxHas(xlo, xhi - 1, ylo, yhi, zlo, zhi);
      PlaneHas(xhi, ylo, yhi, zlo, zhi);
    }
  }

  /** A box holds one cell per triple of its three ranges. */
  lemma {:induction false} BoxSize(xlo: int, xhi: int, ylo: int, yhi: int, zlo: int, zhi: int)
    requires -0x8000 <= xlo && xhi <= 0x7FFF
    requires -0x8000 <= ylo && yhi <= 0x7FFF && -0x8000 <= zlo && zhi <= 0x7FFF
    ensures |Box(xlo, xhi, ylo, yhi, zlo, zhi)| == Span(xlo, xhi) * (Span(ylo, yhi) * Span(zlo, zhi))
    decreases Span(xlo, xhi)
  {
    if xlo <= xhi {
      BoxSize(xlo, xhi - 1, ylo, yhi, zlo, zhi);
      PlaneSize(xhi, ylo, yhi, zlo, zhi);
      MulSucc(Span(xlo, xhi - 1), Span(ylo, yhi) * Span(zlo, zhi));
    }
  }

  /** The cells a region covers. */
  function BoxCells(reg: BlockRegion): seq<Pos> {
    Box(reg.x1, reg.x2, reg.y1, reg.y2, reg.z1, reg.z2)
  }

  /** The cells of a region's box: none unless every lower corner coordinate
      is at most the upper one. */
  predicate InRegion(c: Pos, reg: BlockRegion) {
    reg.x1 <= c.0 <= reg.x2 && reg.y1 <= c.1 <= reg.y2 && reg.z1 <= c.2 <= reg.z2
  }

  predicate Ordered(reg: BlockRegion) {
    reg.x1 <= reg.x2 && reg.y1 <= reg.y2 && reg.z1 <= reg.z2
  }

  /** The number of cells of a region's box. */
  function Volume(reg: BlockRegion): nat {
    Span(reg.x1, reg.x2) * (Span(reg.y1, reg.y2) * Span(reg.z1, reg.z2))
  }

  /** The state pairs of a key as text: each name looked up in the state map
      and each value in decimal (`std::to_string`); `None` when an id has no
      name, where `map::at` throws. */
  function StateTexts(states: seq<StatePair>, stateMap: map<nat, Bytes>): (r: Option<seq<(Bytes, Bytes)>>)
    ensures r.Some? <==> forall j :: 0 <= j < |states| ==> states[j].0 in stateMap
    ensures r.Some? ==> |r.value| == |states|
    ensures r.Some? ==> forall j :: 0 <= j < |states| ==>
                          r.value[j] == (stateMap[states[j].0], BcfUtils.Decimal(states[j].1))
    decreases |states|
  {
    if states == [] then Some([])
    else
      var n := |states| - 1;
      match StateTexts(states[..n], stateMap)
      case None => None
      case Some(ts) =>
        if states[n].0 in stateMap then Some(ts + [(stateMap[states[n].0], BcfUtils.Decimal(states[n].1))])
        else None
  }

  /** The state loop of getBlocks. */
  method ListStates(states: seq<StatePair>, stateMap: map<nat, Bytes>) returns (r: Option<seq<(Bytes, Bytes)>>)
    ensures r == StateTexts(states, stateMap)
  {
    var ts: seq<(Bytes, Bytes)> := [];
    var j := 0;
    while j < |states|
      invariant 0 <= j <= |states|
      invariant StateTexts(states[..j], stateMap) == Some(ts)
    {
      assert states[..j + 1][..j] == states[..j];
      if states[j].0 !in stateMap {
        return None;
      }
      ts := ts + [(stateMap[states[j].0], BcfUtils.Decimal(states[j].1))];
      j := j + 1;
    }
    assert states[..j] == states;
    return Some(ts);
  }

  /** One block per cell, all with the same type name and states. */
  function Stamp(cells: seq<Pos>, name: Bytes, ts: seq<(Bytes, Bytes)>): (r: seq<BlockInfo>)
    ensures |r| == |cells|
    ensures forall i :: 0 <= i < |cells| ==> r[i] == BlockInfo(cells[i].0, cells[i].1, cells[i].2, name, ts)
  {
    seq(|cells|, i requires 0 <= i < |cells| => BlockInfo(cells[i].0, cells[i].1, cells[i].2, name, ts))
  }

  lemma {:induction false} StampAppend(a: seq<Pos>, b: seq<Pos>, name: Bytes, ts: seq<(Bytes, Bytes)>)
    ensures Stamp(a + b, name, ts) == Stamp(a, name, ts) + Stamp(b, name, ts)
  {
  }

  /** The blocks of one region: every cell of its box with the type name and
      state texts of its palette key. The palette index is not checked in the
      source (an id past the palette fails here); an unknown type id fails even
      for an empty box, an unknown state id only once there is a cell. */
  function RegionBlocks(reg: BlockRegion, c: Catalog): Result<seq<BlockInfo>> {
    if reg.paletteId as int >= |c.palette| then Err("palette id out of range")
    else
      var key := c.palette[reg.paletteId];
      if key.typeId !in c.typeMap then Err("unknown block type id")
      else if !Ordered(reg) then Ok([])
      else
        match StateTexts(key.states, c.stateMap)
        case None => Err("unknown state name id")
        case Some(ts) => Ok(Stamp(BoxCells(reg), c.typeMap[key.typeId], ts))
  }

  /** The blocks of the regions in order; the first failure fails the list. */
  function Blocks(regions: seq<BlockRegion>, c: Catalog): Result<seq<BlockInfo>>
    decreases |regions|
  {
    if regions == [] then Ok([])
    else
      match Blocks(regions[..|regions| - 1], c)
      case Err(e) => Err(e)
      case Ok(bs) =>
        match RegionBlocks(regions[|regions| - 1], c)
        case Err(e) => Err(e)
        case Ok(more) => Ok(bs + more)
  }

  /** A region getBlocks can list: its palette id is in the palette, its
      type id is named, and, when its box has a cell, so is every state id. */
  predicate Listable(reg: BlockRegion, c: Catalog) {
    && reg.paletteId as int < |c.palette|
    && c.palette[reg.paletteId].typeId in c.typeMap
    && (Ordered(reg) ==> forall j :: 0 <= j < |c.palette[reg.paletteId].states| ==>
                           c.palette[reg.paletteId].states[j].0 in c.stateMap)
  }

  /** A block listed for region `reg`: a cell of its box, with the type name
      and the state texts of its palette key. */
  ghost predicate ListedBy(b: BlockInfo, reg: BlockRegion, c: Catalog) {
    && Listable(reg, c)
    && InRegion((b.x, b.y, b.z), reg)
    && var key := c.palette[reg.paletteId];
       && b.typeName == c.typeMap[key.typeId]
       && StateTexts(key.states, c.stateMap) == Some(b.states)
  }

  /** One region lists exactly when it is listable, and then exactly the
      blocks of its cells, one per cell. */
  lemma {:induction false} RegionBlocksSpec(reg: BlockRegion, c: Catalog)
    ensures RegionBlocks(reg, c).Ok? <==> Listable(reg, c)
    ensures RegionBlocks(reg, c).Ok? ==> |RegionBlocks(reg, c).value| == Volume(reg)
    ensures RegionBlocks(reg, c).Ok? ==> forall b :: b in RegionBlocks(reg, c).value <==> ListedBy(b, reg, c)
  {
    BoxHas(reg.x1, reg.x2, reg.y1, reg.y2, reg.z1, reg.z2);
    BoxSize(reg.x1, reg.x2, reg.y1, reg.y2, reg.z1, reg.z2);
    if RegionBlocks(reg, c).Ok? && Ordered(reg) {
      var key := c.palette[reg.paletteId];
      var cells := BoxCells(reg);
      var bs := RegionBlocks(reg, c).value;
      forall b | b in bs
        ensures ListedBy(b, reg, c)
      {
        var i :| 0 <= i < |bs| && bs[i] == b;
        assert cells[i] in cells;
      }
      forall b | ListedBy(b, reg, c)
        ensures b in bs
      {
        assert (b.x, b.y, b.z) in cells;
        var i :| 0 <= i < |cells| && cells[i] == (b.x, b.y, b.z);
        assert bs[i] == b;
      }
    }
  }

  /** The blocks of all regions, counted. */
  function TotalVolume(regions: seq<BlockRegion>): nat
    decreases |regions|
  {
    if regions == [] then 0 else TotalVolume(regions[..|regions| - 1]) + Volume(regions[|regions| - 1])
  }

  /** getBlocks lists a sub-chunk exactly when every region is listable. */
  lemma {:induction false} BlocksOk(regions: seq<BlockRegion>, c: Catalog)
    ensures Blocks(regions, c).Ok? <==> forall k :: 0 <= k < |regions| ==> Listable(regions[k], c)
    decreases |regions|
  {
    if regions != [] {
      var n := |regions| - 1;
      var init := regions[..n];
      BlocksOk(init, c);
      RegionBlocksSpec(regions[n], c);
      assert forall k :: 0 <= k < n ==> init[k] == regions[k];
    }
  }

  /** getBlocks lists one block per cell of every region's box. */
  lemma {:induction false} BlocksCount(regions: seq<BlockRegion>, c: Catalog)
    ensures Blocks(regions, c).Ok? ==> |Blocks(regions, c).value| == TotalVolume(regions)
    decreases |regions|
  {
    if regions != [] {
      var n := |regions| - 1;
      BlocksCount(regions[..n], c);
      RegionBlocksSpec(regions[n], c);
    }
  }

  /** A block is listed exactly when some region of the sub-chunk lists it. */
  lemma {:induction false} BlocksListed(regions: seq<BlockRegion>, c: Catalog)
    ensures Blocks(regions, c).Ok? ==>
              forall b :: b in Blocks(regions, c).value <==> exists k :: 0 <= k < |regions| && ListedBy(b, regions[k], c)
    decreases |regions|
  {
    if regions != [] && Blocks(regions, c).Ok? {
      var n := |regions| - 1;
      var init := regions[..n];
      BlocksListed(init, c);
      RegionBlocksSpec(regions[n], c);
      var bs := Blocks(init, c).value;
      var more := RegionBlocks(regions[n], c).value;
      assert Blocks(regions, c).value == bs + more;
      forall b | b in bs + more
        ensures exists k :: 0 <= k < |regions| && ListedBy(b, regions[k], c)
      {
        if b in bs {
          var k :| 0 <= k < n && ListedBy(b, init[k], c);
          assert init[k] == regions[k];
        } else {
          assert ListedBy(b, regions[n], c);
        }
      }
      forall b | exists k :: 0 <= k < |regions| && ListedBy(b, regions[k], c)
        ensures b in bs + more
      {
        var k :| 0 <= k < |regions| && ListedBy(b, regions[k], c);
        if k < n {
          assert init[k] == regions[k];
        }
      }
    }
  }

  /** The z loop: the blocks of one run appended to `out`. */
  method StampRun(out: seq<BlockInfo>, x: Coord, y: Coord, lo: Coord, hi: Coord, name: Bytes,
                  ts: seq<(Bytes, Bytes)>) returns (r: seq<BlockInfo>)
    ensures r == out + Stamp(Run(x, y, lo, hi), name, ts)
  {
    r := out;
    var z: int := lo;
    while z <= hi
      invariant lo <= z <= hi + 1 || (hi < lo && z == lo)
      invariant r == out + Stamp(Run(x, y, lo, z - 1), name, ts)
      decreases hi - z
    {
      StampAppend(Run(x, y, lo, z - 1), [(x, y, z)], name, ts);
      r := r + [BlockInfo(x, y, z, name, ts)];
      z := z + 1;
    }
  }

  /** The y loop: the blocks of one plane appended to `out`. */
  method StampPlane(out: seq<BlockInfo>, x: Coord, ylo: Coord, yhi: Coord, zlo: Coord, zhi: Coord, name: Bytes,
                    ts: seq<(Bytes, Bytes)>) returns (r: seq<BlockInfo>)
    ensures r == out + Stamp(Plane(x, ylo, yhi, zlo, zhi), name, ts)
  {
    r := out;
    var y: int := ylo;
    while y <= yhi
      invariant ylo <= y <= yhi + 1 || (yhi < ylo && y == ylo)
      invariant r == out + Stamp(Plane(x, ylo, y - 1, zlo, zhi), name, ts)
      decreases yhi - y
    {
      var next := StampRun(r, x, y, zlo, zhi, name, ts);
      StampPlaneStep(out, r, next, x, ylo, y, zlo, zhi, name, ts);
      r := next;
      y := y + 1;
    }
  }

  /** One more run of a plane stamped. */
  lemma {:induction false} StampPlaneStep(out: seq<BlockInfo>, r: seq<BlockInfo>, next: seq<BlockInfo>, x: Coord,
                                          ylo: Coord, y: Coord, zlo: Coord, zhi: Coord, name: Bytes,
                                          ts: seq<(Bytes, Bytes)>)
    requires ylo <= y
    requires r == out + Stamp(Plane(x, ylo, y - 1, zlo, zhi), name, ts)
    requires next == r + Stamp(Run(x, y, zlo, zhi), name, ts)
    ensures next == out + Stamp(Plane(x, ylo, y, zlo, zhi), name, ts)
  {
    StampAppend(Plane(x, ylo, y - 1, zlo, zhi), Run(x, y, zlo, zhi), name, ts);
  }

  /** The x loop: the blocks of a region's box appended to `out`. */
  method StampBox(out: seq<BlockInfo>, reg: BlockRegion, name: Bytes, ts: seq<(Bytes, Bytes)>)
    returns (r: seq<BlockInfo>)
    ensures r == out + Stamp(BoxCells(reg), name, ts)
  {
    r := out;
    var x: int := reg.x1;
    while x <= reg.x2
      invariant reg.x1 <= x <= reg.x2 + 1 || (reg.x2 < reg.x1 && x == reg.x1)
      invariant r == out + Stamp(Box(reg.x1, x - 1, reg.y1, reg.y2, reg.z1, reg.z2), name, ts)
      decreases reg.x2 - x
    {
      var next := StampPlane(r, x, reg.y1, reg.y2, reg.z1, reg.z2, name, ts);
      StampBoxStep(out, r, next, reg, x, name, ts);
      r := next;
      x := x + 1;
    }
  }

  /** One more plane of a box stamped. */
  lemma {:induction false} StampBoxStep(out: seq<BlockInfo>, r: seq<BlockInfo>, next: seq<BlockInfo>, reg: BlockRegion,
                                        x: Coord, name: Bytes, ts: seq<(Bytes, Bytes)>)
    requires reg.x1 <= x
    requires r == out + Stamp(Box(reg.x1, x - 1, reg.y1, reg.y2, reg.z1, reg.z2), name, ts)
    requires next == r + Stamp(Plane(x, reg.y1, reg.y2, reg.z1, reg.z2), name, ts)
    ensures next == out + Stamp(Box(reg.x1, x, reg.y1, reg.y2, reg.z1, reg.z2), name, ts)
  {
    StampAppend(Box(reg.x1, x - 1, reg.y1, reg.y2, reg.z1, reg.z2), Plane(x, reg.y1, reg.y2, reg.z1, reg.z2), name, ts);
  }

  /** The blocks of one region more. */
  lemma {:induction false} BlocksSnoc(regions: seq<BlockRegion>, k: nat, c: Catalog)
    requires k < |regions|
    ensures Blocks(regions[..k + 1], c) == match Blocks(regions[..k], c)
                                          case Err(e) => Err(e)
                                          case Ok(bs) =>
                                            match RegionBlocks(regions[k], c)
                                            case Err(e) => Err(e)
                                            case Ok(more) => Ok(bs + more)
  {
    assert regions[..k + 1][..k] == regions[..k];
  }

  /** A failure among the first regions is the failure of them all. */
  lemma {:induction false} BlocksErrStays(regions: seq<BlockRegion>, k: nat, c: Catalog)
    requires k <= |regions| && Blocks(regions[..k], c).Err?
    ensures Blocks(regions, c) == Blocks(regions[..k], c)
    decreases |regions| - k
  {
    if k < |regions| {
      BlocksSnoc(regions, k, c);
      BlocksErrStays(regions, k + 1, c);
    } else {
      assert regions[..k] == regions;
    }
  }

  /** The region loop of getBlocks. */
  method ListRegion(reg: BlockRegion, c: Catalog, out: seq<BlockInfo>) returns (r: Result<seq<BlockInfo>>)
    ensures r == match RegionBlocks(reg, c)
                 case Err(e) => Err(e)
                 case Ok(more) => Ok(out + more)
  {
    if reg.paletteId as int >= |c.palette| { return Err("palette id out of range"); }
    var key := c.palette[reg.paletteId];
    if key.typeId !in c.typeMap { return Err("unknown block type id"); }
    if !Ordered(reg) {
      assert out + [] == out;
      return Ok(out);
    }
    var ts := ListStates(key.states, c.stateMap);
    if ts.None? { return Err("unknown state name id"); }
    var bs := StampBox(out, reg, c.typeMap[key.typeId], ts.value);
    return Ok(bs);
  }

  /** The loops of getBlocks over the regions of a sub-chunk. */
  method ListBlocks(regions: seq<BlockRegion>, c: Catalog) returns (r: Result<seq<BlockInfo>>)
    ensures r == Blocks(regions, c)
  {
    var out: seq<BlockInfo> := [];
    var k := 0;
    while k < |regions|
      invariant 0 <= k <= |regions|
      invariant Blocks(regions[..k], c) == Ok(out)
    {
      BlocksSnoc(regions, k, c);
      var next := ListRegion(regions[k], c, out);
      if next.Err? {
        BlocksErrStays(regions, k + 1, c);
        return next;
      }
      out := next.value;
      k := k + 1;
    }
    assert regions[..k] == regions;
    return Ok(out);
  }

  // ---------------------------------------------------------------------------
  // BCFStreamReader

  /** What a stream reader holds: the file it reopens for each sub-chunk, the
      header, the sub-chunk offsets and the catalog. */
  datatype Stream = Stream(file: Bytes, header: Header, offsets: seq<U64>, catalog: Catalog)

  /** The constructor: a file that cannot be opened, a truncated header, a
      version below 2 or a truncated table fails; otherwise the offsets and
      the catalog are loaded. */
  function OpenStream(file: Option<Bytes>): (r: Result<Stream>)
    ensures file.None? ==> r.Err?
    ensures r.Ok? ==> file.Some? && r.value.file == file.value
                      && ReadHeader(file.value, 0) == Some((r.value.header, HeaderSize))
                      && r.value.header.version >= 2
    ensures file.Some? && ReadHeader(file.value, 0).Some? && ReadHeader(file.value, 0).value.0.version < 2 ==> r.Err?
  {
    if file.None? then Err("Failed to open file")
    else
      match ReadHeader(file.value, 0)
      case None => Err("truncated header")
      case Some((h, _)) =>
        if h.version < 2 then Err("File version does not support streaming (version < 2)")
        else
          match ReadOffsetTable(file.value, h.subChunkOffsetsTableOffset)
          case None => Err("truncated offset table")
          case Some((offs, _)) =>
            match LoadCatalog(file.value, h)
            case Err(e) => Err(e)
            case Ok(c) => Ok(Stream(file.value, h, offs, c))
  }

  /** The constructor's reading, loop by loop. */
  method NewStreamReader(file: Option<Bytes>) returns (r: Result<Stream>)
    ensures r == OpenStream(file)
  {
    if file.None? { return Err("Failed to open file"); }
    var s := file.value;
    var h := ReadHeader(s, 0);
    if h.None? { return Err("truncated header"); }
    var header := h.value.0;
    if header.version < 2 { return Err("File version does not support streaming (version < 2)"); }
    var offs := ReadOffsetsLoop(s, header.subChunkOffsetsTableOffset);
    if offs.None? { return Err("truncated offset table"); }
    var c := ReadCatalog(s, header);
    if c.Err? { return Err(c.msg); }
    return Ok(Stream(s, header, offs.value.0, c.value));
  }

  /** getSubChunkCount: the number of offsets. */
  function StreamSubChunkCount(st: Stream): nat {
    |st.offsets|
  }

  /** getBlocks: nothing for an index past the offsets; otherwise the record
      at the index's offset, read from the file again, listed block by block. */
  function StreamBlocks(st: Stream, index: nat): Result<seq<BlockInfo>> {
    if index >= |st.offsets| then Ok([])
    else
      match ParseSubChunk(st.file, st.offsets[index])
      case None => Err("truncated sub-chunk")
      case Some((sc, _)) => Blocks(sc.regions, st.catalog)
  }

  method GetStreamBlocks(st: Stream, index: nat) returns (r: Result<seq<BlockInfo>>)
    ensures r == StreamBlocks(st, index)
  {
    if index >= |st.offsets| { return Ok([]); }
    var sc := ReadSubChunk(st.file, st.offsets[index]);
    if sc.None? { return Err("truncated sub-chunk"); }
    r := ListBlocks(sc.value.0.regions, st.catalog);
  }

  // ---------------------------------------------------------------------------
  // BCFReader

  /** What a reader holds: the header, the regions of every sub-chunk and the
      catalog. */
  datatype Loaded = Loaded(header: Header, subChunks: seq<seq<BlockRegion>>, catalog: Catalog)

  /** One record read for its regions. */
  function RegionsReader(s: Bytes): (read: nat -> Option<(seq<BlockRegion>, nat)>) {
    (p: nat) => RegionsAt(s, p)
  }

  function RegionsAt(s: Bytes, p: nat): (r: Option<(seq<BlockRegion>, nat)>) {
    match ParseSubChunk(s, p)
    case None => None
    case Some((sc, q)) => Some((sc.regions, q))
  }

  /** The constructor: a file that cannot be opened or a truncated header,
      record or table fails; otherwise `subChunkCount` records are read one
      after another from the end of the header, whatever the version. */
  function OpenFile(file: Option<Bytes>): (r: Result<Loaded>)
    ensures file.None? ==> r.Err?
    ensures r.Ok? ==> file.Some? && ReadHeader(file.value, 0) == Some((r.value.header, HeaderSize))
                      && |r.value.subChunks| == r.value.header.subChunkCount as int
  {
    if file.None? then Err("Failed to open file")
    else
      match ReadHeader(file.value, 0)
      case None => Err("truncated header")
      case Some((h, _)) =>
        match ReadMany(RegionsReader(file.value), HeaderSize, h.subChunkCount)
        case None => Err("truncated sub-chunk")
        case Some((subs, _)) =>
          match LoadCatalog(file.value, h)
          case Err(e) => Err(e)
          case Ok(c) => Ok(Loaded(h, subs, c))
  }

  /** One record, read for its regions. */
  method ReadRecord(s: Bytes, p: nat) returns (r: Option<(seq<BlockRegion>, nat)>)
    ensures r == RegionsReader(s)(p)
  {
    var sc := ReadSubChunk(s, p);
    if sc.None? { return None; }
    return Some((sc.value.0.regions, sc.value.1));
  }

  /** The loop of the constructor over the records. */
  method ReadRecords(s: Bytes, count: nat) returns (r: Option<(seq<seq<BlockRegion>>, nat)>)
    ensures r == ReadMany(RegionsReader(s), HeaderSize, count)
  {
    var subs: seq<seq<BlockRegion>> := [];
    var cursor := HeaderSize;
    var i := 0;
    while i < count
      invariant 0 <= i <= count
      invariant ReadMany(RegionsReader(s), HeaderSize, i) == Some((subs, cursor))
    {
      var next := ReadRecord(s, cursor);
      if next.None? {
        ReadManyStops(RegionsReader(s), HeaderSize, i, count, subs, cursor);
        return None;
      }
      ReadManyStep(RegionsReader(s), HeaderSize, i, subs, cursor, next.value.0, next.value.1);
      subs := subs + [next.value.0];
      cursor := next.value.1;
      i := i + 1;
    }
    return Some((subs, cursor));
  }

  method NewReader(file: Option<Bytes>) returns (r: Result<Loaded>)
    ensures r == OpenFile(file)
  {
    if file.None? { return Err("Failed to open file"); }
    var s := file.value;
    var h := ReadHeader(s, 0);
    if h.None? { return Err("truncated header"); }
    var header := h.value.0;
    var subs := ReadRecords(s, header.subChunkCount);
    if subs.None? { return Err("truncated sub-chunk"); }
    var c := ReadCatalog(s, header);
    if c.Err? { return Err(c.msg); }
    return Ok(Loaded(header, subs.value.0, c.value));
  }

  /** getSubChunkCount: the number of records read. */
  function SubChunkCount(l: Loaded): nat {
    |l.subChunks|
  }

  /** getBlocks: nothing for an index past the records, otherwise the blocks
      of that sub-chunk. */
  function LoadedBlocks(l: Loaded, index: nat): Result<seq<BlockInfo>> {
    if index >= |l.subChunks| then Ok([]) else Blocks(l.subChunks[index], l.catalog)
  }

  method GetBlocks(l: Loaded, index: nat) returns (r: Result<seq<BlockInfo>>)
    ensures r == LoadedBlocks(l, index)
  {
    if index >= |l.subChunks| { return Ok([]); }
    r := ListBlocks(l.subChunks[index], l.catalog);
  }

  // ---------------------------------------------------------------------------
  // Reading back what BCFUtils::writeBCF writes

  /** What writeBCF can write and the readers can address: fewer than 2^64
      sub-chunks of fewer than 2^32 regions each, names of at most 65535
      bytes, fewer than 2^32 payload-free palette entries, a file shorter than
      2^64 bytes. */
  ghost predicate Readable(subChunks: seq<seq<BlockRegion>>, list: seq<PaletteKey>,
                           typeMap: map<BlockTypeId, Bytes>, stateMap: map<StateNameId, Bytes>) {
    && |subChunks| < 0x1_0000_0000_0000_0000
    && (forall i :: 0 <= i < |subChunks| ==> |subChunks[i]| < 0x1_0000_0000)
    && BcfUtils.Writable(BcfUtils.TypeEntries(typeMap)) && BcfUtils.Writable(BcfUtils.StateEntries(stateMap))
    && |list| < 0x1_0000_0000 && (forall j :: 0 <= j < |list| ==> Storable(list[j], false))
    && |BcfUtils.BcfFile(subChunks, list, typeMap, stateMap)| < 0x1_0000_0000_0000_0000
  }

  /** A record as written parses back as its regions. */
  lemma {:induction false} RegionsAtRecord(s: Bytes, p: nat, len: nat, regions: seq<BlockRegion>, originY: Coord)
    requires |regions| < 0x1_0000_0000 && len == 14 + 16 * |regions|
    requires p + len <= |s| && s[p..p + len] == SubChunkRecord(regions, originY)
    ensures RegionsAt(s, p) == Some((regions, p + len))
  {
    ReadSubChunkAt(s, p, len, regions, originY);
  }

  lemma {:induction false} RecordAt(s: Bytes, p: nat, len: nat, regions: seq<BlockRegion>, originY: Coord)
    requires |regions| < 0x1_0000_0000 && len == 14 + 16 * |regions|
    requires HasAt(s, p, SubChunkRecord(regions, originY))
    ensures RegionsAt(s, p) == Some((regions, p + len))
  {
    RegionsAtRecord(s, p, len, regions, originY);
  }

  /** A record as written decodes as its regions wherever it lies. */
  lemma {:induction false} RecordDecodes(s: Bytes, regions: seq<BlockRegion>, originY: Coord, rec: Bytes)
    requires |regions| < 0x1_0000_0000 && rec == SubChunkRecord(regions, originY)
    ensures DecodesOne(RegionsReader(s), s, rec, regions)
  {
    forall p: nat | HasAt(s, p, rec)
      ensures RegionsReader(s)(p) == Some((regions, p + |rec|))
    {
      RecordParse(s, p, regions, originY, rec);
    }
  }

  lemma {:induction false} RecordParse(s: Bytes, p: nat, regions: seq<BlockRegion>, originY: Coord, rec: Bytes)
    requires |regions| < 0x1_0000_0000 && rec == SubChunkRecord(regions, originY) && HasAt(s, p, rec)
    ensures RegionsReader(s)(p) == Some((regions, p + |rec|))
  {
    RecordAt(s, p, |rec|, regions, originY);
  }

  lemma {:induction false} RecordsDecode(s: Bytes, subChunks: seq<seq<BlockRegion>>)
    requires forall i :: 0 <= i < |subChunks| ==> |subChunks[i]| < 0x1_0000_0000
    ensures Decodes(RegionsReader(s), s, BcfUtils.SubChunkRecords(subChunks), subChunks)
  {
    var recs := BcfUtils.SubChunkRecords(subChunks);
    forall j | 0 <= j < |subChunks|
      ensures DecodesOne(RegionsReader(s), s, recs[j], subChunks[j])
    {
      RecordDecodes(s, subChunks[j], WrapI16(j * 16), recs[j]);
    }
    DecodesEach(RegionsReader(s), s, recs, subChunks);
  }

  /** The catalog from tables that each read in full. */
  lemma {:induction false} CatalogOf(s: Bytes, h: Header, palette: seq<PaletteKey>, types: map<nat, Bytes>,
                                     states: map<nat, Bytes>, e1: nat, e2: nat, e3: nat)
    requires ReadPalette(s, h.paletteOffset, false) == Some((palette, e1))
    requires ReadDict(s, h.blockTypeMapOffset, 2) == Some((types, e2))
    requires ReadDict(s, h.stateNameMapOffset, 1) == Some((states, e3))
    ensures LoadCatalog(s, h) == Ok(Catalog(palette, types, states))
  {
  }

  /** A stream reader opens a file whose header (version 2 or later), offset
      table and catalog read. */
  lemma {:induction false} StreamOf(s: Bytes, h: Header, offs: seq<U64>, e: nat, c: Catalog)
    requires ReadHeader(s, 0) == Some((h, HeaderSize)) && h.version >= 2
    requires ReadOffsetTable(s, h.subChunkOffsetsTableOffset) == Some((offs, e))
    requires LoadCatalog(s, h) == Ok(c)
    ensures OpenStream(Some(s)) == Ok(Stream(s, h, offs, c))
  {
  }

  /** A reader opens a file whose header, records and catalog read. */
  lemma {:induction false} LoadedOf(s: Bytes, h: Header, subs: seq<seq<BlockRegion>>, e: nat, c: Catalog)
    requires ReadHeader(s, 0) == Some((h, HeaderSize))
    requires ReadMany(RegionsReader(s), HeaderSize, h.subChunkCount) == Some((subs, e))
    requires LoadCatalog(s, h) == Ok(c)
    ensures OpenFile(Some(s)) == Ok(Loaded(h, subs, c))
  {
  }

  /** The tables of what writeBCF wrote load as the palette without payloads
      and both name maps exactly. */
  lemma {:induction false} CatalogOfBcfFile(s: Bytes, subChunks: seq<seq<BlockRegion>>, list: seq<PaletteKey>,
                                            typeMap: map<BlockTypeId, Bytes>, stateMap: map<StateNameId, Bytes>)
    requires Readable(subChunks, list, typeMap, stateMap) && s == BcfUtils.BcfFile(subChunks, list, typeMap, stateMap)
    ensures ReadHeader(s, 0).Some?
    ensures LoadCatalog(s, ReadHeader(s, 0).value.0) == Ok(Catalog(Decoded(list, false), typeMap, stateMap))
  {
    BcfUtils.ReadBcfFile(s, subChunks, list, typeMap, stateMap);
    var h := BcfUtils.UtilsHeader(BcfUtils.SubChunkRecords(subChunks), BcfUtils.BcfTables(subChunks, list, typeMap, stateMap));
    CatalogOf(s, h, Decoded(list, false), typeMap, stateMap, h.blockTypeMapOffset as nat, h.stateNameMapOffset as nat, |s|);
  }

  /** getBlocks on a sub-chunk whose record is in place lists its regions. */
  lemma {:induction false} StreamRecord(st: Stream, i: nat, regions: seq<BlockRegion>, originY: Coord)
    requires i < |st.offsets| && |regions| < 0x1_0000_0000
    requires HasAt(st.file, st.offsets[i] as nat, SubChunkRecord(regions, originY))
    ensures StreamBlocks(st, i) == Blocks(regions, st.catalog)
  {
    var rec := SubChunkRecord(regions, originY);
    var len := |rec|;
    assert st.file[st.offsets[i]..st.offsets[i] as nat + len] == rec;
    ReadSubChunkAt(st.file, st.offsets[i] as nat, len, regions, originY);
  }

  /** The stream reader opens what writeBCF wrote: the offsets of the
      records, one per sub-chunk, and the catalog. */
  lemma {:induction false} StreamOfBcfFile(s: Bytes, subChunks: seq<seq<BlockRegion>>, list: seq<PaletteKey>,
                                           typeMap: map<BlockTypeId, Bytes>, stateMap: map<StateNameId, Bytes>)
    requires Readable(subChunks, list, typeMap, stateMap) && s == BcfUtils.BcfFile(subChunks, list, typeMap, stateMap)
    ensures var r := OpenStream(Some(s));
            && r.Ok? && r.value.file == s && r.value.offsets == RecordOffsets(BcfUtils.SubChunkRecords(subChunks))
            && r.value.catalog == Catalog(Decoded(list, false), typeMap, stateMap)
  {
    BcfUtils.ReadBcfFile(s, subChunks, list, typeMap, stateMap);
    CatalogOfBcfFile(s, subChunks, list, typeMap, stateMap);
    var h := BcfUtils.UtilsHeader(BcfUtils.SubChunkRecords(subChunks), BcfUtils.BcfTables(subChunks, list, typeMap, stateMap));
    StreamOf(s, h, RecordOffsets(BcfUtils.SubChunkRecords(subChunks)), h.paletteOffset as nat,
             Catalog(Decoded(list, false), typeMap, stateMap));
  }

  /** The stream reader lists, for each sub-chunk of what writeBCF wrote, the
      blocks of the regions written for it, and reports one sub-chunk per
      record. */
  lemma {:induction false} StreamBlocksOfBcfFile(s: Bytes, subChunks: seq<seq<BlockRegion>>, list: seq<PaletteKey>,
                                                 typeMap: map<BlockTypeId, Bytes>, stateMap: map<StateNameId, Bytes>,
                                                 i: nat)
    requires Readable(subChunks, list, typeMap, stateMap) && s == BcfUtils.BcfFile(subChunks, list, typeMap, stateMap)
    requires i < |subChunks|
    ensures OpenStream(Some(s)).Ok? && StreamSubChunkCount(OpenStream(Some(s)).value) == |subChunks|
    ensures StreamBlocks(OpenStream(Some(s)).value, i) == Blocks(subChunks[i], Catalog(Decoded(list, false), typeMap, stateMap))
  {
    StreamOfBcfFile(s, subChunks, list, typeMap, stateMap);
    RecordInPlace(s, subChunks, list, typeMap, stateMap, i);
    var st := OpenStream(Some(s)).value;
    StreamRecord(st, i, subChunks[i], WrapI16(i * 16));
  }

  /** Record `i` of what writeBCF wrote lies at offset `i`. */
  lemma {:induction false} RecordInPlace(s: Bytes, subChunks: seq<seq<BlockRegion>>, list: seq<PaletteKey>,
                                         typeMap: map<BlockTypeId, Bytes>, stateMap: map<StateNameId, Bytes>, i: nat)
    requires Readable(subChunks, list, typeMap, stateMap) && s == BcfUtils.BcfFile(subChunks, list, typeMap, stateMap)
    requires i < |subChunks|
    ensures var offs := RecordOffsets(BcfUtils.SubChunkRecords(subChunks));
            i < |offs| && HasAt(s, offs[i], SubChunkRecord(subChunks[i], WrapI16(i * 16)))
  {
    BcfUtils.ReadBcfFile(s, subChunks, list, typeMap, stateMap);
  }

  /** The records of what writeBCF wrote, read one after another from the
      end of the header, are the regions of every sub-chunk. */
  lemma {:induction false} RecordsOfBcfFile(s: Bytes, subChunks: seq<seq<BlockRegion>>, list: seq<PaletteKey>,
                                            typeMap: map<BlockTypeId, Bytes>, stateMap: map<StateNameId, Bytes>)
    requires Readable(subChunks, list, typeMap, stateMap) && s == BcfUtils.BcfFile(subChunks, list, typeMap, stateMap)
    ensures ReadMany(RegionsReader(s), HeaderSize, |subChunks|)
            == Some((subChunks, HeaderSize + |Flatten(BcfUtils.SubChunkRecords(subChunks))|))
  {
    var recs := BcfUtils.SubChunkRecords(subChunks);
    var tables := BcfUtils.BcfTables(subChunks, list, typeMap, stateMap);
    LayoutParts(BcfUtils.UtilsHeader(recs, tables), recs, tables);
    RecordsDecode(s, subChunks);
    ReadManyOfChunks(RegionsReader(s), s, HeaderSize, recs, subChunks);
  }

  /** The header of what writeBCF wrote: version 4 and one record per
      sub-chunk. */
  lemma {:induction false} HeaderOfBcfFile(s: Bytes, subChunks: seq<seq<BlockRegion>>, list: seq<PaletteKey>,
                                           typeMap: map<BlockTypeId, Bytes>, stateMap: map<StateNameId, Bytes>)
    requires Readable(subChunks, list, typeMap, stateMap) && s == BcfUtils.BcfFile(subChunks, list, typeMap, stateMap)
    ensures var h := BcfUtils.UtilsHeader(BcfUtils.SubChunkRecords(subChunks), BcfUtils.BcfTables(subChunks, list, typeMap, stateMap));
            ReadHeader(s, 0) == Some((h, HeaderSize)) && h.version == 4 && h.subChunkCount as int == |subChunks|
  {
    BcfUtils.ReadBcfFile(s, subChunks, list, typeMap, stateMap);
  }

  /** The plain reader reads back what writeBCF wrote: the regions of every
      sub-chunk and the catalog. */
  lemma {:induction false} LoadedOfBcfFile(s: Bytes, subChunks: seq<seq<BlockRegion>>, list: seq<PaletteKey>,
                                           typeMap: map<BlockTypeId, Bytes>, stateMap: map<StateNameId, Bytes>)
    requires Readable(subChunks, list, typeMap, stateMap) && s == BcfUtils.BcfFile(subChunks, list, typeMap, stateMap)
    ensures var r := OpenFile(Some(s));
            && r.Ok? && r.value.subChunks == subChunks
            && r.value.catalog == Catalog(Decoded(list, false), typeMap, stateMap)
  {
    var recs := BcfUtils.SubChunkRecords(subChunks);
    var h := BcfUtils.UtilsHeader(recs, BcfUtils.BcfTables(subChunks, list, typeMap, stateMap));
    HeaderOfBcfFile(s, subChunks, list, typeMap, stateMap);
    CatalogOfBcfFile(s, subChunks, list, typeMap, stateMap);
    RecordsOfBcfFile(s, subChunks, list, typeMap, stateMap);
    LoadedOf(s, h, subChunks, HeaderSize + |Flatten(recs)|, Catalog(Decoded(list, false), typeMap, stateMap));
  }
}

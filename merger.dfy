/** BCFBlockMerger.hpp: re-adding every block of a container, region by
    region and cell by cell, to a cached writer, then finalizing it under a
    derived file name. The reader it queries and the writer it drives are
    given here as a `Source` of lookups and as the sequence of writer calls
    made, in order. */
module Merger {
  import opened Wrappers
  import opened LittleEndian
  import opened Structs
  import Readers
  import Calls

  // ---------------------------------------------------------------------------
  // The output file name

  /** `find_last_of('.')`: the position of the last '.', if any. */
  function LastDot(s: string): (r: Option<nat>)
    ensures r.Some? ==> r.value < |s| && s[r.value] == '.' && forall k :: r.value < k < |s| ==> s[k] != '.'
    ensures r.None? ==> forall k :: 0 <= k < |s| ==> s[k] != '.'
  {
    if |s| == 0 then None
    else if s[|s| - 1] == '.' then Some(|s| - 1)
    else LastDot(s[..|s| - 1])
  }

  /** The constructor's name for the merged file: "_merged" inserted before
      the last '.', or "_merged.bcf" appended when there is none. */
  function OutputName(input: string): string {
    match LastDot(input)
    case Some(k) => input[..k] + "_merged" + input[k..]
    case None => input + "_merged.bcf"
  }

  /** The last '.' of a name is found exactly when it is the last one. */
  lemma {:induction false} LastDotIs(s: string, k: nat)
    requires k < |s| && s[k] == '.' && forall j :: k < j < |s| ==> s[j] != '.'
    ensures LastDot(s) == Some(k)
  {
  }

  /** The output keeps the input's extension, the part from its last '.',
      and puts "_merged" right before it; a name without a '.' gets the
      extension ".bcf". */
  lemma {:induction false} OutputExtension(input: string)
    ensures var out := OutputName(input);
            var ext := match LastDot(input) case Some(k) => input[k..] case None => ".bcf";
            var stem := match LastDot(input) case Some(k) => input[..k] case None => input;
            && LastDot(out) == Some(|stem| + 7)
            && out[..|stem| + 7] == stem + "_merged" && out[|stem| + 7..] == ext
  {
    var out := OutputName(input);
    match LastDot(input)
    case Some(k) => {
      assert out == input[..k] + "_merged" + input[k..];
      assert out[k + 7] == input[k];
      forall j | k + 7 < j < |out| ensures out[j] != '.' {
        assert out[j] == input[j - 7];
      }
      LastDotIs(out, k + 7);
    }
    case None => {
      assert out == input + "_merged.bcf";
      assert out[|input| + 7] == '.';
      LastDotIs(out, |input| + 7);
    }
  }

  /** The input is recovered from the output by removing the seven
      characters "_merged" before the output's last '.', when the input has a
      '.'; so the merged file never overwrites its input. */
  lemma {:induction false} OutputNameInverse(input: string)
    ensures OutputName(input) != input
    ensures LastDot(input).Some? ==>
              var out := OutputName(input);
              LastDot(out).Some? && LastDot(out).value >= 7
              && out[..LastDot(out).value - 7] + out[LastDot(out).value..] == input
  {
    OutputExtension(input);
    assert |OutputName(input)| > |input|;
    if LastDot(input).Some? {
      var k := LastDot(input).value;
      var out := OutputName(input);
      assert out[..k] == input[..k];
      assert input[..k] + input[k..] == input;
    }
  }

  /** The last '.' of the whole path is used, even in a directory name. */
  lemma DotInDirectory()
    ensures OutputName("maps.v2/house") == "maps_merged.v2/house"
  {
    LastDotIs("maps.v2/house", 4);
    assert "maps.v2/house"[..4] == "maps";
    assert "maps.v2/house"[4..] == ".v2/house";
  }

  // ---------------------------------------------------------------------------
  // The reader queried and the writer driven

  /** The reader the merger queries: the number of sub-chunks, each
      sub-chunk's regions and origin, the palette key of a palette id, and
      the names of type, state-name and state-value ids. */
  datatype Source = Source(
    count: nat,
    regions: nat -> seq<BlockRegion>,
    origin: nat -> (Coord, Coord, Coord),
    key: PaletteId -> PaletteKey,
    typeName: BlockTypeId -> Bytes,
    stateName: StateNameId -> Bytes,
    stateValue: StateValueId -> Bytes)

  /** A call made on the writer, with names as read from the container. */
  type Call = Calls.Call<Bytes>

  /** The state list of a palette key: each pair's name and value looked up,
      in the key's order. */
  function StatesOf(src: Source, states: seq<StatePair>): (r: seq<(Bytes, Bytes)>)
    ensures |r| == |states|
    ensures forall j :: 0 <= j < |states| ==> r[j] == (src.stateName(states[j].0), src.stateValue(states[j].1))
  {
    if |states| == 0 then []
    else StatesOf(src, states[..|states| - 1])
         + [(src.stateName(states[|states| - 1].0), src.stateValue(states[|states| - 1].1))]
  }

  /** One `addBlock` per cell, at the origin plus the cell, all with the same
      type and states. */
  function Place(o: (Coord, Coord, Coord), cells: seq<Readers.Pos>, name: Bytes, st: seq<(Bytes, Bytes)>): seq<Call> {
    seq(|cells|, j requires 0 <= j < |cells| =>
      Calls.AddBlock(o.0 as int + cells[j].0 as int, o.1 as int + cells[j].1 as int, o.2 as int + cells[j].2 as int, name, st))
  }

  lemma {:induction false} PlaceAt(o: (Coord, Coord, Coord), cells: seq<Readers.Pos>, name: Bytes, st: seq<(Bytes, Bytes)>)
    ensures |Place(o, cells, name, st)| == |cells|
    ensures forall j :: 0 <= j < |cells| ==>
              Place(o, cells, name, st)[j] == Calls.AddBlock(o.0 as int + cells[j].0 as int, o.1 as int + cells[j].1 as int,
                                                       o.2 as int + cells[j].2 as int, name, st)
  {
  }

  lemma {:induction false} PlaceAppend(o: (Coord, Coord, Coord), a: seq<Readers.Pos>, b: seq<Readers.Pos>,
                                       name: Bytes, st: seq<(Bytes, Bytes)>)
    ensures Place(o, a + b, name, st) == Place(o, a, name, st) + Place(o, b, name, st)
  {
  }

  /** The calls for one region of sub-chunk `i`. */
  function RegionCalls(src: Source, i: nat, reg: BlockRegion): seq<Call> {
    var key := src.key(reg.paletteId);
    Place(src.origin(i), Readers.BoxCells(reg), src.typeName(key.typeId), StatesOf(src, key.states))
  }

  /** The calls for the first `n` regions of sub-chunk `i`. */
  function RegionsCalls(src: Source, i: nat, regions: seq<BlockRegion>): seq<Call> {
    if |regions| == 0 then []
    else RegionsCalls(src, i, regions[..|regions| - 1]) + RegionCalls(src, i, regions[|regions| - 1])
  }

  /** The calls for the first `n` sub-chunks. */
  function Plan(src: Source, n: nat): seq<Call> {
    if n == 0 then [] else Plan(src, n - 1) + RegionsCalls(src, n - 1, src.regions(n - 1))
  }

  // ---------------------------------------------------------------------------
  // What the calls are

  /** A region is re-added as exactly the cells of its inclusive box, each
      once, at the sub-chunk origin plus the cell, with the region's type
      name and state list. */
  lemma {:induction false} RegionCallsCount(src: Source, i: nat, reg: BlockRegion)
    ensures |RegionCalls(src, i, reg)| == Readers.Volume(reg)
  {
    Readers.BoxSize(reg.x1, reg.x2, reg.y1, reg.y2, reg.z1, reg.z2);
    var key := src.key(reg.paletteId);
    PlaceAt(src.origin(i), Readers.BoxCells(reg), src.typeName(key.typeId), StatesOf(src, key.states));
  }

  /** A cell, as integers, within a region's inclusive box. */
  predicate InBox(reg: BlockRegion, x: int, y: int, z: int) {
    reg.x1 <= x <= reg.x2 && reg.y1 <= y <= reg.y2 && reg.z1 <= z <= reg.z2
  }

  /** Every call for a region adds a block of the region's type and state
      list at the sub-chunk origin plus a cell of the region's box. */
  lemma {:induction false} RegionCallsInBox(src: Source, i: nat, reg: BlockRegion)
    ensures var key := src.key(reg.paletteId);
            var o := src.origin(i);
            forall c :: c in RegionCalls(src, i, reg) ==>
              && c.AddBlock? && c.blockType == src.typeName(key.typeId) && c.states == StatesOf(src, key.states)
              && InBox(reg, c.x - o.0 as int, c.y - o.1 as int, c.z - o.2 as int)
  {
    var cells := Readers.BoxCells(reg);
    var calls := RegionCalls(src, i, reg);
    Readers.BoxHas(reg.x1, reg.x2, reg.y1, reg.y2, reg.z1, reg.z2);
    PlaceAt(src.origin(i), cells, src.typeName(src.key(reg.paletteId).typeId), StatesOf(src, src.key(reg.paletteId).states));
    forall c | c in calls
      ensures InBox(reg, c.x - src.origin(i).0 as int, c.y - src.origin(i).1 as int, c.z - src.origin(i).2 as int)
    {
      var j :| 0 <= j < |calls| && calls[j] == c;
      assert cells[j] in cells;
    }
  }

  /** Every cell of a region's box is added, at the sub-chunk origin plus
      the cell. */
  lemma {:induction false} RegionCallsCover(src: Source, i: nat, reg: BlockRegion)
    ensures var key := src.key(reg.paletteId);
            var o := src.origin(i);
            forall x: int, y: int, z: int :: InBox(reg, x, y, z) ==>
              Calls.AddBlock(o.0 as int + x, o.1 as int + y, o.2 as int + z, src.typeName(key.typeId), StatesOf(src, key.states))
                in RegionCalls(src, i, reg)
  {
    forall x: int, y: int, z: int | InBox(reg, x, y, z)
      ensures Calls.AddBlock(src.origin(i).0 as int + x, src.origin(i).1 as int + y, src.origin(i).2 as int + z,
                       src.typeName(src.key(reg.paletteId).typeId), StatesOf(src, src.key(reg.paletteId).states))
              in RegionCalls(src, i, reg)
    {
      RegionCallAt(src, i, reg, x, y, z);
    }
  }

  lemma {:induction false} RegionCallAt(src: Source, i: nat, reg: BlockRegion, x: int, y: int, z: int)
    requires InBox(reg, x, y, z)
    ensures var key := src.key(reg.paletteId);
            var o := src.origin(i);
            Calls.AddBlock(o.0 as int + x, o.1 as int + y, o.2 as int + z, src.typeName(key.typeId), StatesOf(src, key.states))
              in RegionCalls(src, i, reg)
  {
    var cells := Readers.BoxCells(reg);
    var key := src.key(reg.paletteId);
    var o := src.origin(i);
    var name := src.typeName(key.typeId);
    var st := StatesOf(src, key.states);
    var j := CellIndex(reg, x, y, z);
    PlaceAt(o, cells, name, st);
    var calls := Place(o, cells, name, st);
    assert calls[j] == Calls.AddBlock(o.0 as int + x, o.1 as int + y, o.2 as int + z, name, st);
    assert calls[j] in calls;
  }

  /** A cell of a region's box has a place in the region's cell list. */
  lemma {:induction false} CellIndex(reg: BlockRegion, x: int, y: int, z: int) returns (j: nat)
    requires InBox(reg, x, y, z)
    ensures j < |Readers.BoxCells(reg)|
    ensures Readers.BoxCells(reg)[j] == (x as Coord, y as Coord, z as Coord)
  {
    var cells := Readers.BoxCells(reg);
    Readers.BoxHas(reg.x1, reg.x2, reg.y1, reg.y2, reg.z1, reg.z2);
    var p: Readers.Pos := (x as Coord, y as Coord, z as Coord);
    assert p in cells;
    j :| 0 <= j < |cells| && cells[j] == p;
  }


  /** The number of cells over a sub-chunk's regions. */
  function PlanVolume(src: Source, n: nat): nat {
    if n == 0 then 0 else PlanVolume(src, n - 1) + Readers.TotalVolume(src.regions(n - 1))
  }

  lemma {:induction false} RegionsCallsCount(src: Source, i: nat, regions: seq<BlockRegion>)
    ensures |RegionsCalls(src, i, regions)| == Readers.TotalVolume(regions)
    decreases |regions|
  {
    if |regions| > 0 {
      RegionsCallsCount(src, i, regions[..|regions| - 1]);
      RegionCallsCount(src, i, regions[|regions| - 1]);
    }
  }

  /** One `addBlock` per cell of every region of every sub-chunk. */
  lemma {:induction false} PlanCount(src: Source, n: nat)
    ensures |Plan(src, n)| == PlanVolume(src, n)
  {
    if n > 0 {
      PlanCount(src, n - 1);
      RegionsCallsCount(src, n - 1, src.regions(n - 1));
    }
  }

  lemma {:induction false} RegionsCallsAdd(src: Source, i: nat, regions: seq<BlockRegion>)
    ensures forall c :: c in RegionsCalls(src, i, regions) ==> c.AddBlock?
    decreases |regions|
  {
    if |regions| > 0 {
      RegionsCallsAdd(src, i, regions[..|regions| - 1]);
    }
  }

  /** Every call of the plan adds a block; so `finalize` is called once, and
      last. */
  lemma {:induction false} PlanAdds(src: Source, n: nat)
    ensures forall c :: c in Plan(src, n) ==> c.AddBlock?
  {
    if n > 0 {
      PlanAdds(src, n - 1);
      RegionsCallsAdd(src, n - 1, src.regions(n - 1));
    }
  }

  lemma {:induction false} FinalizeOnceLast(src: Source)
    ensures var t := Plan(src, src.count) + [Calls.Finalize];
            t[|t| - 1] == Calls.Finalize && forall j :: 0 <= j < |t| - 1 ==> t[j].AddBlock?
  {
    PlanAdds(src, src.count);
    var t := Plan(src, src.count) + [Calls.Finalize];
    forall j | 0 <= j < |t| - 1 ensures t[j].AddBlock? {
      assert t[j] in Plan(src, src.count);
    }
  }

  // ---------------------------------------------------------------------------
  // mergeAndSave

  /** The state loop. */
  method BuildStates(src: Source, states: seq<StatePair>) returns (r: seq<(Bytes, Bytes)>)
    ensures r == StatesOf(src, states)
  {
    r := [];
    var j := 0;
    while j < |states|
      invariant 0 <= j <= |states|
      invariant r == StatesOf(src, states[..j])
    {
      assert states[..j + 1][..j] == states[..j];
      r := r + [(src.stateName(states[j].0), src.stateValue(states[j].1))];
      j := j + 1;
    }
    assert states[..j] == states;
  }

  /** The z loop. */
  method EmitRun(out: seq<Call>, o: (Coord, Coord, Coord), x: Coord, y: Coord, lo: Coord, hi: Coord,
                 name: Bytes, st: seq<(Bytes, Bytes)>) returns (r: seq<Call>)
    ensures r == out + Place(o, Readers.Run(x, y, lo, hi), name, st)
  {
    r := out;
    var z: int := lo;
    while z <= hi
      invariant lo <= z <= hi + 1 || (hi < lo && z == lo)
      invariant r == out + Place(o, Readers.Run(x, y, lo, z - 1), name, st)
      decreases hi - z
    {
      var next := r + [Calls.AddBlock(o.0 as int + x as int, o.1 as int + y as int, o.2 as int + z, name, st)];
      PlaceRunStep(out, r, next, o, x, y, lo, z, name, st);
      r := next;
      z := z + 1;
    }
  }

  /** The y loop. */
  method EmitPlane(out: seq<Call>, o: (Coord, Coord, Coord), x: Coord, ylo: Coord, yhi: Coord, zlo: Coord,
                   zhi: Coord, name: Bytes, st: seq<(Bytes, Bytes)>) returns (r: seq<Call>)
    ensures r == out + Place(o, Readers.Plane(x, ylo, yhi, zlo, zhi), name, st)
  {
    r := out;
    var y: int := ylo;
    while y <= yhi
      invariant ylo <= y <= yhi + 1 || (yhi < ylo && y == ylo)
      invariant r == out + Place(o, Readers.Plane(x, ylo, y - 1, zlo, zhi), name, st)
      decreases yhi - y
    {
      var next := EmitRun(r, o, x, y, zlo, zhi, name, st);
      PlacePlaneStep(out, r, next, o, x, ylo, y, zlo, zhi, name, st);
      r := next;
      y := y + 1;
    }
  }

  /** The x loop: the calls for one box. */
  method EmitBox(out: seq<Call>, o: (Coord, Coord, Coord), reg: BlockRegion, name: Bytes, st: seq<(Bytes, Bytes)>)
    returns (r: seq<Call>)
    ensures r == out + Place(o, Readers.BoxCells(reg), name, st)
  {
    r := out;
    var x: int := reg.x1;
    while x <= reg.x2
      invariant reg.x1 <= x <= reg.x2 + 1 || (reg.x2 < reg.x1 && x == reg.x1)
      invariant r == out + Place(o, Readers.Box(reg.x1, x - 1, reg.y1, reg.y2, reg.z1, reg.z2), name, st)
      decreases reg.x2 - x
    {
      var next := EmitPlane(r, o, x, reg.y1, reg.y2, reg.z1, reg.z2, name, st);
      PlaceBoxStep(out, r, next, o, reg, x, name, st);
      r := next;
      x := x + 1;
    }
  }

  /** One more cell of a run placed. */
  lemma {:induction false} PlaceRunStep(out: seq<Call>, r: seq<Call>, next: seq<Call>, o: (Coord, Coord, Coord),
                                        x: Coord, y: Coord, lo: Coord, z: Coord, name: Bytes, st: seq<(Bytes, Bytes)>)
    requires lo <= z
    requires r == out + Place(o, Readers.Run(x, y, lo, z - 1), name, st)
    requires next == r + [Calls.AddBlock(o.0 as int + x as int, o.1 as int + y as int, o.2 as int + z as int, name, st)]
    ensures next == out + Place(o, Readers.Run(x, y, lo, z), name, st)
  {
    PlaceAppend(o, Readers.Run(x, y, lo, z - 1), [(x, y, z)], name, st);
  }

  /** One more run of a plane placed. */
  lemma {:induction false} PlacePlaneStep(out: seq<Call>, r: seq<Call>, next: seq<Call>, o: (Coord, Coord, Coord),
                                          x: Coord, ylo: Coord, y: Coord, zlo: Coord, zhi: Coord,
                                          name: Bytes, st: seq<(Bytes, Bytes)>)
    requires ylo <= y
    requires r == out + Place(o, Readers.Plane(x, ylo, y - 1, zlo, zhi), name, st)
    requires next == r + Place(o, Readers.Run(x, y, zlo, zhi), name, st)
    ensures next == out + Place(o, Readers.Plane(x, ylo, y, zlo, zhi), name, st)
  {
    PlaceAppend(o, Readers.Plane(x, ylo, y - 1, zlo, zhi), Readers.Run(x, y, zlo, zhi), name, st);
  }

  /** One more plane of a box placed. */
  lemma {:induction false} PlaceBoxStep(out: seq<Call>, r: seq<Call>, next: seq<Call>, o: (Coord, Coord, Coord),
                                        reg: BlockRegion, x: Coord, name: Bytes, st: seq<(Bytes, Bytes)>)
    requires reg.x1 <= x
    requires r == out + Place(o, Readers.Box(reg.x1, x - 1, reg.y1, reg.y2, reg.z1, reg.z2), name, st)
    requires next == r + Place(o, Readers.Plane(x, reg.y1, reg.y2, reg.z1, reg.z2), name, st)
    ensures next == out + Place(o, Readers.Box(reg.x1, x, reg.y1, reg.y2, reg.z1, reg.z2), name, st)
  {
    PlaceAppend(o, Readers.Box(reg.x1, x - 1, reg.y1, reg.y2, reg.z1, reg.z2),
                Readers.Plane(x, reg.y1, reg.y2, reg.z1, reg.z2), name, st);
  }

  /** The calls for one region: its key's type name and state list, then
      the box. */
  method EmitRegion(out: seq<Call>, src: Source, i: nat, reg: BlockRegion) returns (r: seq<Call>)
    ensures r == out + RegionCalls(src, i, reg)
  {
    var key := src.key(reg.paletteId);
    var st := BuildStates(src, key.states);
    r := EmitBox(out, src.origin(i), reg, src.typeName(key.typeId), st);
  }

  lemma {:induction false} RegionsCallsSnoc(src: Source, i: nat, regions: seq<BlockRegion>, k: nat)
    requires k < |regions|
    ensures RegionsCalls(src, i, regions[..k + 1]) == RegionsCalls(src, i, regions[..k]) + RegionCalls(src, i, regions[k])
  {
    assert regions[..k + 1][..k] == regions[..k];
  }

  /** The region loop of one sub-chunk. */
  method EmitSubChunk(out: seq<Call>, src: Source, i: nat) returns (r: seq<Call>)
    ensures r == out + RegionsCalls(src, i, src.regions(i))
  {
    var regions := src.regions(i);
    r := out;
    var k := 0;
    while k < |regions|
      invariant 0 <= k <= |regions|
      invariant r == out + RegionsCalls(src, i, regions[..k])
    {
      RegionsCallsSnoc(src, i, regions, k);
      r := EmitRegion(r, src, i, regions[k]);
      k := k + 1;
    }
    assert regions[..k] == regions;
  }

  /** mergeAndSave: every sub-chunk's regions re-added cell by cell, then
      one `finalize`. */
  method MergeAndSave(src: Source) returns (trace: seq<Call>)
    ensures trace == Plan(src, src.count) + [Calls.Finalize]
  {
    trace := [];
    var i := 0;
    while i < src.count
      invariant 0 <= i <= src.count
      invariant trace == Plan(src, i)
    {
      trace := EmitSubChunk(trace, src, i);
      i := i + 1;
    }
    trace := trace + [Calls.Finalize];
  }

  // ---------------------------------------------------------------------------
  // The loop counters

  /** `x++` on a Coord: the sum converted back to 16 bits. */
  function CoordStep(x: Coord): Coord {
    WrapI16(x as int + 1)
  }

  /** The counter after `k` steps from `x1`. */
  function CoordAfter(x1: Coord, k: nat): Coord {
    if k == 0 then x1 else CoordStep(CoordAfter(x1, k - 1))
  }

  lemma {:induction false} Multiple(d: int)
    requires d % 0x1_0000 == 0
    ensures d == 0x1_0000 * (d / 0x1_0000)
  {
  }

  lemma {:induction false} WrapStep(v: int)
    ensures WrapI16(WrapI16(v) as int + 1) == WrapI16(v + 1)
  {
    var a := WrapI16(v);
    var b := WrapI16(a as int + 1);
    var c := WrapI16(v + 1);
    Multiple(a - v);
    Multiple(b - (a as int + 1));
    Multiple(c - (v + 1));
    var q := (b - (a as int + 1)) / 0x1_0000 + (a - v) / 0x1_0000 - (c - (v + 1)) / 0x1_0000;
    assert b - c == 0x1_0000 * q;
  }

  lemma {:induction false} CoordAfterIs(x1: Coord, k: nat)
    ensures CoordAfter(x1, k) == WrapI16(x1 as int + k)
  {
    if k > 0 {
      CoordAfterIs(x1, k - 1);
      WrapStep(x1 as int + (k - 1));
    }
  }

  /** With `x2 == 32767` the guard `x <= x2` holds for every Coord, and the
      counter comes back to `x1` after 65536 steps: the loop never ends. */
  lemma {:induction false} CoordLoopNeverEnds(x1: Coord)
    ensures forall k: nat :: CoordAfter(x1, k) <= 0x7FFF
    ensures CoordStep(0x7FFF) == -0x8000
    ensures CoordAfter(x1, 0x1_0000) == x1
  {
    CoordAfterIs(x1, 0x1_0000);
  }
}

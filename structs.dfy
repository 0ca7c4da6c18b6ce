/** The shared records of bcf_structs.hpp: id widths, the packed file header,
    block groups and regions, and the palette key with its equality and hash. */
module Structs {
  import opened Wrappers
  import opened LittleEndian

  type PaletteId = U32
  type Coord = I16
  type BlockTypeId = U16
  type StateNameId = U8
  type StateValueId = U8
  type BlockCount = U32

  /** `(PaletteID)-1`, the "no block" answer of the lookups. */
  const NoPalette: PaletteId := 0xFFFF_FFFF

  // ---------------------------------------------------------------------------
  // File header (packed, 67 bytes)

  datatype Header = Header(
    magic: (Byte, Byte, Byte),
    version: U8,
    width: U16, length: U16, height: U16,
    subChunkBaseSize: U8,
    subChunkCount: U64,
    subChunkOffsetsTableOffset: U64,
    paletteOffset: U64,
    blockTypeMapOffset: U64,
    stateNameMapOffset: U64,
    stateValueMapOffset: U64,
    nbtDataOffset: U64)

  const HeaderSize: nat := 67

  /** The default-constructed header. `subChunkBaseSize` is initialised from 376
      into a `uint8_t`. */
  function DefaultHeader(): (h: Header)
    ensures h.magic == ('B' as int, 'C' as int, 'F' as int) && h.version == 4
    ensures h.width == 144 && h.length == 144 && h.height == 376
    ensures h.subChunkBaseSize == 120
    ensures h.subChunkCount == 0 && h.subChunkOffsetsTableOffset == 0 && h.paletteOffset == 0
    ensures h.blockTypeMapOffset == 0 && h.stateNameMapOffset == 0
    ensures h.stateValueMapOffset == 0 && h.nbtDataOffset == 0
  {
    Header(('B' as int, 'C' as int, 'F' as int), 4, 144, 144, 376, WrapU8(376), 0, 0, 0, 0, 0, 0, 0)
  }

  /** Field widths of the packed struct in declaration order: magic[3], version,
      width, length, height, subChunkBaseSize and seven 64-bit offsets. */
  const HeaderWidths: seq<nat> := [1, 1, 1, 1, 2, 2, 2, 1, 8, 8, 8, 8, 8, 8, 8]

  lemma HeaderWidthsSum()
    ensures Sum(HeaderWidths) == HeaderSize
  {
    var ws := HeaderWidths;
    SumOf15(ws);
    assert ws[0] + ws[1] + ws[2] + ws[3] + ws[4] + ws[5] + ws[6] + ws[7] == 11;
    assert ws[8] + ws[9] + ws[10] + ws[11] + ws[12] + ws[13] + ws[14] == 56;
  }

  lemma SumOf15(ws: seq<nat>)
    requires |ws| == 15
    ensures Sum(ws) == ws[0] + ws[1] + ws[2] + ws[3] + ws[4] + ws[5] + ws[6] + ws[7]
                       + ws[8] + ws[9] + ws[10] + ws[11] + ws[12] + ws[13] + ws[14]
  {
    assert ws[15..] == [];
    SumStep(ws, 14); SumStep(ws, 13); SumStep(ws, 12); SumStep(ws, 11); SumStep(ws, 10);
    SumStep(ws, 9); SumStep(ws, 8); SumStep(ws, 7); SumStep(ws, 6); SumStep(ws, 5);
    SumStep(ws, 4); SumStep(ws, 3); SumStep(ws, 2); SumStep(ws, 1); SumStep(ws, 0);
    assert ws[0..] == ws;
  }

  function HeaderFields(h: Header): (vs: seq<nat>)
    ensures FieldsFit(vs, HeaderWidths)
  {
    var vs: seq<nat> := [h.magic.0, h.magic.1, h.magic.2, h.version, h.width, h.length, h.height,
      h.subChunkBaseSize, h.subChunkCount, h.subChunkOffsetsTableOffset, h.paletteOffset,
      h.blockTypeMapOffset, h.stateNameMapOffset, h.stateValueMapOffset, h.nbtDataOffset];
    HeaderFieldsFit(vs);
    vs
  }

  lemma {:induction false} HeaderFieldsFit(vs: seq<nat>)
    requires |vs| == 15
    requires vs[0] < 0x100 && vs[1] < 0x100 && vs[2] < 0x100 && vs[3] < 0x100 && vs[7] < 0x100
    requires vs[4] < 0x1_0000 && vs[5] < 0x1_0000 && vs[6] < 0x1_0000
    requires forall i :: 8 <= i < 15 ==> vs[i] < 0x1_0000_0000_0000_0000
    ensures FieldsFit(vs, HeaderWidths)
  {
    Pow256Values();
    var ws := HeaderWidths;
    forall i | 0 <= i < 15 ensures vs[i] < Pow256(ws[i]) {
      if i == 0 {} else if i == 1 {} else if i == 2 {} else if i == 3 {}
      else if i == 4 {} else if i == 5 {} else if i == 6 {} else if i == 7 {}
      else if i == 8 {} else if i == 9 {} else if i == 10 {} else if i == 11 {}
      else if i == 12 {} else if i == 13 {} else {}
    }
  }

  function HeaderOfFields(vs: seq<nat>): (h: Header)
    requires FieldsFit(vs, HeaderWidths)
  {
    HeaderFieldBounds(vs);
    Header((vs[0], vs[1], vs[2]), vs[3], vs[4], vs[5], vs[6], vs[7],
           vs[8], vs[9], vs[10], vs[11], vs[12], vs[13], vs[14])
  }

  lemma {:induction false} HeaderFieldBounds(vs: seq<nat>)
    requires FieldsFit(vs, HeaderWidths)
    ensures |vs| == 15
    ensures vs[0] < 0x100 && vs[1] < 0x100 && vs[2] < 0x100 && vs[3] < 0x100 && vs[7] < 0x100
    ensures vs[4] < 0x1_0000 && vs[5] < 0x1_0000 && vs[6] < 0x1_0000
    ensures forall i :: 8 <= i < 15 ==> vs[i] < 0x1_0000_0000_0000_0000
  {
    Pow256Values();
    var ws := HeaderWidths;
    assert vs[0] < Pow256(ws[0]);
    assert vs[1] < Pow256(ws[1]);
    assert vs[2] < Pow256(ws[2]);
    assert vs[3] < Pow256(ws[3]);
    assert vs[4] < Pow256(ws[4]);
    assert vs[5] < Pow256(ws[5]);
    assert vs[6] < Pow256(ws[6]);
    assert vs[7] < Pow256(ws[7]);
    forall i | 8 <= i < 15 ensures vs[i] < 0x1_0000_0000_0000_0000 {
      assert ws[i] == 8;
    }
  }

  function WriteHeader(h: Header): (r: Bytes)
    ensures |r| == HeaderSize
  {
    HeaderWidthsSum();
    WriteFields(HeaderFields(h), HeaderWidths)
  }

  /** Reads the packed header at `pos`; `None` when the stream is shorter. */
  function ReadHeader(s: Bytes, pos: nat): (r: Option<(Header, nat)>)
    ensures r.Some? <==> pos + HeaderSize <= |s|
    ensures r.Some? ==> r.value.1 == pos + HeaderSize
  {
    HeaderWidthsSum();
    match ReadFields(s, pos, HeaderWidths)
    case None => None
    case Some((vs, p)) => Some((HeaderOfFields(vs), p))
  }

  lemma {:induction false} ReadHeaderOfWritten(p: Bytes, h: Header, q: Bytes)
    ensures ReadHeader(p + WriteHeader(h) + q, |p|) == Some((h, |p| + HeaderSize))
  {
    HeaderWidthsSum();
    ReadFieldsOfWritten(p, HeaderFields(h), HeaderWidths, q);
  }

  /** A header is read back wherever a stream holds it. */
  lemma {:induction false} ReadHeaderAt(s: Bytes, pos: nat, h: Header)
    requires HasAt(s, pos, WriteHeader(h))
    ensures ReadHeader(s, pos) == Some((h, pos + HeaderSize))
  {
    HeaderWidthsSum();
    ReadFieldsAt(s, pos, HeaderFields(h), HeaderWidths);
  }

  // ---------------------------------------------------------------------------
  // Blocks

  /** Cells of one palette id, as three parallel coordinate vectors. */
  datatype BlockGroup = BlockGroup(paletteId: PaletteId, count: BlockCount,
                                   x: seq<Coord>, y: seq<Coord>, z: seq<Coord>)
  {
    /** The count matches the vectors. */
    predicate WellFormed() {
      count == |x| == |y| == |z|
    }

    /** The vectors hold at least `count` entries, as every loop over
        `0..count` indexes them. */
    predicate Indexable() {
      count as int <= |x| && count as int <= |y| && count as int <= |z|
    }
  }

  /** An inclusive box of one palette id. */
  datatype BlockRegion = BlockRegion(paletteId: PaletteId,
                                     x1: Coord, y1: Coord, z1: Coord,
                                     x2: Coord, y2: Coord, z2: Coord)

  datatype SubChunkOrigin = SubChunkOrigin(originX: Coord, originY: Coord, originZ: Coord)

  /** A block as the importers describe it: position, type name and state pairs. */
  datatype BlockInfo = BlockInfo(x: Coord, y: Coord, z: Coord, typeName: Bytes,
                                 states: seq<(Bytes, Bytes)>)

  // ---------------------------------------------------------------------------
  // Palette key

  type StatePair = (StateNameId, StateValueId)

  /** A block descriptor. The auxiliary payload (NBT in the original) is an
      uninterpreted byte string; `None` is the null pointer. */
  datatype PaletteKey = PaletteKey(typeId: BlockTypeId, states: seq<StatePair>, payload: Option<Bytes>)

  /** The element loop of `operator==`, from index `i` on. */
  function StatesEqualFrom(s: seq<StatePair>, t: seq<StatePair>, i: nat): (r: bool)
    requires |s| == |t| && i <= |s|
    decreases |s| - i
  {
    if i == |s| then true
    else if s[i] != t[i] then false
    else StatesEqualFrom(s, t, i + 1)
  }

  /** `PaletteKey::operator==`: type, length, payload presence and payload, then
      the state pairs one by one. */
  function KeyEquals(a: PaletteKey, b: PaletteKey): (r: bool)
  {
    if a.typeId != b.typeId || |a.states| != |b.states| then false
    else if a.payload.None? != b.payload.None? then false
    else if a.payload.Some? && b.payload.Some? && a.payload.value != b.payload.value then false
    else StatesEqualFrom(a.states, b.states, 0)
  }

  lemma {:induction false} StatesEqualFromSpec(s: seq<StatePair>, t: seq<StatePair>, i: nat)
    requires |s| == |t| && i <= |s|
    ensures StatesEqualFrom(s, t, i) <==> s[i..] == t[i..]
    decreases |s| - i
  {
    if i < |s| {
      StatesEqualFromSpec(s, t, i + 1);
      assert s[i..] == [s[i]] + s[i + 1..];
      assert t[i..] == [t[i]] + t[i + 1..];
      if s[i..] == t[i..] {
        assert s[i] == s[i..][0] == t[i..][0] == t[i];
        assert s[i + 1..] == s[i..][1..];
        assert t[i + 1..] == t[i..][1..];
      }
    }
  }

  /** The equality operator is exactly structural equality: equal typeId, the
      same state pairs in the same order, and payloads both absent or both
      present and equal. */
  lemma {:induction false} KeyEqualsIsEquality(a: PaletteKey, b: PaletteKey)
    ensures KeyEquals(a, b) <==> a == b
  {
    if a.typeId == b.typeId && |a.states| == |b.states| {
      StatesEqualFromSpec(a.states, b.states, 0);
      assert a.states[0..] == a.states && b.states[0..] == b.states;
    }
  }

  const GoldenRatio: bv64 := 0x9e3779b9

  /** One mixing step `h ^= (v + 0x9e3779b9 + (h << 6) + (h >> 2))` on a 64-bit `size_t`. */
  function Mix(h: bv64, v: U8): (r: bv64)
  {
    h ^ ((v as bv64) + GoldenRatio + (h << 6) + (h >> 2))
  }

  function MixStates(h: bv64, states: seq<StatePair>): (r: bv64)
    decreases |states|
  {
    if states == [] then h
    else MixStates(Mix(Mix(h, states[0].0), states[0].1), states[1..])
  }

  /** `PaletteKeyHash`: the type id, then every pair folded in order, then the
      payload's string hash (`payloadHash`, standing for `std::hash` over the
      serialised tag). */
  function KeyHash(k: PaletteKey, payloadHash: Bytes -> bv64): (h: bv64)
  {
    var h := MixStates(k.typeId as bv64, k.states);
    if k.payload.Some? then h ^ (payloadHash(k.payload.value) + GoldenRatio + (h << 6) + (h >> 2))
    else h
  }

  /** Folding a concatenation folds the parts in order. */
  lemma {:induction false} MixStatesAppend(h: bv64, s: seq<StatePair>, t: seq<StatePair>)
    ensures MixStates(h, s + t) == MixStates(MixStates(h, s), t)
    decreases |s|
  {
    if s == [] {
      assert s + t == t;
    } else {
      assert (s + t)[1..] == s[1..] + t;
      MixStatesAppend(Mix(Mix(h, s[0].0), s[0].1), s[1..], t);
    }
  }

  /** The hash is consistent with `operator==`, as an unordered map needs. */
  lemma {:induction false} KeyHashRespectsEquality(a: PaletteKey, b: PaletteKey, payloadHash: Bytes -> bv64)
    requires KeyEquals(a, b)
    ensures KeyHash(a, payloadHash) == KeyHash(b, payloadHash)
  {
    KeyEqualsIsEquality(a, b);
  }

  /** The hash of a key without payload folds its pairs in order: one more
      pair mixes its name id and then its value id into the previous hash. */
  lemma {:induction false} MixStatesSnoc(h: bv64, s: seq<StatePair>, p: StatePair)
    ensures MixStates(h, s + [p]) == Mix(Mix(MixStates(h, s), p.0), p.1)
  {
    MixStatesAppend(h, s, [p]);
    var m := MixStates(h, s);
    assert [p][1..] == [];
    assert MixStates(m, [p]) == MixStates(Mix(Mix(m, p.0), p.1), []);
  }
}

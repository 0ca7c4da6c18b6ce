/** SchemToBCF.hpp: the Sponge `.schem` importer after its NBT has been read.
    The palette (block string to id), the dimensions and the `BlockData`
    varint array come in as values; the importer rebuilds the palette as an
    id-indexed table, decodes the varints, walks the box in YZX order and
    drives the cached writer with one `addBlock` per kept cell, then
    `finalize`. */
module Schem {
  import opened Wrappers
  import opened LittleEndian
  import opened Bits
  import opened Text
  import opened BlockStrings
  import opened Converter
  import opened Cells
  import opened Air
  import Calls

  type Call = Calls.Call<string>

  // ---------------------------------------------------------------------------
  // The varint array (`decodeVarIntArray`): unsigned LEB128 as in section
  // 7.6 of the DWARF 4 standard, one value per palette index.

  /** The 7-bit groups of the varint at the front of `s`, low group first:
      every byte up to and including the first with bit 7 clear, or up to
      the end of `s`. */
  function Groups(s: Bytes): (g: seq<nat>)
    ensures forall j :: 0 <= j < |g| ==> g[j] < 128
    decreases |s|
  {
    if |s| == 0 then [] else [s[0] % 128] + (if s[0] >= 128 then Groups(s[1..]) else [])
  }

  /** The number of bytes that varint occupies. */
  function Width(s: Bytes): (n: nat)
    ensures n <= |s| && (|s| > 0 ==> n >= 1)
    decreases |s|
  {
    if |s| == 0 then 0 else if s[0] >= 128 then 1 + Width(s[1..]) else 1
  }

  /** The number the groups spell, low group first. */
  function Leb(g: seq<nat>): nat {
    if |g| == 0 then 0 else g[0] + 128 * Leb(g[1..])
  }

  /** What `value` holds after the varint at the front of `s`: the low 32
      bits of its number, read as a two's complement `int`. */
  function VarIntValue(s: Bytes): int {
    WrapI32(Leb(Groups(s)) % 0x1_0000_0000)
  }

  /** The values `decodeVarIntArray` returns: one per varint until `count`
      values are out or the bytes run out; a varint cut short by the end of
      the bytes still gives its value. */
  function VarInts(s: Bytes, count: nat): (r: seq<int>)
    ensures |r| <= count
    decreases |s|
  {
    if count == 0 || |s| == 0 then [] else [VarIntValue(s)] + VarInts(s[Width(s)..], count - 1)
  }

  lemma {:induction false} LebSnoc(g: seq<nat>, x: nat)
    ensures Leb(g + [x]) == Leb(g) + x * Pow2(7 * |g|)
    decreases |g|
  {
    if |g| == 0 {
      assert [] + [x] == [x];
    } else {
      assert (g + [x])[1..] == g[1..] + [x];
      LebSnoc(g[1..], x);
      Pow2Add(7, 7 * (|g| - 1));
      assert Pow2(7) == 128;
      assert 128 * (x * Pow2(7 * (|g| - 1))) == x * Pow2(7 * |g|);
    }
  }

  /** `value |= (byte & 0x7F) << shift` on the `w` bits of `value` adds
      the next group to the number, whether the shift is inside the word or
      past it. */
  lemma GroupStep(g: seq<nat>, x: nat, acc: nat, w: nat)
    requires x < 128 && acc == Leb(g) % Pow2(w) && Leb(g) < Pow2(7 * |g|)
    ensures Or(acc, Shl(x, 7 * |g|, w)) == Leb(g + [x]) % Pow2(w)
    ensures Leb(g + [x]) < Pow2(7 * |g| + 7)
  {
    LebSnoc(g, x);
    GroupBound(Leb(g), x, 7 * |g|);
    if 7 * |g| < w {
      GroupInWord(Leb(g), x, 7 * |g|, w);
    } else {
      GroupPastWord(Leb(g), x, 7 * |g|, w);
    }
  }

  lemma GroupBound(v: nat, x: nat, s: nat)
    requires x < 128 && v < Pow2(s)
    ensures v + x * Pow2(s) < Pow2(s + 7)
  {
    Pow2Add(s, 7);
    assert Pow2(7) == 128;
    assert x * Pow2(s) <= 127 * Pow2(s);
  }

  lemma GroupInWord(v: nat, x: nat, s: nat, w: nat)
    requires s < w && v < Pow2(s)
    ensures Or(v % Pow2(w), Shl(x, s, w)) == (v + x * Pow2(s)) % Pow2(w)
  {
    Pow2Divides(s, w);
    DivModUnique(v, Pow2(w), 0, v);
    LowAdd(v, x, s, w);
    OrDisjoint(v, Shl(x, s, w), s);
  }

  lemma GroupPastWord(v: nat, x: nat, s: nat, w: nat)
    requires s >= w
    ensures Or(v % Pow2(w), Shl(x, s, w)) == (v + x * Pow2(s)) % Pow2(w)
  {
    HighShiftVanishes(x, s, w);
    Pow2Divides(w, s);
    PastWord(v, x, Pow2(s), Pow2(w), Pow2(s - w));
  }

  lemma PastWord(v: nat, x: nat, p: nat, w: nat, q: nat)
    requires w > 0 && p == w * q
    ensures (v + x * p) % w == v % w
  {
    assert x * p == w * (x * q);
    ModAddMultiple(v, x * q, w);
  }

  /** Bit 7 of a byte is set exactly when the byte is at least 128. */
  lemma HighBit(b: Byte)
    ensures And(b, 0x80) != 0 <==> b >= 128
  {
    assert Pow2(7) == 128;
    AndPow2(b, 7);
  }

  lemma LowBits(b: Byte)
    ensures And(b, 0x7F) == b % 128
  {
    assert Pow2(7) == 128;
    AndMask(b, 7);
  }

  lemma GroupsFront(s: Bytes)
    requires |s| > 0
    ensures Groups(s) == [s[0] % 128] + (if s[0] >= 128 then Groups(s[1..]) else [])
    ensures Width(s) == if s[0] >= 128 then 1 + Width(s[1..]) else 1
  {
  }

  /** Reading the varint of `data[from..]` has reached `next`, with the
      groups `g` so far ORed into `acc`. */
  predicate Reading(data: Bytes, from: nat, next: nat, g: seq<nat>, acc: nat, w: nat) {
    && from <= next <= |data|
    && acc == Leb(g) % Pow2(w) && Leb(g) < Pow2(7 * |g|)
    && Groups(data[from..]) == g + Groups(data[next..])
    && Width(data[from..]) == (next - from) + Width(data[next..])
  }

  /** One pass of the do-while: the byte at `next` read and ORed in; the
      loop goes on exactly while its bit 7 was set. */
  lemma ReadStep(data: Bytes, from: nat, next: nat, g: seq<nat>, acc: nat, w: nat)
    requires Reading(data, from, next, g, acc, w) && next < |data|
    ensures var b := data[next];
            var acc' := Or(acc, Shl(And(b, 0x7F), 7 * |g|, w));
            var g' := g + [b % 128];
            && (And(b, 0x80) != 0 ==> Reading(data, from, next + 1, g', acc', w))
            && (And(b, 0x80) == 0 ==> acc' == Leb(Groups(data[from..])) % Pow2(w)
                                      && next + 1 == from + Width(data[from..]))
  {
    var b := data[next];
    GroupsFront(data[next..]);
    assert data[next..][1..] == data[next + 1..];
    LowBits(b);
    HighBit(b);
    GroupStep(g, b % 128, acc, w);
    if b >= 128 {
      BlockStrings.Regroup(g, [b % 128], Groups(data[next + 1..]), Groups(data[from..]));
    } else {
      assert Groups(data[next..]) == [b % 128];
      assert Groups(data[from..]) == g + [b % 128];
    }
  }

  /** The state of the do-while between passes: reading goes on while
      `more`, and once it stops, `acc` holds the word and `next` the first
      byte after the varint. */
  predicate Pass(data: Bytes, from: nat, next: nat, g: seq<nat>, acc: nat, w: nat, shift: nat, more: bool) {
    && from <= next <= |data| && shift == 7 * |g|
    && (more ==> Reading(data, from, next, g, acc, w))
    && (!more ==> acc == Leb(Groups(data[from..])) % Pow2(w) && next == from + Width(data[from..]))
  }

  lemma PassStep(data: Bytes, from: nat, next: nat, g: seq<nat>, acc: nat, w: nat, shift: nat)
    requires Pass(data, from, next, g, acc, w, shift, true) && next < |data|
    ensures var b := data[next];
            Pass(data, from, next + 1, g + [b % 128], Or(acc, Shl(And(b, 0x7F), shift, w)), w, shift + 7, And(b, 0x80) != 0)
  {
    ReadStep(data, from, next, g, acc, w);
  }

  lemma PassEnd(data: Bytes, from: nat, next: nat, g: seq<nat>, acc: nat, w: nat, shift: nat)
    requires Pass(data, from, next, g, acc, w, shift, true) && next >= |data|
    ensures Pass(data, from, next, g, acc, w, shift, false)
  {
    assert data[next..] == [];
    assert g + [] == g;
  }

  lemma ReadStart(data: Bytes, from: nat, w: nat)
    requires from <= |data|
    ensures Reading(data, from, from, [], 0, w)
  {
    assert [] + Groups(data[from..]) == Groups(data[from..]);
    assert 0 % Pow2(w) == 0;
  }

  /** The inner do-while of `decodeVarIntArray`: one varint read from
      `data[from..]`, ORing each group into `value` at the next shift. */
  method ReadVarInt(data: Bytes, from: nat) returns (value: int, next: nat)
    requires from < |data|
    ensures value == VarIntValue(data[from..])
    ensures next == from + Width(data[from..])
  {
    var bits: nat := 32;
    var acc: nat := 0;
    var shift: nat := 0;
    ghost var g: seq<nat> := [];
    next := from;
    var more := true;
    ReadStart(data, from, bits);
    while more
      invariant bits == 32 && Pass(data, from, next, g, acc, bits, shift, more)
      decreases |data| - next, more
    {
      if next >= |data| {
        PassEnd(data, from, next, g, acc, bits, shift);
        more := false;
      } else {
        var b := data[next];
        PassStep(data, from, next, g, acc, bits, shift);
        acc := Or(acc, Shl(And(b, 0x7F), shift, bits));
        shift := shift + 7;
        more := And(b, 0x80) != 0;
        g := g + [b % 128];
        next := next + 1;
      }
    }
    Pow2Word(bits);
    value := WrapI32(acc);
  }

  lemma DecodeStart(data: Bytes, total: nat)
    ensures [] + VarInts(data[0..], total) == VarInts(data, total)
  {
    assert data[0..] == data;
  }

  /** One more varint read off the front of what is left. */
  lemma DecodeStep(data: Bytes, i: nat, done: seq<int>, left: nat, value: int, next: nat)
    requires i < |data| && left > 0
    requires value == VarIntValue(data[i..]) && next == i + Width(data[i..])
    ensures next <= |data|
    ensures (done + [value]) + VarInts(data[next..], left - 1) == done + VarInts(data[i..], left)
  {
    var s := data[i..];
    assert s[Width(s)..] == data[next..];
    assert VarInts(s, left) == [value] + VarInts(data[next..], left - 1);
    BlockStrings.Regroup(done, [value], VarInts(data[next..], left - 1), done + VarInts(s, left));
  }

  /** `decodeVarIntArray`: `reserve` throws `length_error` on a negative
      count; otherwise the values of `VarInts`. */
  method DecodeVarIntArray(data: Bytes, totalBlocks: int) returns (r: Result<seq<int>>)
    ensures totalBlocks < 0 ==> r == Err("length_error")
    ensures totalBlocks >= 0 ==> r == Ok(VarInts(data, totalBlocks))
  {
    if totalBlocks < 0 {
      return Err("length_error");
    }
    var result: seq<int> := [];
    var byteIndex: nat := 0;
    ghost var left: nat := totalBlocks;
    ghost var rest := VarInts(data, totalBlocks);
    DecodeStart(data, totalBlocks);
    while |result| < totalBlocks && byteIndex < |data|
      invariant byteIndex <= |data| && left == totalBlocks - |result|
      invariant rest == VarInts(data[byteIndex..], left)
      invariant result + rest == VarInts(data, totalBlocks)
      decreases |data| - byteIndex
    {
      var value, next := ReadVarInt(data, byteIndex);
      DecodeStep(data, byteIndex, result, left, value, next);
      result := result + [value];
      byteIndex := next;
      left := left - 1;
      rest := VarInts(data[byteIndex..], left);
    }
    assert rest == [];
    assert result + [] == result;
    return Ok(result);
  }

  /** The encoder the format assumes: seven bits at a time, low first, bit 7
      set on every byte but the last. */
  function Encode(v: nat): (s: Bytes)
    ensures |s| >= 1
  {
    if v < 128 then [v] else [v % 128 + 128] + Encode(v / 128)
  }

  function EncodeAll(vs: seq<nat>): Bytes {
    if |vs| == 0 then [] else Encode(vs[0]) + EncodeAll(vs[1..])
  }

  lemma {:induction false} EncodeReads(v: nat, rest: Bytes)
    ensures Leb(Groups(Encode(v) + rest)) == v
    ensures Width(Encode(v) + rest) == |Encode(v)|
    decreases v
  {
    var s := Encode(v) + rest;
    if v >= 128 {
      assert s[1..] == Encode(v / 128) + rest;
      EncodeReads(v / 128, rest);
    }
  }

  /** One encoded value read back, whatever follows it. */
  lemma OneEncoded(v: nat, tail: Bytes)
    requires v < 0x8000_0000
    ensures VarIntValue(Encode(v) + tail) == v
    ensures Width(Encode(v) + tail) == |Encode(v)|
    ensures (Encode(v) + tail)[|Encode(v)|..] == tail
  {
    EncodeReads(v, tail);
  }

  /** Decoding the encoding of non-negative `int`s gives them back, whatever
      follows them. */
  lemma {:induction false} VarIntsOfEncoded(vs: seq<nat>, rest: Bytes)
    requires forall j :: 0 <= j < |vs| ==> vs[j] < 0x8000_0000
    ensures VarInts(EncodeAll(vs) + rest, |vs|) == vs
    decreases |vs|
  {
    if |vs| > 0 {
      var tail := EncodeAll(vs[1..]) + rest;
      var s := Encode(vs[0]) + tail;
      assert EncodeAll(vs) + rest == s;
      OneEncoded(vs[0], tail);
      VarIntsOfEncoded(vs[1..], rest);
      assert VarInts(s, |vs|) == [vs[0]] + VarInts(tail, |vs| - 1);
      assert [vs[0]] + vs[1..] == vs;
    }
  }

  lemma {:induction false} AllContinue(s: Bytes)
    requires forall j :: 0 <= j < |s| ==> s[j] >= 128
    ensures Width(s) == |s|
    decreases |s|
  {
    if |s| > 0 {
      AllContinue(s[1..]);
    }
  }

  /** A varint cut short by the end of the data, every byte with bit 7 set,
      still gives one value. */
  lemma TruncatedTail(s: Bytes, count: nat)
    requires |s| > 0 && count > 0
    requires forall j :: 0 <= j < |s| ==> s[j] >= 128
    ensures VarInts(s, count) == [VarIntValue(s)]
  {
    AllContinue(s);
    assert s[|s|..] == [];
  }

  // ---------------------------------------------------------------------------
  // The palette: `paletteMap` indexed by id, sized by the largest id.

  /** A palette entry as the NBT compound lists it: block string and id. */
  type PaletteEntry = (string, int)

  /** `maxPaletteId`: -1 for an empty palette. */
  function MaxId(entries: seq<PaletteEntry>): (m: int)
    ensures m >= -1
    ensures forall j :: 0 <= j < |entries| ==> entries[j].1 <= m
    ensures m >= 0 ==> exists j :: 0 <= j < |entries| && entries[j].1 == m
  {
    if |entries| == 0 then -1
    else
      var m := MaxId(entries[..|entries| - 1]);
      var id := entries[|entries| - 1].1;
      assert forall j :: 0 <= j < |entries| - 1 ==> entries[..|entries| - 1][j] == entries[j];
      if id > m then id else m
  }

  /** Ids the importer can store: non-negative (a negative id indexes outside
      the vector) and below `INT_MAX` (`maxPaletteId + 1` must not
      overflow). */
  predicate ValidIds(entries: seq<PaletteEntry>) {
    forall j :: 0 <= j < |entries| ==> 0 <= entries[j].1 < 0x7FFF_FFFF
  }

  /** The table after storing the entries in order into `size` empty
      slots. */
  function Placed(entries: seq<PaletteEntry>, size: nat): (t: seq<string>)
    requires forall j :: 0 <= j < |entries| ==> 0 <= entries[j].1 < size
    ensures |t| == size
  {
    if |entries| == 0 then seq(size, _ => "")
    else
      var last := entries[|entries| - 1];
      Placed(entries[..|entries| - 1], size)[last.1 := last.0]
  }

  /** The last entry with id `p`. */
  function LastId(entries: seq<PaletteEntry>, p: int): (r: Option<nat>)
    ensures r.Some? ==> r.value < |entries| && entries[r.value].1 == p
    ensures r.Some? ==> forall j :: r.value < j < |entries| ==> entries[j].1 != p
    ensures r.None? ==> forall j :: 0 <= j < |entries| ==> entries[j].1 != p
  {
    if |entries| == 0 then None
    else if entries[|entries| - 1].1 == p then Some(|entries| - 1)
    else
      var r := LastId(entries[..|entries| - 1], p);
      assert forall j :: 0 <= j < |entries| - 1 ==> entries[..|entries| - 1][j] == entries[j];
      r
  }

  /** Slot `p` holds the name of the last entry with id `p`, or "" when no
      entry has that id. */
  lemma {:induction false} PlacedSlot(entries: seq<PaletteEntry>, size: nat, p: nat)
    requires forall j :: 0 <= j < |entries| ==> 0 <= entries[j].1 < size
    requires p < size
    ensures Placed(entries, size)[p] == match LastId(entries, p) case Some(j) => entries[j].0 case None => ""
    decreases |entries|
  {
    if |entries| > 0 {
      PlacedSlot(entries[..|entries| - 1], size, p);
    }
  }

  /** The two palette loops of `convert`: the largest id, then each entry
      stored at its id in a vector of `maxPaletteId + 1` empty names. */
  method BuildPalette(entries: seq<PaletteEntry>) returns (names: seq<string>)
    requires ValidIds(entries)
    ensures names == Placed(entries, MaxId(entries) + 1)
  {
    var maxPaletteId := -1;
    var i := 0;
    while i < |entries|
      invariant 0 <= i <= |entries|
      invariant maxPaletteId == MaxId(entries[..i])
    {
      assert entries[..i + 1][..i] == entries[..i];
      if entries[i].1 > maxPaletteId {
        maxPaletteId := entries[i].1;
      }
      i := i + 1;
    }
    assert entries[..|entries|] == entries;
    names := seq(maxPaletteId + 1, _ => "");
    i := 0;
    while i < |entries|
      invariant 0 <= i <= |entries|
      invariant names == Placed(entries[..i], maxPaletteId + 1)
    {
      assert entries[..i + 1][..i] == entries[..i];
      names := names[entries[i].1 := entries[i].0];
      i := i + 1;
    }
  }

  /** One air flag per slot. */
  function AirFlags(names: seq<string>): (air: seq<bool>)
    ensures |air| == |names|
    ensures forall p :: 0 <= p < |names| ==> (air[p] <==> IsAir(names[p]))
  {
    if |names| == 0 then []
    else AirFlags(names[..|names| - 1]) + [IsAir(names[|names| - 1])]
  }

  /** `isAirPalette`: the flags filled slot by slot. */
  method AirFilter(names: seq<string>) returns (air: seq<bool>)
    ensures air == AirFlags(names)
  {
    air := [];
    var i := 0;
    while i < |names|
      invariant 0 <= i <= |names|
      invariant air == AirFlags(names[..i])
    {
      assert names[..i + 1][..i] == names[..i];
      air := air + [IsAir(names[i])];
      i := i + 1;
    }
    assert names[..|names|] == names;
  }

  // ---------------------------------------------------------------------------
  // The YZX walk.

  /** Everything the walk reads: the converter table, the id-indexed names,
      their air flags, the decoded indices and the box. */
  /** The block a palette name becomes: parsed with `waterlogged` dropped,
      then converted. */
  function Converted(table: map<string, string>, name: string): Block {
    var parsed := ParseBlock(name, DropWaterlogged);
    Convert(table, parsed.0, parsed.1)
  }

  /** The converted block of every palette name. */
  function Blocks(table: map<string, string>, names: seq<string>): (bs: seq<Block>)
    ensures |bs| == |names|
    ensures forall p :: 0 <= p < |names| ==> bs[p] == Converted(table, names[p])
  {
    if |names| == 0 then [] else [Converted(table, names[0])] + Blocks(table, names[1..])
  }

  /** What the walk over the box reads: the conversion table, the palette
      names with their air flags, the decoded palette ids and the
      dimensions; `blocks` holds, for the proofs only, the block each
      palette name converts to. */
  datatype Scene = Scene(table: map<string, string>, names: seq<string>, air: seq<bool>,
                         indices: seq<int>, w: int, h: int, l: int, ghost blocks: seq<Block>)

  /** A walk that stays inside the indices, with the air flags and the
      converted blocks of the names. */
  ghost predicate Valid(sc: Scene) {
    && sc.w > 0 && sc.h > 0 && sc.l > 0
    && |sc.indices| >= sc.w * sc.h * sc.l
    && |sc.air| == |sc.names| && |sc.blocks| == |sc.names|
    && (forall p {:trigger sc.air[p]} :: 0 <= p < |sc.names| ==> (sc.air[p] <==> IsAir(sc.names[p])))
    && (forall p {:trigger sc.blocks[p]} :: 0 <= p < |sc.names| ==> sc.blocks[p] == Converted(sc.table, sc.names[p]))
  }

  /** A cell whose palette id names a stored, non-air block. */
  ghost predicate Kept(sc: Scene, k: int)
    requires Valid(sc)
  {
    0 <= k < |sc.indices| && 0 <= sc.indices[k] < |sc.names| && !sc.air[sc.indices[k]]
  }

  /** The call for cell (x, y, z), which reads flat index `x + z*w + y*w*l`:
      none for a skipped cell. */
  ghost function Cell(sc: Scene, x: int, y: int, z: int): seq<Call>
    requires Valid(sc)
  {
    var k := Index(x, y, z, sc.w, sc.l);
    if !Kept(sc, k) then [] else
      var b := sc.blocks[sc.indices[k]];
      [Calls.AddBlock(x, y, z, b.0, b.1)]
  }

  /** The calls for the first `n` cells of row (y, z), `x` ascending. */
  ghost function RowCalls(sc: Scene, y: int, z: int, n: int): seq<Call>
    requires Valid(sc)
    decreases n
  {
    if n <= 0 then [] else RowCalls(sc, y, z, n - 1) + Cell(sc, n - 1, y, z)
  }

  /** The calls for the first `n` rows of layer `y`, `z` ascending. */
  ghost function LayerCalls(sc: Scene, y: int, n: int): seq<Call>
    requires Valid(sc)
    decreases n
  {
    if n <= 0 then [] else LayerCalls(sc, y, n - 1) + RowCalls(sc, y, n - 1, sc.w)
  }

  /** The calls for the first `n` layers, `y` ascending. */
  ghost function BoxCalls(sc: Scene, n: int): seq<Call>
    requires Valid(sc)
    decreases n
  {
    if n <= 0 then [] else BoxCalls(sc, n - 1) + LayerCalls(sc, n - 1, sc.l)
  }

  /** A cell of the box reads an index inside the decoded array. */
  lemma InBox(sc: Scene, x: int, y: int, z: int)
    requires Valid(sc) && 0 <= x < sc.w && 0 <= y < sc.h && 0 <= z < sc.l
    ensures 0 <= Index(x, y, z, sc.w, sc.l) < |sc.indices|
  {
    IndexInBox(x, y, z, sc.w, sc.h, sc.l);
  }

  lemma Append3Calls(a: seq<Call>, b: seq<Call>, c: seq<Call>)
    ensures a + b + c == a + (b + c)
  {
  }

  /** The block for one palette name, as the loop body computes it. */
  method ConvertName(table: map<string, string>, name: string) returns (b: Block)
    ensures b == Converted(table, name)
  {
    var parsed := ParseBlockString(name, DropWaterlogged);
    b := Convert(table, parsed.0, parsed.1);
  }

  /** The body of the `x` loop: cell (x, y, z) skipped when its palette id
      is out of range or air, else its converted block added. */
  method EmitCell(sc: Scene, x: int, y: int, z: int, out: seq<Call>) returns (r: seq<Call>)
    requires Valid(sc) && 0 <= x < sc.w && 0 <= y < sc.h && 0 <= z < sc.l
    ensures r == out + Cell(sc, x, y, z)
  {
    var index := x + z * sc.w + y * sc.w * sc.l;
    InBox(sc, x, y, z);
    var paletteId := sc.indices[index];
    if paletteId < 0 || paletteId >= |sc.names| || sc.air[paletteId] {
      assert !Kept(sc, index);
      r := out;
      assert out + [] == out;
    } else {
      var be := ConvertName(sc.table, sc.names[paletteId]);
      assert Kept(sc, index) && be == sc.blocks[paletteId];
      r := out + [Calls.AddBlock(x, y, z, be.0, be.1)];
    }
  }

  /** The `x` loop for one row. */
  method EmitRow(sc: Scene, y: int, z: int, out: seq<Call>) returns (r: seq<Call>)
    requires Valid(sc) && 0 <= y < sc.h && 0 <= z < sc.l
    ensures r == out + RowCalls(sc, y, z, sc.w)
  {
    r := out;
    var x := 0;
    while x < sc.w
      invariant 0 <= x <= sc.w
      invariant r == out + RowCalls(sc, y, z, x)
    {
      r := EmitCell(sc, x, y, z, r);
      Append3Calls(out, RowCalls(sc, y, z, x), Cell(sc, x, y, z));
      x := x + 1;
    }
  }

  /** The `z` loop for one layer. */
  method EmitLayer(sc: Scene, y: int, out: seq<Call>) returns (r: seq<Call>)
    requires Valid(sc) && 0 <= y < sc.h
    ensures r == out + LayerCalls(sc, y, sc.l)
  {
    r := out;
    var z := 0;
    while z < sc.l
      invariant 0 <= z <= sc.l
      invariant r == out + LayerCalls(sc, y, z)
    {
      r := EmitRow(sc, y, z, r);
      Append3Calls(out, LayerCalls(sc, y, z), RowCalls(sc, y, z, sc.w));
      z := z + 1;
    }
  }

  /** The `y` loop: every cell of the box. */
  method EmitBox(sc: Scene) returns (r: seq<Call>)
    requires Valid(sc)
    ensures r == BoxCalls(sc, sc.h)
  {
    r := [];
    var y := 0;
    while y < sc.h
      invariant 0 <= y <= sc.h
      invariant r == BoxCalls(sc, y)
    {
      r := EmitLayer(sc, y, r);
      y := y + 1;
    }
  }

  // ---------------------------------------------------------------------------
  // The whole import.

  /** The calls the importer makes: `length_error` before any call when the
      `int` product of the dimensions is negative; otherwise one call per
      kept cell in YZX order, then `finalize`. */
  ghost function Expected(table: map<string, string>, w: int, h: int, l: int,
                          entries: seq<PaletteEntry>, data: Bytes): Result<seq<Call>>
    requires ValidIds(entries)
    requires w > 0 && h > 0 && l > 0 ==> |VarInts(data, w * h * l)| >= w * h * l
  {
    var total := w * h * l;
    if total < 0 then Err("length_error")
    else if w <= 0 || h <= 0 || l <= 0 then Ok([Calls.Finalize])
    else
      var names := Placed(entries, MaxId(entries) + 1);
      var sc := Scene(table, names, AirFlags(names), VarInts(data, total), w, h, l, Blocks(table, names));
      Ok(BoxCalls(sc, h) + [Calls.Finalize])
  }

  /** `convert` after the NBT read: the palette table, the air flags, the
      decoded indices and the YZX walk. The dimensions are `int16`, their
      product an `int`, and the block data must hold a varint for every
      cell of a non-empty box (the walk reads `blockIndices` unchecked). */
  method Import(table: map<string, string>, w: int, h: int, l: int,
                entries: seq<PaletteEntry>, data: Bytes) returns (r: Result<seq<Call>>)
    requires -0x8000 <= w < 0x8000 && -0x8000 <= h < 0x8000 && -0x8000 <= l < 0x8000
    requires -0x8000_0000 <= w * h * l < 0x8000_0000
    requires ValidIds(entries)
    requires w > 0 && h > 0 && l > 0 ==> |VarInts(data, w * h * l)| >= w * h * l
    ensures r == Expected(table, w, h, l, entries, data)
  {
    var names := BuildPalette(entries);
    var air := AirFilter(names);
    var decoded := DecodeVarIntArray(data, w * h * l);
    if decoded.Err? {
      return Err(decoded.msg);
    }
    var calls: seq<Call> := [];
    if w > 0 && h > 0 && l > 0 {
      var sc := Scene(table, names, air, decoded.value, w, h, l, Blocks(table, names));
      calls := EmitBox(sc);
      assert Expected(table, w, h, l, entries, data) == Ok(calls + [Calls.Finalize]);
    } else {
      assert calls + [Calls.Finalize] == [Calls.Finalize];
    }
    return Ok(calls + [Calls.Finalize]);
  }

  // ---------------------------------------------------------------------------
  // What the walk writes.

  /** Some call of `calls` adds a block at (x, y, z). */
  predicate AddsAt(calls: seq<Call>, x: int, y: int, z: int) {
    exists c :: c in calls && c.AddBlock? && c.x == x && c.y == y && c.z == z
  }

  lemma {:induction false} RowFrom(sc: Scene, y: int, z: int, n: int, c: Call)
    requires Valid(sc)
    requires c in RowCalls(sc, y, z, n)
    ensures exists x :: 0 <= x < n && c in Cell(sc, x, y, z)
    decreases n
  {
    if c in Cell(sc, n - 1, y, z) {
      assert 0 <= n - 1 < n;
    } else {
      RowFrom(sc, y, z, n - 1, c);
    }
  }

  lemma {:induction false} LayerFrom(sc: Scene, y: int, n: int, c: Call)
    requires Valid(sc)
    requires c in LayerCalls(sc, y, n)
    ensures exists z :: 0 <= z < n && c in RowCalls(sc, y, z, sc.w)
    decreases n
  {
    if c in RowCalls(sc, y, n - 1, sc.w) {
      assert 0 <= n - 1 < n;
    } else {
      LayerFrom(sc, y, n - 1, c);
    }
  }

  lemma {:induction false} BoxFrom(sc: Scene, n: int, c: Call)
    requires Valid(sc)
    requires c in BoxCalls(sc, n)
    ensures exists y :: 0 <= y < n && c in LayerCalls(sc, y, sc.l)
    decreases n
  {
    if c in LayerCalls(sc, n - 1, sc.l) {
      assert 0 <= n - 1 < n;
    } else {
      BoxFrom(sc, n - 1, c);
    }
  }

  lemma {:induction false} RowHas(sc: Scene, y: int, z: int, n: int, x: int, c: Call)
    requires Valid(sc)
    requires 0 <= x < n && c in Cell(sc, x, y, z)
    ensures c in RowCalls(sc, y, z, n)
    decreases n
  {
    if x < n - 1 {
      RowHas(sc, y, z, n - 1, x, c);
    }
  }

  lemma {:induction false} LayerHas(sc: Scene, y: int, n: int, z: int, c: Call)
    requires Valid(sc)
    requires 0 <= z < n && c in RowCalls(sc, y, z, sc.w)
    ensures c in LayerCalls(sc, y, n)
    decreases n
  {
    if z < n - 1 {
      LayerHas(sc, y, n - 1, z, c);
    }
  }

  lemma {:induction false} BoxHas(sc: Scene, n: int, y: int, c: Call)
    requires Valid(sc)
    requires 0 <= y < n && c in LayerCalls(sc, y, sc.l)
    ensures c in BoxCalls(sc, n)
    decreases n
  {
    if y < n - 1 {
      BoxHas(sc, n - 1, y, c);
    }
  }

  /** The walk adds a block at (x, y, z) exactly when the cell is inside the
      box and its palette id names a stored non-air block, and the block it
      adds there is that name's converted block. */
  lemma AddsAtKept(sc: Scene, x: int, y: int, z: int)
    requires Valid(sc)
    ensures var k := Index(x, y, z, sc.w, sc.l);
            AddsAt(BoxCalls(sc, sc.h), x, y, z) <==>
              && 0 <= x < sc.w && 0 <= y < sc.h && 0 <= z < sc.l && 0 <= k < |sc.indices|
              && 0 <= sc.indices[k] < |sc.names| && !IsAir(sc.names[sc.indices[k]])
    ensures var k := Index(x, y, z, sc.w, sc.l);
            && 0 <= x < sc.w && 0 <= y < sc.h && 0 <= z < sc.l && 0 <= k < |sc.indices|
            && 0 <= sc.indices[k] < |sc.names| && !IsAir(sc.names[sc.indices[k]]) ==>
              var b := Converted(sc.table, sc.names[sc.indices[k]]);
              Calls.AddBlock(x, y, z, b.0, b.1) in BoxCalls(sc, sc.h)
  {
    var k := Index(x, y, z, sc.w, sc.l);
    if AddsAt(BoxCalls(sc, sc.h), x, y, z) {
      var c :| c in BoxCalls(sc, sc.h) && c.AddBlock? && c.x == x && c.y == y && c.z == z;
      BoxFrom(sc, sc.h, c);
      var y' :| 0 <= y' < sc.h && c in LayerCalls(sc, y', sc.l);
      LayerFrom(sc, y', sc.l, c);
      var z' :| 0 <= z' < sc.l && c in RowCalls(sc, y', z', sc.w);
      RowFrom(sc, y', z', sc.w, c);
      var x' :| 0 <= x' < sc.w && c in Cell(sc, x', y', z');
      assert x' == x && y' == y && z' == z;
      assert Kept(sc, k);
    }
    if && 0 <= x < sc.w && 0 <= y < sc.h && 0 <= z < sc.l && 0 <= k < |sc.indices|
       && 0 <= sc.indices[k] < |sc.names| && !IsAir(sc.names[sc.indices[k]]) {
      assert Kept(sc, k);
      var b := sc.blocks[sc.indices[k]];
      var c := Calls.AddBlock(x, y, z, b.0, b.1);
      assert Cell(sc, x, y, z) == [c];
      RowHas(sc, y, z, sc.w, x, c);
      LayerHas(sc, y, sc.l, z, c);
      BoxHas(sc, sc.h, y, c);
    }
  }

}

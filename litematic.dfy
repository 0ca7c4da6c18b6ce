/** LitematicToBCF.hpp: the Litematica `.litematic` importer after its NBT
    has been read. Each region comes in as a value (position, size, palette
    and the packed `BlockStates` longs); the importer normalises a negative
    size, unpacks one palette index per cell, walks the box in YZX order and
    drives the cached writer with one `addBlock` per kept cell, and ends with
    `finalize`. */
module Litematic {
  import opened Wrappers
  import opened LittleEndian
  import opened Bits
  import opened BlockStrings
  import opened Converter
  import opened Cells
  import opened Air
  import Calls

  type Call = Calls.Call<string>

  // ---------------------------------------------------------------------------
  // The packed block states (`decodeBlockStates`).

  /** The `BlockStates` longs as one bit string, long 0 in the lowest 64
      bits, each long read as `uint64_t`. */
  function Stream(longs: seq<int>): nat
    decreases |longs|
  {
    if |longs| == 0 then 0 else WrapU64(longs[0]) + 0x1_0000_0000_0000_0000 * Stream(longs[1..])
  }

  /** Entry `i` of a packing `b` bits wide: bits `[i*b, i*b + b)` of the
      stream, lowest first, the bits past the end of the array being 0. */
  function Field(longs: seq<int>, i: nat, b: nat): (v: nat)
    ensures v < Pow2(b)
  {
    (Stream(longs) / Pow2(i * b)) % Pow2(b)
  }

  /** The width the decoder unpacks with: a width of 0 or less reads as 1. */
  function UsedBits(bitsPerBlock: int): nat {
    if bitsPerBlock <= 0 then 1 else bitsPerBlock
  }

  /** The indices `decodeBlockStates` returns for `total` entries: each
      field cast to `int`. */
  function Decoded(longs: seq<int>, total: nat, b: nat): seq<int> {
    seq(total, i requires 0 <= i => WrapI32(Field(longs, i, b)))
  }

  lemma Pow2Long(w: nat)
    requires w == 64
    ensures Pow2(w) == 0x1_0000_0000_0000_0000
  {
    Pow2Of32();
    Pow2Add(32, 32);
  }

  /** A stream of `n` longs is below `2^(64n)`. */
  lemma {:induction false} StreamBound(longs: seq<int>, w: nat)
    requires w == 64
    ensures Stream(longs) < Pow2(w * |longs|)
    decreases |longs|
  {
    if |longs| > 0 {
      var n := |longs| - 1;
      StreamBound(longs[1..], w);
      Pow2Long(w);
      Pow2Add(w, w * n);
      assert w + w * n == w * |longs|;
      MulBelow(Pow2(w), Stream(longs[1..]), Pow2(w * n));
    }
  }

  /** The stream from long `k` on is the stream shifted right by `64k`. */
  lemma {:induction false} StreamDrop(longs: seq<int>, k: nat, w: nat)
    requires w == 64 && k <= |longs|
    ensures Stream(longs) / Pow2(w * k) == Stream(longs[k..])
    decreases k
  {
    if k == 0 {
      assert longs[0..] == longs;
    } else {
      var t := longs[1..];
      StreamDrop(t, k - 1, w);
      assert t[k - 1..] == longs[k..];
      Pow2Long(w);
      Pow2Add(w, w * (k - 1));
      assert w + w * (k - 1) == w * k;
      DivDiv(Stream(longs), Pow2(w), Pow2(w * (k - 1)));
      DivModUnique(Stream(longs), Pow2(w), Stream(t), WrapU64(longs[0]));
    }
  }

  /** Dividing by a product is dividing by each factor in turn. */
  lemma DivDiv(n: nat, a: nat, c: nat)
    requires a > 0 && c > 0
    ensures n / (a * c) == (n / a) / c
  {
    var q := (n / a) / c;
    var r := (n / a) % c;
    assert n == a * (n / a) + n % a;
    assert n / a == c * q + r;
    assert n == (a * c) * q + (a * r + n % a);
    MulBelow(a, r, c);
    DivModUnique(n, a * c, q, a * r + n % a);
  }

  /** An entry whose first bit lies in long `li`, at bit `off` of it, is
      read from the stream of the longs from `li` on. */
  lemma FieldFrom(longs: seq<int>, i: nat, b: nat, li: nat, off: nat, w: nat)
    requires w == 64 && li <= |longs| && i * b == w * li + off
    ensures Field(longs, i, b) == (Stream(longs[li..]) / Pow2(off)) % Pow2(b)
  {
    StreamShift(longs, i * b, li, off, w);
  }

  lemma StreamShift(longs: seq<int>, s: nat, li: nat, off: nat, w: nat)
    requires w == 64 && li <= |longs| && s == w * li + off
    ensures Stream(longs) / Pow2(s) == Stream(longs[li..]) / Pow2(off)
  {
    assert Pow2(s) == Pow2(w * li) * Pow2(off) by {
      Pow2Add(w * li, off);
    }
    DivDiv(Stream(longs), Pow2(w * li), Pow2(off));
    StreamDrop(longs, li, w);
  }

  /** An entry starting past the last long is 0. */
  lemma FieldPastEnd(longs: seq<int>, i: nat, b: nat, w: nat)
    requires w == 64 && i * b >= w * |longs|
    ensures Field(longs, i, b) == 0
  {
    StreamBound(longs, w);
    Pow2Divides(w * |longs|, i * b);
    DivModUnique(Stream(longs), Pow2(i * b), 0, Stream(longs));
  }

  /** Shifting a long and the longs above it right by `off < 64` bits. */
  lemma ShiftWord(lo: nat, hi: nat, off: nat, w: nat)
    requires lo < Pow2(w) && off < w
    ensures (lo + Pow2(w) * hi) / Pow2(off) == lo / Pow2(off) + Pow2(w - off) * hi
    ensures lo / Pow2(off) < Pow2(w - off)
  {
    Pow2Divides(off, w);
    ShiftArith(lo, hi, Pow2(off), Pow2(w - off), Pow2(w));
  }

  lemma ShiftArith(lo: nat, hi: nat, p: nat, q: nat, pq: nat)
    requires p > 0 && q > 0 && pq == p * q && lo < pq
    ensures (lo + pq * hi) / p == lo / p + q * hi
    ensures lo / p < q
  {
    var x := lo / p;
    assert lo == p * x + lo % p;
    assert pq * hi == p * (q * hi);
    DivModUnique(lo + pq * hi, p, x + q * hi, lo % p);
    if x >= q {
      MulMono(p, q, x);
    }
  }

  /** A multiple of the modulus added on top changes no remainder. */
  lemma DropHigh(x: nat, a: nat, t: nat, m: nat, r: nat)
    requires m > 0 && a == m * r
    ensures (x + a * t) % m == x % m
  {
    assert a * t == m * (r * t);
    ModAddMultiple(x, r * t, m);
  }

  /** The bits of the next long but one start past the entry. */
  lemma DropAbove(x: nat, q: nat, hi: nat, p: nat, rest: nat, m: nat, r: nat)
    requires m > 0 && q * p == m * r
    ensures (x + q * (hi + p * rest)) % m == (x + q * hi) % m
  {
    assert q * (hi + p * rest) == q * hi + m * (r * rest);
    ModAddMultiple(x + q * hi, r * rest, m);
  }

  /** The longs from `li` on: long `li` in the low 64 bits, the rest above. */
  lemma StreamFront(longs: seq<int>, li: nat, w: nat)
    requires w == 64 && li < |longs|
    ensures Stream(longs[li..]) == WrapU64(longs[li]) + Pow2(w) * Stream(longs[li + 1..])
  {
    Pow2Long(w);
    assert longs[li..][1..] == longs[li + 1..];
  }

  /** Where entry `i` starts: long `li`, bit `off`. */
  predicate At(i: nat, b: nat, li: nat, off: nat) {
    off < 64 && i * b == 64 * li + off
  }

  /** An entry starting in long `li` reads the bits of that long from `off`
      up, then the longs above. */
  lemma FieldInLongs(longs: seq<int>, i: nat, b: nat, li: nat, off: nat, w: nat)
    requires w == 64 && At(i, b, li, off) && li < |longs|
    ensures Field(longs, i, b) ==
              (Shr(WrapU64(longs[li]), off) + Pow2(w - off) * Stream(longs[li + 1..])) % Pow2(b)
  {
    var lo, hi := WrapU64(longs[li]), Stream(longs[li + 1..]);
    FieldFrom(longs, i, b, li, off, w);
    assert Stream(longs[li..]) / Pow2(off) == Shr(lo, off) + Pow2(w - off) * hi by {
      StreamFront(longs, li, w);
      Pow2Long(w);
      ShiftWord(lo, hi, off, w);
      ShrDivides(lo, off);
    }
  }

  /** An entry in the last long reads that long alone. */
  lemma FieldLastLong(longs: seq<int>, i: nat, b: nat, li: nat, off: nat, w: nat)
    requires w == 64 && At(i, b, li, off) && li + 1 == |longs|
    ensures Field(longs, i, b) == Shr(WrapU64(longs[li]), off) % Pow2(b)
  {
    FieldInLongs(longs, i, b, li, off, w);
    assert longs[li + 1..] == [];
  }

  /** An entry that ends inside its first long reads that long alone. */
  lemma FieldInOneLong(longs: seq<int>, i: nat, b: nat, li: nat, off: nat, w: nat)
    requires w == 64 && At(i, b, li, off) && li < |longs| && off + b <= w
    ensures Field(longs, i, b) == Shr(WrapU64(longs[li]), off) % Pow2(b)
  {
    FieldInLongs(longs, i, b, li, off, w);
    InOneLongArith(Shr(WrapU64(longs[li]), off), Stream(longs[li + 1..]), off, b, w);
  }

  lemma InOneLongArith(x: nat, above: nat, off: nat, b: nat, w: nat)
    requires off + b <= w
    ensures (x + Pow2(w - off) * above) % Pow2(b) == x % Pow2(b)
  {
    Pow2Divides(b, w - off);
    DropHigh(x, Pow2(w - off), above, Pow2(b), Pow2(w - off - b));
  }

  /** An entry that crosses into the next long reads the top of its first
      long and the bottom of the next. */
  lemma FieldAcross(longs: seq<int>, i: nat, b: nat, li: nat, off: nat, w: nat)
    requires w == 64 && At(i, b, li, off) && li + 1 < |longs| && b < w
    ensures Field(longs, i, b) ==
              (Shr(WrapU64(longs[li]), off) + Pow2(w - off) * WrapU64(longs[li + 1])) % Pow2(b)
  {
    FieldInLongs(longs, i, b, li, off, w);
    StreamFront(longs, li + 1, w);
    AcrossArith(Shr(WrapU64(longs[li]), off), Stream(longs[li + 1..]), WrapU64(longs[li + 1]),
                Stream(longs[li + 2..]), off, b, w);
  }

  lemma AcrossArith(x: nat, above: nat, hi: nat, rest: nat, off: nat, b: nat, w: nat)
    requires off < w && b < w && above == hi + Pow2(w) * rest
    ensures (x + Pow2(w - off) * above) % Pow2(b) == (x + Pow2(w - off) * hi) % Pow2(b)
  {
    var e := w - off + w;
    Pow2Add(w - off, w);
    Pow2Divides(b, e);
    DropAbove(x, Pow2(w - off), hi, Pow2(w), rest, Pow2(b), Pow2(e - b));
  }

  /** `(x | (hi << (64 - off))) & mask` when `x` holds the top `64 - off`
      bits of a long: the two parts side by side, cut to `b` bits. */
  lemma SpliceArith(x: nat, hi: nat, off: nat, b: nat, w: nat)
    requires off < w && b <= w && x < Pow2(w - off)
    ensures And(Or(x, Shl(hi, w - off, w)), Pow2(b) - 1) == (x + Pow2(w - off) * hi) % Pow2(b)
  {
    var c := hi * Pow2(w - off);
    LowAdd(0, hi, w - off, w);
    OrDisjoint(x, Shl(hi, w - off, w), w - off);
    AndMask(x + c % Pow2(w), b);
    Pow2Divides(b, w);
    ModInner(x, c, Pow2(w), Pow2(b), Pow2(w - b));
    assert c == Pow2(w - off) * hi;
  }

  /** Keeping `P` bits, then `m` of them, is keeping `m` when `m` divides
      `P`. */
  lemma ModInner(x: nat, c: nat, P: nat, m: nat, r: nat)
    requires m > 0 && r > 0 && P == m * r
    ensures (x + c % P) % m == (x + c) % m
  {
    var q, t := c / P, c % P;
    assert c == P * q + t;
    assert P * q == m * (r * q);
    ModAddMultiple(x + t, r * q, m);
  }

  /** The loop body's value for an entry past the last long. */
  lemma EntryPastEnd(longs: seq<int>, i: nat, b: nat, li: nat, off: nat, w: nat)
    requires w == 64 && At(i, b, li, off) && li >= |longs|
    ensures Field(longs, i, b) == 0
  {
    FieldPastEnd(longs, i, b, w);
  }

  /** The loop body's value for an entry read from one long. */
  lemma EntryInLong(longs: seq<int>, i: nat, b: nat, li: nat, off: nat, w: nat)
    requires w == 64 && At(i, b, li, off) && li < |longs|
    requires !(off + b > w && li + 1 < |longs|)
    ensures And(Shr(WrapU64(longs[li]), off), Pow2(b) - 1) == Field(longs, i, b)
  {
    AndMask(Shr(WrapU64(longs[li]), off), b);
    if li + 1 == |longs| {
      FieldLastLong(longs, i, b, li, off, w);
    } else {
      FieldInOneLong(longs, i, b, li, off, w);
    }
  }

  /** The loop body's value for an entry spliced from two longs. */
  lemma EntryAcross(longs: seq<int>, i: nat, b: nat, li: nat, off: nat, w: nat)
    requires w == 64 && At(i, b, li, off) && li + 1 < |longs| && b < w
    ensures And(Or(Shr(WrapU64(longs[li]), off), Shl(WrapU64(longs[li + 1]), w - off, w)), Pow2(b) - 1)
            == Field(longs, i, b)
  {
    var lo, hi := WrapU64(longs[li]), WrapU64(longs[li + 1]);
    assert Shr(lo, off) < Pow2(w - off) by {
      Pow2Long(w);
      ShiftWord(lo, 0, off, w);
      ShrDivides(lo, off);
    }
    SpliceArith(Shr(lo, off), hi, off, b, w);
    FieldAcross(longs, i, b, li, off, w);
  }

  /** One pass of the loop of `decodeBlockStates`: entry `i`, `b` bits
      wide, read from its long and, when it runs past that long's top bit
      and a next long exists, the next. */
  method UnpackEntry(longs: seq<int>, i: nat, b: nat) returns (v: nat)
    requires 1 <= b < 64
    ensures v == Field(longs, i, b)
  {
    var word: nat := 64;
    var mask := Pow2(b) - 1;
    var bitIndex := i * b;
    var longIndex := bitIndex / word;
    var bitOffset := bitIndex % word;
    assert At(i, b, longIndex, bitOffset);
    if longIndex >= |longs| {
      EntryPastEnd(longs, i, b, longIndex, bitOffset, word);
      return 0;
    }
    var value := Shr(WrapU64(longs[longIndex]), bitOffset);
    if bitOffset + b > word && longIndex + 1 < |longs| {
      var next := WrapU64(longs[longIndex + 1]);
      EntryAcross(longs, i, b, longIndex, bitOffset, word);
      value := Or(value, Shl(next, word - bitOffset, word));
    } else {
      EntryInLong(longs, i, b, longIndex, bitOffset, word);
    }
    v := And(value, mask);
  }

  /** `decodeBlockStates`: `reserve` throws `length_error` on a negative
      count; otherwise exactly `totalBlocks` entries, entry `i` being bits
      `[i*b, i*b + b)` of the longs with a width of 0 or less read as 1.
      `1ULL << b` is undefined from 64 bits on. */
  method DecodeBlockStates(longs: seq<int>, totalBlocks: int, bitsPerBlock: int) returns (r: Result<seq<int>>)
    requires bitsPerBlock < 64
    ensures totalBlocks < 0 ==> r == Err("length_error")
    ensures totalBlocks >= 0 ==> r == Ok(Decoded(longs, totalBlocks, UsedBits(bitsPerBlock)))
  {
    if totalBlocks < 0 {
      return Err("length_error");
    }
    var b := bitsPerBlock;
    if b <= 0 {
      b := 1;
    }
    var indices: seq<int> := [];
    var i := 0;
    while i < totalBlocks
      invariant 0 <= i <= totalBlocks && |indices| == i
      invariant forall j :: 0 <= j < i ==> indices[j] == WrapI32(Field(longs, j, b))
    {
      var v := UnpackEntry(longs, i, b);
      indices := indices + [WrapI32(v)];
      i := i + 1;
    }
    assert indices == Decoded(longs, totalBlocks, b);
    return Ok(indices);
  }

  /** With at most 31 bits, every entry is a palette index in `[0, 2^b)`. */
  lemma DecodedBelow(longs: seq<int>, total: nat, b: nat)
    requires 1 <= b <= 31
    ensures |Decoded(longs, total, b)| == total
    ensures forall i :: 0 <= i < total ==> 0 <= Decoded(longs, total, b)[i] == Field(longs, i, b) < Pow2(b)
  {
    var w := 32;
    Pow2Word(w);
    Pow2Divides(b, w - 1);
    assert Pow2(w) == 2 * Pow2(w - 1);
  }

  /** A fully set array: every word `2^64 - 1`. */
  lemma {:induction false} StreamOfOnes(longs: seq<int>, w: nat)
    requires w == 64 && forall j :: 0 <= j < |longs| ==> WrapU64(longs[j]) == 0xFFFF_FFFF_FFFF_FFFF
    ensures Stream(longs) == Pow2(w * |longs|) - 1
    decreases |longs|
  {
    if |longs| > 0 {
      var n := |longs| - 1;
      StreamOfOnes(longs[1..], w);
      Pow2Long(w);
      Pow2Add(w, w * n);
      assert w + w * n == w * |longs|;
    }
  }

  /** A number one below `ps * pks`, cut at `ps` and kept to `pb` digits,
      when `pb` divides `pks`, is all ones. */
  lemma OnesNested(all: int, ps: int, pks: int, pb: int, pr: int)
    requires ps >= 1 && pks >= 1 && pb >= 1 && pr >= 1 && all == ps * pks - 1 && pks == pb * pr
    ensures (all / ps) % pb == pb - 1
  {
    OnesSplit(ps, pks, ps * pks);
    OnesSplit(pb, pr, pks);
  }

  /** `p*q - 1` is `q - 1` whole `p`s and `p - 1` over. */
  lemma OnesSplit(p: int, q: int, pq: int)
    requires p >= 1 && q >= 1 && pq == p * q
    ensures (pq - 1) / p == q - 1 && (pq - 1) % p == p - 1
  {
    assert pq - 1 == p * (q - 1) + (p - 1);
    DivModUnique(pq - 1, p, q - 1, p - 1);
  }

  /** In a fully set array every entry that lies wholly inside it reads
      `2^b - 1`. */
  lemma FieldOfOnes(longs: seq<int>, i: nat, b: nat, w: nat)
    requires w == 64 && forall j :: 0 <= j < |longs| ==> WrapU64(longs[j]) == 0xFFFF_FFFF_FFFF_FFFF
    requires i * b + b <= w * |longs|
    ensures Field(longs, i, b) == Pow2(b) - 1
  {
    MulMono(i, 0, b);
    var k := w * |longs|;
    StreamOfOnes(longs, w);
    Pow2Divides(i * b, k);
    Pow2Divides(b, k - i * b);
    OnesNested(Stream(longs), Pow2(i * b), Pow2(k - i * b), Pow2(b), Pow2(k - i * b - b));
  }

  // ---------------------------------------------------------------------------
  // One region (`processRegion`).

  /** A palette entry: the block's `Name` and its `Properties` in the
      compound's order, none when the key is absent. */
  datatype PaletteEntry = PaletteEntry(name: string, properties: seq<State>)

  /** A region as its NBT compound holds it: `Position`, `Size`,
      `BlockStatePalette` and `BlockStates`. */
  datatype Region = Region(x: I32, y: I32, z: I32, sizeX: I32, sizeY: I32, sizeZ: I32,
                           palette: seq<PaletteEntry>, longs: seq<int>)

  /** `if (size < 0) { pos += size; size = -size; }`: a size that is never
      negative, spanning the same two ends. */
  function Normalize(pos: int, size: int): (r: (int, int))
    ensures r.1 >= 0 && r.0 == Min(pos, pos + size) && r.0 + r.1 == Max(pos, pos + size)
  {
    if size < 0 then (pos + size, -size) else (pos, size)
  }

  function Min(a: int, b: int): int { if a < b then a else b }
  function Max(a: int, b: int): int { if a < b then b else a }

  /** `paletteSize > 1 ? ceil(log2(paletteSize)) : 1`: the fewest bits, at
      least one, that number every palette entry. */
  function BitsPerBlock(paletteSize: int): (b: nat)
    ensures b >= 1
    ensures paletteSize > 1 ==> Pow2(b) >= paletteSize && Pow2(b - 1) < paletteSize
  {
    if paletteSize > 1 then CeilLog2(paletteSize) else 1
  }

  /** A palette an `int` can count needs at most 31 bits. */
  lemma BitsPerBlockBelow(paletteSize: int)
    requires paletteSize <= 0x7FFF_FFFF
    ensures BitsPerBlock(paletteSize) <= 31
  {
    var b := BitsPerBlock(paletteSize);
    if b > 31 {
      var w := 32;
      Pow2Word(w);
      assert Pow2(w) == 2 * Pow2(w - 1);
      Pow2Divides(w - 1, b - 1);
    }
  }

  /** How many whole `b`-bit entries `n` longs hold. */
  function Capacity(n: nat, b: nat): nat
    requires b >= 1
  {
    (64 * n) / b
  }

  /** `blockStates.size() * (64 / bitsPerBlock)`: the count as written,
      which assumes no entry crosses from one long into the next. */
  function CapacityAsWritten(n: nat, b: nat): nat
    requires b >= 1
  {
    n * (64 / b)
  }

  /** The palette indices the walk reads: `min(total, cap)` decoded entries,
      padded with 0 (`resize`) to one per cell. */
  function Indices(longs: seq<int>, b: nat, total: nat, cap: nat): seq<int>
    requires b >= 1
  {
    var ids := Decoded(longs, if total < cap then total else cap, b);
    if |ids| < total then ids + seq(total - |ids|, _ => 0) else ids
  }

  /** One index per cell: the entry's field below the cap, 0 from it on. */
  lemma IndicesSpec(longs: seq<int>, b: nat, total: nat, cap: nat)
    requires 1 <= b <= 31
    ensures |Indices(longs, b, total, cap)| == total
    ensures forall i :: 0 <= i < total ==>
              Indices(longs, b, total, cap)[i] == if i < cap then Field(longs, i, b) else 0
  {
    var n := if total < cap then total else cap;
    DecodedBelow(longs, n, b);
  }

  /** With the capacity counted in whole entries, every cell whose entry
      lies wholly inside the array reads that entry. */
  lemma WholeEntriesRead(longs: seq<int>, b: nat, total: nat, i: nat)
    requires 1 <= b <= 31 && i < total && i * b + b <= 64 * |longs|
    ensures Indices(longs, b, total, Capacity(|longs|, b))[i] == Field(longs, i, b)
  {
    IndicesSpec(longs, b, total, Capacity(|longs|, b));
    EntryBelowCapacity(64 * |longs|, b, i);
  }

  lemma EntryBelowCapacity(bits: nat, b: nat, i: nat)
    requires b >= 1 && i * b + b <= bits
    ensures i < bits / b
  {
    var q := bits / b;
    assert bits == b * q + bits % b;
    if i >= q {
      MulMono(b, q, i);
    }
  }

  /** As written, a cell past `longs * (64 / b)` reads 0 even when its entry
      lies wholly inside the array: in a fully set array it should read
      `2^b - 1`. */
  lemma CapacityAsWrittenDropsEntries(longs: seq<int>, b: nat, total: nat, i: nat)
    requires 1 <= b <= 31 && forall j :: 0 <= j < |longs| ==> WrapU64(longs[j]) == 0xFFFF_FFFF_FFFF_FFFF
    requires CapacityAsWritten(|longs|, b) <= i < total && i * b + b <= 64 * |longs|
    ensures Indices(longs, b, total, CapacityAsWritten(|longs|, b))[i] == 0
    ensures Field(longs, i, b) == Pow2(b) - 1 > 0
  {
    IndicesSpec(longs, b, total, CapacityAsWritten(|longs|, b));
    FieldOfOnes(longs, i, b, 64);
    Pow2Divides(1, b);
    assert Pow2(1) == 2;
  }

  /** For instance a palette of 17 to 32 entries (5 bits), a 4x4x4 region
      and its five longs all set: cells 60 to 63 read air's index 0 instead
      of 31. */
  lemma FiveBitExample()
    ensures var longs := seq(5, _ => -1);
            && CapacityAsWritten(5, 5) == 60 && Capacity(5, 5) == 64
            && Indices(longs, 5, 64, CapacityAsWritten(5, 5))[60] == 0
            && Indices(longs, 5, 64, Capacity(5, 5))[60] == 31
  {
    var longs := seq(5, _ => -1);
    assert forall j :: 0 <= j < |longs| ==> WrapU64(longs[j]) == 0xFFFF_FFFF_FFFF_FFFF;
    assert Pow2(5) == 32;
    CapacityAsWrittenDropsEntries(longs, 5, 64, 60);
    WholeEntriesRead(longs, 5, 64, 60);
  }

  /** What the region must satisfy for the C++ to stay defined: `pos += size`
      and `-size` fit an `int`, as does the product of the normalised
      sizes, and `palette.size()` fits the `int` it is cast to. */
  predicate Fits(reg: Region) {
    var (_, w) := Normalize(reg.x, reg.sizeX);
    var (_, h) := Normalize(reg.y, reg.sizeY);
    var (_, l) := Normalize(reg.z, reg.sizeZ);
    && reg.sizeX > -0x8000_0000 && reg.sizeY > -0x8000_0000 && reg.sizeZ > -0x8000_0000
    && -0x8000_0000 <= reg.x + reg.sizeX && -0x8000_0000 <= reg.y + reg.sizeY
    && -0x8000_0000 <= reg.z + reg.sizeZ
    && w * h * l < 0x8000_0000
    && |reg.palette| < 0x8000_0000
  }

  // ---------------------------------------------------------------------------
  // Palette entries (`buildAirFilter`, `extractBlockStates`).

  /** `buildAirFilter`: one flag per palette entry, set for every name that
      contains "air", which takes in stairs as well as the air blocks. */
  method BuildAirFilter(palette: seq<PaletteEntry>) returns (isAir: seq<bool>)
    ensures |isAir| == |palette|
    ensures forall p :: 0 <= p < |palette| ==> (isAir[p] <==> IsAirAsWritten(palette[p].name))
  {
    isAir := seq(|palette|, _ => false);
    var i := 0;
    while i < |palette|
      invariant 0 <= i <= |palette| && |isAir| == |palette|
      invariant forall p :: 0 <= p < i ==> (isAir[p] <==> IsAirAsWritten(palette[p].name))
      invariant forall p :: i <= p < |palette| ==> !isAir[p]
    {
      if IsAirAsWritten(palette[i].name) {
        isAir := isAir[i := true];
      }
      i := i + 1;
    }
  }

  /** `extractBlockStates`: the properties in order, `waterlogged` dropped. */
  method ExtractBlockStates(properties: seq<State>) returns (states: seq<State>)
    ensures states == WithoutKey(properties, "waterlogged")
  {
    states := [];
    var i := 0;
    while i < |properties|
      invariant 0 <= i <= |properties|
      invariant states == WithoutKey(properties[..i], "waterlogged")
    {
      WithoutKeySnoc(properties, i, "waterlogged");
      if properties[i].0 != "waterlogged" {
        states := states + [properties[i]];
      } else {
        assert states + [] == states;
      }
      i := i + 1;
    }
    assert properties[..|properties|] == properties;
  }

  /** The block a palette entry becomes: its properties without
      `waterlogged`, converted. */
  function Converted(table: map<string, string>, e: PaletteEntry): Block {
    Convert(table, e.name, WithoutKey(e.properties, "waterlogged"))
  }

  /** The converted block of every palette entry. */
  function Blocks(table: map<string, string>, palette: seq<PaletteEntry>): (bs: seq<Block>)
    ensures |bs| == |palette|
    ensures forall p :: 0 <= p < |palette| ==> bs[p] == Converted(table, palette[p])
  {
    if |palette| == 0 then [] else [Converted(table, palette[0])] + Blocks(table, palette[1..])
  }

  /** The loop body's conversion of one palette entry. */
  method ConvertEntry(table: map<string, string>, e: PaletteEntry) returns (b: Block)
    ensures b == Converted(table, e)
  {
    var statesVec := ExtractBlockStates(e.properties);
    b := Convert(table, e.name, statesVec);
  }

  // ---------------------------------------------------------------------------
  // The YZX walk of one region.

  /** What the walk over a region reads: the conversion table, the palette
      with its air flags, the palette indices, the normalised corner and the
      normalised sizes; `blocks` holds, for the proofs only, the block each
      palette entry converts to. */
  datatype Scene = Scene(table: map<string, string>, palette: seq<PaletteEntry>, air: seq<bool>,
                         indices: seq<int>, ox: int, oy: int, oz: int, w: int, h: int, l: int,
                         ghost blocks: seq<Block>)

  /** A walk that stays inside the indices, with the air flags and the
      converted blocks of the palette. */
  ghost predicate Valid(sc: Scene) {
    && sc.w >= 0 && sc.h >= 0 && sc.l >= 0
    && |sc.indices| >= sc.w * sc.h * sc.l
    && |sc.air| == |sc.palette| && |sc.blocks| == |sc.palette|
    && (forall p {:trigger sc.air[p]} :: 0 <= p < |sc.palette| ==> (sc.air[p] <==> IsAirAsWritten(sc.palette[p].name)))
    && (forall p {:trigger sc.blocks[p]} :: 0 <= p < |sc.palette| ==> sc.blocks[p] == Converted(sc.table, sc.palette[p]))
  }

  /** A cell whose palette index names an entry the filter keeps. */
  ghost predicate Kept(sc: Scene, k: int)
    requires Valid(sc)
  {
    0 <= k < |sc.indices| && 0 <= sc.indices[k] < |sc.palette| && !sc.air[sc.indices[k]]
  }

  /** The call for cell (x, y, z) of the region, which reads index
      `x + z*w + y*w*l` and writes at the corner plus (x, y, z): none for a
      skipped cell. */
  ghost function Cell(sc: Scene, x: int, y: int, z: int): seq<Call>
    requires Valid(sc)
  {
    var k := Index(x, y, z, sc.w, sc.l);
    if !Kept(sc, k) then [] else
      var b := sc.blocks[sc.indices[k]];
      [Calls.AddBlock(sc.ox + x, sc.oy + y, sc.oz + z, b.0, b.1)]
  }

  /** The calls for the first `n` cells of row (y, z), `x` ascending. */
  ghost function RowCalls(sc: Scene, y: int, z: int, n: int): seq<Call>
    requires Valid(sc)
    decreases n
  {
    if n <= 0 then [] else RowCalls(sc, y, z, n - 1) + Cell(sc, n - 1, y, z)
  }

  /** The calls for the first `n` rows of layer `y`, `z` ascending. */
  ghost function LayerCalls(sc: Scene, y: int, n: int): seq<Call>
    requires Valid(sc)
    decreases n
  {
    if n <= 0 then [] else LayerCalls(sc, y, n - 1) + RowCalls(sc, y, n - 1, sc.w)
  }

  /** The calls for the first `n` layers, `y` ascending. */
  ghost function BoxCalls(sc: Scene, n: int): seq<Call>
    requires Valid(sc)
    decreases n
  {
    if n <= 0 then [] else BoxCalls(sc, n - 1) + LayerCalls(sc, n - 1, sc.l)
  }

  lemma Append3Calls(a: seq<Call>, b: seq<Call>, c: seq<Call>)
    ensures a + b + c == a + (b + c)
  {
  }

  /** The body of the `x` loop: cell (x, y, z) skipped when its palette
      index is out of range or air, else its converted block added. */
  method EmitCell(sc: Scene, x: int, y: int, z: int, out: seq<Call>) returns (r: seq<Call>)
    requires Valid(sc) && 0 <= x < sc.w && 0 <= y < sc.h && 0 <= z < sc.l
    ensures r == out + Cell(sc, x, y, z)
  {
    var index := x + z * sc.w + y * sc.w * sc.l;
    IndexInBox(x, y, z, sc.w, sc.h, sc.l);
    var paletteIndex := sc.indices[index];
    if paletteIndex < 0 || paletteIndex >= |sc.palette| || sc.air[paletteIndex] {
      assert !Kept(sc, index);
      r := out;
      assert out + [] == out;
    } else {
      var be := ConvertEntry(sc.table, sc.palette[paletteIndex]);
      assert Kept(sc, index) && be == sc.blocks[paletteIndex];
      r := out + [Calls.AddBlock(sc.ox + x, sc.oy + y, sc.oz + z, be.0, be.1)];
    }
  }

  /** The `x` loop for one row. */
  method EmitRow(sc: Scene, y: int, z: int, out: seq<Call>) returns (r: seq<Call>)
    requires Valid(sc) && 0 <= y < sc.h && 0 <= z < sc.l
    ensures r == out + RowCalls(sc, y, z, sc.w)
  {
    r := out;
    var x := 0;
    while x < sc.w
      invariant 0 <= x <= sc.w
      invariant r == out + RowCalls(sc, y, z, x)
    {
      r := EmitCell(sc, x, y, z, r);
      Append3Calls(out, RowCalls(sc, y, z, x), Cell(sc, x, y, z));
      x := x + 1;
    }
  }

  /** The `z` loop for one layer. */
  method EmitLayer(sc: Scene, y: int, out: seq<Call>) returns (r: seq<Call>)
    requires Valid(sc) && 0 <= y < sc.h
    ensures r == out + LayerCalls(sc, y, sc.l)
  {
    r := out;
    var z := 0;
    while z < sc.l
      invariant 0 <= z <= sc.l
      invariant r == out + LayerCalls(sc, y, z)
    {
      r := EmitRow(sc, y, z, r);
      Append3Calls(out, LayerCalls(sc, y, z), RowCalls(sc, y, z, sc.w));
      z := z + 1;
    }
  }

  /** The `y` loop: every cell of the region. */
  method EmitBox(sc: Scene, out: seq<Call>) returns (r: seq<Call>)
    requires Valid(sc)
    ensures r == out + BoxCalls(sc, sc.h)
  {
    r := out;
    var y := 0;
    while y < sc.h
      invariant 0 <= y <= sc.h
      invariant r == out + BoxCalls(sc, y)
    {
      r := EmitLayer(sc, y, r);
      Append3Calls(out, BoxCalls(sc, y), LayerCalls(sc, y, sc.l));
      y := y + 1;
    }
  }

  /** The scene `processRegion` walks: the normalised box, the palette with
      its air flags, and the indices of the whole entries the longs hold,
      padded with 0 to one per cell. */
  ghost function RegionScene(table: map<string, string>, reg: Region): (sc: Scene)
    requires Fits(reg)
    ensures Valid(sc)
  {
    var px, w := Normalize(reg.x, reg.sizeX).0, Normalize(reg.x, reg.sizeX).1;
    var py, h := Normalize(reg.y, reg.sizeY).0, Normalize(reg.y, reg.sizeY).1;
    var pz, l := Normalize(reg.z, reg.sizeZ).0, Normalize(reg.z, reg.sizeZ).1;
    var b := BitsPerBlock(|reg.palette|);
    BitsPerBlockBelow(|reg.palette|);
    MulMono(w, 0, h);
    MulMono(w * h, 0, l);
    IndicesSpec(reg.longs, b, w * h * l, Capacity(|reg.longs|, b));
    Scene(table, reg.palette, seq(|reg.palette|, p requires 0 <= p < |reg.palette| => IsAirAsWritten(reg.palette[p].name)),
          Indices(reg.longs, b, w * h * l, Capacity(|reg.longs|, b)), px, py, pz, w, h, l,
          Blocks(table, reg.palette))
  }

  /** The calls `processRegion` makes. */
  ghost function RegionCalls(table: map<string, string>, reg: Region): seq<Call>
    requires Fits(reg)
  {
    var sc := RegionScene(table, reg);
    BoxCalls(sc, sc.h)
  }

  /** The width, the capacity, the decode and the padding of
      `processRegion`: one palette index per cell. */
  method UnpackIndices(longs: seq<int>, paletteSize: nat, totalBlocks: nat) returns (blockIndices: seq<int>)
    requires paletteSize < 0x8000_0000
    ensures var b := BitsPerBlock(paletteSize);
            blockIndices == Indices(longs, b, totalBlocks, Capacity(|longs|, b))
  {
    var bitsPerBlock := BitsPerBlock(paletteSize);
    BitsPerBlockBelow(paletteSize);
    var maxDecodableBlocks := Capacity(|longs|, bitsPerBlock);
    var actualBlocks := if totalBlocks < maxDecodableBlocks then totalBlocks else maxDecodableBlocks;
    var decoded := DecodeBlockStates(longs, actualBlocks, bitsPerBlock);
    blockIndices := decoded.value;
    if |blockIndices| < totalBlocks {
      blockIndices := blockIndices + seq(totalBlocks - |blockIndices|, _ => 0);
    }
  }

  /** The scene `processRegion` builds is `RegionScene`. */
  lemma SceneOfRegion(table: map<string, string>, reg: Region, px: int, py: int, pz: int,
                      w: int, h: int, l: int, air: seq<bool>, ids: seq<int>)
    requires Fits(reg)
    requires (px, w) == Normalize(reg.x, reg.sizeX) && (py, h) == Normalize(reg.y, reg.sizeY)
    requires (pz, l) == Normalize(reg.z, reg.sizeZ)
    requires |air| == |reg.palette|
    requires forall p :: 0 <= p < |reg.palette| ==> (air[p] <==> IsAirAsWritten(reg.palette[p].name))
    requires w * h * l >= 0
    requires ids == Indices(reg.longs, BitsPerBlock(|reg.palette|), w * h * l,
                            Capacity(|reg.longs|, BitsPerBlock(|reg.palette|)))
    ensures RegionScene(table, reg) == Scene(table, reg.palette, air, ids, px, py, pz, w, h, l, Blocks(table, reg.palette))
  {
    assert air == seq(|reg.palette|, p requires 0 <= p < |reg.palette| => IsAirAsWritten(reg.palette[p].name));
  }

  /** `processRegion`: normalise the box, build the air filter, unpack one
      palette index per cell and walk the box. */
  method ProcessRegion(table: map<string, string>, reg: Region, out: seq<Call>) returns (r: seq<Call>)
    requires Fits(reg)
    ensures r == out + RegionCalls(table, reg)
  {
    var posX, sizeX := reg.x as int, reg.sizeX as int;
    var posY, sizeY := reg.y as int, reg.sizeY as int;
    var posZ, sizeZ := reg.z as int, reg.sizeZ as int;
    if sizeX < 0 { posX := posX + sizeX; sizeX := -sizeX; }
    if sizeY < 0 { posY := posY + sizeY; sizeY := -sizeY; }
    if sizeZ < 0 { posZ := posZ + sizeZ; sizeZ := -sizeZ; }
    assert (posX, sizeX) == Normalize(reg.x, reg.sizeX);
    assert (posY, sizeY) == Normalize(reg.y, reg.sizeY);
    assert (posZ, sizeZ) == Normalize(reg.z, reg.sizeZ);
    var isAirPalette := BuildAirFilter(reg.palette);
    MulMono(sizeX, 0, sizeY);
    MulMono(sizeX * sizeY, 0, sizeZ);
    var blockIndices := UnpackIndices(reg.longs, |reg.palette|, sizeX * sizeY * sizeZ);
    SceneOfRegion(table, reg, posX, posY, posZ, sizeX, sizeY, sizeZ, isAirPalette, blockIndices);
    var sc := Scene(table, reg.palette, isAirPalette, blockIndices, posX, posY, posZ,
                    sizeX, sizeY, sizeZ, Blocks(table, reg.palette));
    r := EmitBox(sc, out);
  }

  // ---------------------------------------------------------------------------
  // The whole import (`convert`).

  /** Every region a document holds satisfies `Fits`. */
  predicate AllFit(regions: seq<Region>) {
    forall i :: 0 <= i < |regions| ==> Fits(regions[i])
  }

  /** The calls of the first `n` regions in turn. */
  ghost function AllRegionCalls(table: map<string, string>, regions: seq<Region>, n: nat): seq<Call>
    requires AllFit(regions) && n <= |regions|
  {
    if n == 0 then [] else AllRegionCalls(table, regions, n - 1) + RegionCalls(table, regions[n - 1])
  }

  /** `convert` after the NBT read: `None` is a root without `Metadata` or
      `Regions`, which returns before the writer exists; otherwise every
      region in the compound's order, then `finalize`. */
  method Import(table: map<string, string>, regions: Option<seq<Region>>) returns (calls: seq<Call>)
    requires regions.Some? ==> AllFit(regions.value)
    ensures regions.None? ==> calls == []
    ensures regions.Some? ==> calls == AllRegionCalls(table, regions.value, |regions.value|) + [Calls.Finalize]
  {
    if regions.None? {
      return [];
    }
    var rs := regions.value;
    calls := [];
    var i := 0;
    while i < |rs|
      invariant 0 <= i <= |rs|
      invariant calls == AllRegionCalls(table, rs, i)
    {
      calls := ProcessRegion(table, rs[i], calls);
      assert calls == AllRegionCalls(table, rs, i + 1) by {
        assert AllRegionCalls(table, rs, i + 1) == AllRegionCalls(table, rs, i) + RegionCalls(table, rs[i]);
      }
      i := i + 1;
    }
    calls := calls + [Calls.Finalize];
  }

  // ---------------------------------------------------------------------------
  // What the walk writes.

  /** Some call of `calls` adds a block at (x, y, z). */
  predicate AddsAt(calls: seq<Call>, x: int, y: int, z: int) {
    exists c :: c in calls && c.AddBlock? && c.x == x && c.y == y && c.z == z
  }

  lemma {:induction false} RowFrom(sc: Scene, y: int, z: int, n: int, c: Call)
    requires Valid(sc)
    requires c in RowCalls(sc, y, z, n)
    ensures exists x :: 0 <= x < n && c in Cell(sc, x, y, z)
    decreases n
  {
    if c in Cell(sc, n - 1, y, z) {
      assert 0 <= n - 1 < n;
    } else {
      RowFrom(sc, y, z, n - 1, c);
    }
  }

  lemma {:induction false} LayerFrom(sc: Scene, y: int, n: int, c: Call)
    requires Valid(sc)
    requires c in LayerCalls(sc, y, n)
    ensures exists z :: 0 <= z < n && c in RowCalls(sc, y, z, sc.w)
    decreases n
  {
    if c in RowCalls(sc, y, n - 1, sc.w) {
      assert 0 <= n - 1 < n;
    } else {
      LayerFrom(sc, y, n - 1, c);
    }
  }

  lemma {:induction false} BoxFrom(sc: Scene, n: int, c: Call)
    requires Valid(sc)
    requires c in BoxCalls(sc, n)
    ensures exists y :: 0 <= y < n && c in LayerCalls(sc, y, sc.l)
    decreases n
  {
    assert BoxCalls(sc, n) == BoxCalls(sc, n - 1) + LayerCalls(sc, n - 1, sc.l);
    if c in LayerCalls(sc, n - 1, sc.l) {
      assert 0 <= n - 1 < n;
    } else {
      BoxFrom(sc, n - 1, c);
      var y :| 0 <= y < n - 1 && c in LayerCalls(sc, y, sc.l);
      assert 0 <= y < n;
    }
  }

  lemma {:induction false} RowHas(sc: Scene, y: int, z: int, n: int, x: int, c: Call)
    requires Valid(sc)
    requires 0 <= x < n && c in Cell(sc, x, y, z)
    ensures c in RowCalls(sc, y, z, n)
    decreases n
  {
    if x < n - 1 {
      RowHas(sc, y, z, n - 1, x, c);
    }
  }

  lemma {:induction false} LayerHas(sc: Scene, y: int, n: int, z: int, c: Call)
    requires Valid(sc)
    requires 0 <= z < n && c in RowCalls(sc, y, z, sc.w)
    ensures c in LayerCalls(sc, y, n)
    decreases n
  {
    if z < n - 1 {
      LayerHas(sc, y, n - 1, z, c);
    }
  }

  lemma {:induction false} BoxHas(sc: Scene, n: int, y: int, c: Call)
    requires Valid(sc)
    requires 0 <= y < n && c in LayerCalls(sc, y, sc.l)
    ensures c in BoxCalls(sc, n)
    decreases n
  {
    if y < n - 1 {
      BoxHas(sc, n - 1, y, c);
    }
  }

  /** A call of cell (x, y, z) adds at the corner plus (x, y, z), for a kept
      cell. */
  lemma CellCall(sc: Scene, x: int, y: int, z: int, c: Call)
    requires Valid(sc) && c in Cell(sc, x, y, z)
    ensures c.AddBlock? && c.x == sc.ox + x && c.y == sc.oy + y && c.z == sc.oz + z
    ensures Kept(sc, Index(x, y, z, sc.w, sc.l))
  {
  }

  /** A block added at the corner plus (x, y, z) comes from a kept cell
      inside the box. */
  lemma AddedIsKept(sc: Scene, x: int, y: int, z: int)
    requires Valid(sc) && AddsAt(BoxCalls(sc, sc.h), sc.ox + x, sc.oy + y, sc.oz + z)
    ensures 0 <= x < sc.w && 0 <= y < sc.h && 0 <= z < sc.l && Kept(sc, Index(x, y, z, sc.w, sc.l))
  {
    var c :| c in BoxCalls(sc, sc.h) && c.AddBlock? && c.x == sc.ox + x && c.y == sc.oy + y && c.z == sc.oz + z;
    BoxFrom(sc, sc.h, c);
    var y' :| 0 <= y' < sc.h && c in LayerCalls(sc, y', sc.l);
    LayerFrom(sc, y', sc.l, c);
    var z' :| 0 <= z' < sc.l && c in RowCalls(sc, y', z', sc.w);
    RowFrom(sc, y', z', sc.w, c);
    var x' :| 0 <= x' < sc.w && c in Cell(sc, x', y', z');
    CellCall(sc, x', y', z', c);
    assert x' == x && y' == y && z' == z;
  }

  /** A kept cell inside the box gets its block. */
  lemma KeptIsAdded(sc: Scene, x: int, y: int, z: int)
    requires Valid(sc) && 0 <= x < sc.w && 0 <= y < sc.h && 0 <= z < sc.l
    requires Kept(sc, Index(x, y, z, sc.w, sc.l))
    ensures var b := sc.blocks[sc.indices[Index(x, y, z, sc.w, sc.l)]];
            Calls.AddBlock(sc.ox + x, sc.oy + y, sc.oz + z, b.0, b.1) in BoxCalls(sc, sc.h)
  {
    var b := sc.blocks[sc.indices[Index(x, y, z, sc.w, sc.l)]];
    var c := Calls.AddBlock(sc.ox + x, sc.oy + y, sc.oz + z, b.0, b.1);
    assert c in Cell(sc, x, y, z);
    RowHas(sc, y, z, sc.w, x, c);
    LayerHas(sc, y, sc.l, z, c);
    BoxHas(sc, sc.h, y, c);
  }

  /** The walk adds a block at the corner plus (x, y, z) exactly when the
      cell is inside the box and its palette index names a non-air entry,
      and the block it adds there is that entry's converted block. */
  lemma AddsAtKept(sc: Scene, x: int, y: int, z: int)
    requires Valid(sc)
    ensures var k := Index(x, y, z, sc.w, sc.l);
            AddsAt(BoxCalls(sc, sc.h), sc.ox + x, sc.oy + y, sc.oz + z) <==>
              && 0 <= x < sc.w && 0 <= y < sc.h && 0 <= z < sc.l && 0 <= k < |sc.indices|
              && 0 <= sc.indices[k] < |sc.palette| && !IsAirAsWritten(sc.palette[sc.indices[k]].name)
    ensures var k := Index(x, y, z, sc.w, sc.l);
            && 0 <= x < sc.w && 0 <= y < sc.h && 0 <= z < sc.l && 0 <= k < |sc.indices|
            && 0 <= sc.indices[k] < |sc.palette| && !IsAirAsWritten(sc.palette[sc.indices[k]].name) ==>
              var b := Converted(sc.table, sc.palette[sc.indices[k]]);
              Calls.AddBlock(sc.ox + x, sc.oy + y, sc.oz + z, b.0, b.1) in BoxCalls(sc, sc.h)
  {
    var k := Index(x, y, z, sc.w, sc.l);
    if AddsAt(BoxCalls(sc, sc.h), sc.ox + x, sc.oy + y, sc.oz + z) {
      AddedIsKept(sc, x, y, z);
    }
    if && 0 <= x < sc.w && 0 <= y < sc.h && 0 <= z < sc.l && 0 <= k < |sc.indices|
       && 0 <= sc.indices[k] < |sc.palette| && !IsAirAsWritten(sc.palette[sc.indices[k]].name) {
      assert Kept(sc, k);
      KeptIsAdded(sc, x, y, z);
      var c := Calls.AddBlock(sc.ox + x, sc.oy + y, sc.oz + z, sc.blocks[sc.indices[k]].0, sc.blocks[sc.indices[k]].1);
      assert c in BoxCalls(sc, sc.h);
      assert AddsAt(BoxCalls(sc, sc.h), sc.ox + x, sc.oy + y, sc.oz + z);
    }
  }

  /** The filter skips more than air: a cell whose palette entry is
      `minecraft:oak_stairs`, whose name contains "air", gets no call. */
  lemma StairsCellSkipped(sc: Scene, x: int, y: int, z: int)
    requires Valid(sc)
    requires var k := Index(x, y, z, sc.w, sc.l);
             0 <= k < |sc.indices| && 0 <= sc.indices[k] < |sc.palette|
             && sc.palette[sc.indices[k]].name == "minecraft:oak_stairs"
    ensures Cell(sc, x, y, z) == []
    ensures !AddsAt(BoxCalls(sc, sc.h), sc.ox + x, sc.oy + y, sc.oz + z)
  {
    StairsAreDropped();
    AddsAtKept(sc, x, y, z);
  }

  /** A block is added by two call sequences in turn exactly when one of
      them adds it. */
  lemma AddsAtAppend(a: seq<Call>, b: seq<Call>, x: int, y: int, z: int)
    ensures AddsAt(a + b, x, y, z) <==> AddsAt(a, x, y, z) || AddsAt(b, x, y, z)
  {
    if AddsAt(a + b, x, y, z) {
      var c: Call :| c in a + b && c.AddBlock? && c.x == x && c.y == y && c.z == z;
      assert c in a || c in b;
    }
    if AddsAt(a, x, y, z) {
      var c: Call :| c in a && c.AddBlock? && c.x == x && c.y == y && c.z == z;
      assert c in a + b;
    }
    if AddsAt(b, x, y, z) {
      var c: Call :| c in b && c.AddBlock? && c.x == x && c.y == y && c.z == z;
      assert c in a + b;
    }
  }

  /** The import adds a block at a position exactly when one of its regions
      does. */
  lemma {:induction false} ImportAddsAt(table: map<string, string>, regions: seq<Region>, n: nat,
                                        x: int, y: int, z: int)
    requires AllFit(regions) && n <= |regions|
    ensures AddsAt(AllRegionCalls(table, regions, n), x, y, z) <==>
              exists i :: 0 <= i < n && AddsAt(RegionCalls(table, regions[i]), x, y, z)
  {
    if n > 0 {
      var a := AllRegionCalls(table, regions, n - 1);
      var b := RegionCalls(table, regions[n - 1]);
      assert AllRegionCalls(table, regions, n) == a + b;
      ImportAddsAt(table, regions, n - 1, x, y, z);
      AddsAtAppend(a, b, x, y, z);
      if AddsAt(a, x, y, z) {
        var i :| 0 <= i < n - 1 && AddsAt(RegionCalls(table, regions[i]), x, y, z);
        assert 0 <= i < n;
      }
      if exists i :: 0 <= i < n && AddsAt(RegionCalls(table, regions[i]), x, y, z) {
        var i :| 0 <= i < n && AddsAt(RegionCalls(table, regions[i]), x, y, z);
        if i < n - 1 {
          assert AddsAt(a, x, y, z);
        }
      }
    }
  }
}

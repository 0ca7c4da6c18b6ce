/** The tables that follow the sub-chunk records in a container: the offset
    table, the palette and the id dictionaries, as the writers lay them out and
    the readers decode them. Each `...At` lemma reads a table back from any
    stream that holds its bytes at the cursor. */
module Tables {
  import opened Wrappers
  import opened LittleEndian
  import opened StringCodec
  import opened Structs
  import opened Records

  // ---------------------------------------------------------------------------
  // Offset table: u64 count, then one u64 offset per sub-chunk

  function U64Chunks(offs: seq<U64>): (r: seq<Bytes>)
    ensures |r| == |offs| && forall j :: 0 <= j < |offs| ==> r[j] == WriteU64(offs[j])
  {
    seq(|offs|, j requires 0 <= j < |offs| => WriteU64(offs[j]))
  }

  function OffsetTableBytes(offs: seq<U64>): (r: Bytes)
    requires |offs| < 0x1_0000_0000_0000_0000
    ensures |r| == 8 + 8 * |offs|
  {
    FlattenLen(U64Chunks(offs), 8);
    WriteU64(|offs|) + Flatten(U64Chunks(offs))
  }

  function U64Reader(s: Bytes): (read: nat -> Option<(U64, nat)>) {
    (p: nat) => ReadU64(s, p)
  }

  /** The offset-table decode of both readers: the offsets in file order. */
  function ReadOffsetTable(s: Bytes, pos: nat): (r: Option<(seq<U64>, nat)>)
    ensures pos + 8 > |s| ==> r == None
  {
    match ReadU64(s, pos)
    case None => None
    case Some((n, p)) => ReadMany(U64Reader(s), p, n)
  }

  lemma {:induction false} ReadOffsetTableAt(s: Bytes, pos: nat, offs: seq<U64>)
    requires |offs| < 0x1_0000_0000_0000_0000
    requires pos + 8 + 8 * |offs| <= |s| && s[pos..pos + 8 + 8 * |offs|] == OffsetTableBytes(offs)
    ensures ReadOffsetTable(s, pos) == Some((offs, pos + 8 + 8 * |offs|))
  {
    var chunks := U64Chunks(offs);
    SplitAt(s, pos, pos + 8, pos + 8 + 8 * |offs|, WriteU64(|offs|), Flatten(chunks));
    ReadU64At(s, pos, |offs|);
    forall p: nat, j {:trigger HasAt(s, p, chunks[j])} | 0 <= j < |offs| && HasAt(s, p, chunks[j])
      ensures U64Reader(s)(p) == Some((offs[j], p + |chunks[j]|))
    {
      ReadU64At(s, p, offs[j]);
    }
    ReadManyOfChunks(U64Reader(s), s, pos + 8, chunks, offs);
  }

  /** The offset table is read back as written, in order. */
  lemma {:induction false} ReadOffsetTableOfWritten(p: Bytes, offs: seq<U64>, q: Bytes)
    requires |offs| < 0x1_0000_0000_0000_0000
    ensures ReadOffsetTable(p + OffsetTableBytes(offs) + q, |p|) == Some((offs, |p| + 8 + 8 * |offs|))
  {
    SliceMiddle(p, OffsetTableBytes(offs), q);
    ReadOffsetTableAt(p + OffsetTableBytes(offs) + q, |p|, offs);
  }

  // ---------------------------------------------------------------------------
  // Palette: u32 count, then per entry u32 pid, u16 type, u16 n, n x (u8, u8),
  // and in the version-4 layout a string32 payload

  function PairChunks(states: seq<StatePair>): (r: seq<Bytes>)
    ensures |r| == |states| && forall j :: 0 <= j < |states| ==> r[j] == [states[j].0, states[j].1]
  {
    seq(|states|, j requires 0 <= j < |states| => [states[j].0, states[j].1])
  }

  function PairsBytes(states: seq<StatePair>): (r: Bytes)
    ensures |r| == 2 * |states|
  {
    FlattenLen(PairChunks(states), 2);
    Flatten(PairChunks(states))
  }

  function ReadPair(s: Bytes, pos: nat): (r: Option<(StatePair, nat)>)
    ensures r.Some? <==> pos + 2 <= |s|
    ensures r.Some? ==> r.value == ((s[pos], s[pos + 1]), pos + 2)
  {
    match ReadU8(s, pos)
    case None => None
    case Some((a, p1)) =>
      match ReadU8(s, p1)
      case None => None
      case Some((b, p2)) => Some(((a, b), p2))
  }

  function PairReader(s: Bytes): (read: nat -> Option<(StatePair, nat)>) {
    (p: nat) => ReadPair(s, p)
  }

  function ReadPairs(s: Bytes, pos: nat, n: nat): (r: Option<(seq<StatePair>, nat)>)
    ensures r.Some? ==> |r.value.0| == n
  {
    ReadMany(PairReader(s), pos, n)
  }

  lemma {:induction false} ReadPairsAt(s: Bytes, pos: nat, states: seq<StatePair>)
    requires pos + 2 * |states| <= |s| && s[pos..pos + 2 * |states|] == PairsBytes(states)
    ensures ReadPairs(s, pos, |states|) == Some((states, pos + 2 * |states|))
  {
    var chunks := PairChunks(states);
    forall p: nat, j {:trigger HasAt(s, p, chunks[j])} | 0 <= j < |states| && HasAt(s, p, chunks[j])
      ensures PairReader(s)(p) == Some((states[j], p + |chunks[j]|))
    {
      assert s[p] == s[p..p + 2][0] && s[p + 1] == s[p..p + 2][1];
    }
    ReadManyOfChunks(PairReader(s), s, pos, chunks, states);
  }

  /** The payload a version-4 entry carries: the blob, or the empty string. */
  function PayloadBytes(k: PaletteKey): (r: Bytes)
    ensures k.payload.Some? ==> r == k.payload.value
    ensures k.payload.None? ==> r == []
  {
    match k.payload
    case Some(b) => b
    case None => []
  }

  /** The fixed part of an entry: pid, type id and state count. */
  function EntryHead(pid: PaletteId, typeId: BlockTypeId, n: U16): (r: Bytes)
    ensures |r| == 8
  {
    WriteU32(pid) + WriteU16(typeId) + WriteU16(n)
  }

  /** What follows the pairs: the payload in the version-4 layout, else nothing. */
  function EntryTail(k: PaletteKey, withPayload: bool): (r: Bytes)
  {
    if withPayload then WriteString32(PayloadBytes(k)) else []
  }

  /** One palette entry. The state count is cast to u16, but every pair is written. */
  function EntryBytes(pid: PaletteId, k: PaletteKey, withPayload: bool): (r: Bytes)
  {
    EntryHead(pid, k.typeId, WrapU16(|k.states|)) + (PairsBytes(k.states) + EntryTail(k, withPayload))
  }

  /** The entries of a palette; each entry's pid is its position, cast to u32. */
  function EntryChunks(keys: seq<PaletteKey>, withPayload: bool): (r: seq<Bytes>)
    ensures |r| == |keys|
    ensures forall j :: 0 <= j < |keys| ==> r[j] == EntryBytes(WrapU32(j), keys[j], withPayload)
  {
    seq(|keys|, j requires 0 <= j < |keys| => EntryBytes(WrapU32(j), keys[j], withPayload))
  }

  /** The palette table: the count cast to u32, then the entries. */
  function PaletteBytes(keys: seq<PaletteKey>, withPayload: bool): (r: Bytes)
    ensures |r| == 4 + |Flatten(EntryChunks(keys, withPayload))|
  {
    WriteU32(WrapU32(|keys|)) + Flatten(EntryChunks(keys, withPayload))
  }

  /** A key without its payload, which is what the readers rebuild. */
  function Bare(k: PaletteKey): (r: PaletteKey)
    ensures r.typeId == k.typeId && r.states == k.states && r.payload == None
  {
    PaletteKey(k.typeId, k.states, None)
  }

  /** One entry as the readers decode it: the pid is read and ignored, and with
      `withPayload` a string32 follows, an empty one meaning no payload. */
  function ReadEntry(s: Bytes, pos: nat, withPayload: bool): (r: Option<(PaletteKey, nat)>)
    ensures r.Some? ==> |r.value.0.states| < 0x1_0000
  {
    match ReadU32(s, pos)
    case None => None
    case Some((_, p1)) =>
      match ReadU16(s, p1)
      case None => None
      case Some((typeId, p2)) =>
        match ReadU16(s, p2)
        case None => None
        case Some((n, p3)) =>
          match ReadPairs(s, p3, n)
          case None => None
          case Some((states, p4)) =>
            if !withPayload then Some((PaletteKey(typeId, states, None), p4))
            else match ReadString32(s, p4)
              case None => None
              case Some((blob, p5)) =>
                Some((PaletteKey(typeId, states, if blob == [] then None else Some(blob)), p5))
  }

  function EntryReader(s: Bytes, withPayload: bool): (read: nat -> Option<(PaletteKey, nat)>) {
    (p: nat) => ReadEntry(s, p, withPayload)
  }

  /** The palette decode of the readers (`withPayload` false) and of a
      version-4-aware reader (`withPayload` true). */
  function ReadPalette(s: Bytes, pos: nat, withPayload: bool): (r: Option<(seq<PaletteKey>, nat)>)
    ensures pos + 4 > |s| ==> r == None
  {
    ReadCounted(EntryReader(s, withPayload), s, pos)
  }

  /** A key the entry format can carry: fewer than 65536 states and, with a
      payload field, a payload that fits a u32 length and is not the empty blob
      (which reads back as no payload). */
  predicate Storable(k: PaletteKey, withPayload: bool) {
    |k.states| < 0x1_0000 && (withPayload ==> |PayloadBytes(k)| < 0x1_0000_0000 && k.payload != Some([]))
  }

  /** What a reader rebuilds from one entry. */
  function DecodedKey(k: PaletteKey, withPayload: bool): (r: PaletteKey)
    ensures r.typeId == k.typeId && r.states == k.states
    ensures r.payload == (if withPayload then k.payload else None)
  {
    if withPayload then k else Bare(k)
  }

  /** What a reader rebuilds from a sequence of entries. */
  function Decoded(keys: seq<PaletteKey>, withPayload: bool): (r: seq<PaletteKey>)
    ensures |r| == |keys| && forall j :: 0 <= j < |keys| ==> r[j] == DecodedKey(keys[j], withPayload)
    ensures withPayload ==> r == keys
  {
    if withPayload then keys else seq(|keys|, j requires 0 <= j < |keys| => Bare(keys[j]))
  }

  lemma {:induction false} ReadEntryHeadAt(s: Bytes, pos: nat, pid: PaletteId, typeId: BlockTypeId, n: U16)
    requires pos + 8 <= |s| && s[pos..pos + 8] == EntryHead(pid, typeId, n)
    ensures ReadU32(s, pos) == Some((pid, pos + 4)) && ReadU16(s, pos + 4) == Some((typeId, pos + 6))
    ensures ReadU16(s, pos + 6) == Some((n, pos + 8))
  {
    SplitAt(s, pos, pos + 6, pos + 8, WriteU32(pid) + WriteU16(typeId), WriteU16(n));
    SplitAt(s, pos, pos + 4, pos + 6, WriteU32(pid), WriteU16(typeId));
    ReadU32At(s, pos, pid);
    ReadU16At(s, pos + 4, typeId);
    ReadU16At(s, pos + 6, n);
  }

  lemma {:induction false} ReadString32At(s: Bytes, pos: nat, u: Bytes)
    requires |u| < 0x1_0000_0000
    requires pos + 4 + |u| <= |s| && s[pos..pos + 4 + |u|] == WriteString32(u)
    ensures ReadString32(s, pos) == Some((u, pos + 4 + |u|))
  {
    assert u[..|u|] == u;
    SplitAt(s, pos, pos + 4, pos + 4 + |u|, WriteU32(|u|), u);
    ReadU32At(s, pos, |u|);
  }

  /** ReadEntry in terms of the reads it is made of. */
  lemma {:induction false} ReadEntryIs(s: Bytes, pos: nat, withPayload: bool, pid: PaletteId, k: PaletteKey)
    requires |k.states| < 0x1_0000
    requires ReadU32(s, pos) == Some((pid, pos + 4)) && ReadU16(s, pos + 4) == Some((k.typeId, pos + 6))
    requires ReadU16(s, pos + 6) == Some((|k.states|, pos + 8))
    requires ReadPairs(s, pos + 8, |k.states|) == Some((k.states, pos + 8 + 2 * |k.states|))
    requires withPayload ==> ReadString32(s, pos + 8 + 2 * |k.states|)
                             == Some((PayloadBytes(k), pos + 8 + 2 * |k.states| + 4 + |PayloadBytes(k)|))
    ensures ReadEntry(s, pos, withPayload)
         == Some((PaletteKey(k.typeId, k.states, if withPayload && PayloadBytes(k) != [] then Some(PayloadBytes(k)) else None),
                  pos + (if withPayload then 8 + 2 * |k.states| + 4 + |PayloadBytes(k)| else 8 + 2 * |k.states|)))
  {
    var p4 := pos + 8 + 2 * |k.states|;
    if withPayload {
      var blob := PayloadBytes(k);
      assert ReadEntry(s, pos, true)
          == Some((PaletteKey(k.typeId, k.states, if blob == [] then None else Some(blob)), p4 + 4 + |blob|));
    } else {
      assert ReadEntry(s, pos, false) == Some((PaletteKey(k.typeId, k.states, None), p4));
    }
  }


  /** The pairs and the payload of an entry, where they lie. */
  lemma {:induction false} EntryPartsAt(s: Bytes, pos: nat, pid: PaletteId, k: PaletteKey, withPayload: bool)
    requires Storable(k, withPayload)
    requires pos + |EntryBytes(pid, k, withPayload)| <= |s|
    requires s[pos..pos + |EntryBytes(pid, k, withPayload)|] == EntryBytes(pid, k, withPayload)
    ensures pos + 8 + 2 * |k.states| <= |s|
    ensures s[pos..pos + 8] == EntryHead(pid, k.typeId, |k.states|)
    ensures s[pos + 8..pos + 8 + 2 * |k.states|] == PairsBytes(k.states)
    ensures withPayload ==> pos + 8 + 2 * |k.states| + 4 + |PayloadBytes(k)| <= |s|
    ensures withPayload ==>
              s[pos + 8 + 2 * |k.states|..pos + 8 + 2 * |k.states| + 4 + |PayloadBytes(k)|] == WriteString32(PayloadBytes(k))
  {
    var n := |k.states|;
    var h, d, t := EntryHead(pid, k.typeId, n), PairsBytes(k.states), EntryTail(k, withPayload);
    var end := pos + |EntryBytes(pid, k, withPayload)|;
    SplitAt(s, pos, pos + 8, end, h, d + t);
    SplitAt(s, pos + 8, pos + 8 + 2 * n, end, d, t);
    if withPayload {
      SliceEq(s, pos + 8 + 2 * n, end, pos + 8 + 2 * n + 4 + |PayloadBytes(k)|);
    }
  }

  /** Any storable key's entry decodes to the key (without its payload when
      the payload is not read), wherever it lies. */
  lemma {:induction false} ReadEntryAt(s: Bytes, pos: nat, pid: PaletteId, k: PaletteKey, withPayload: bool)
    requires Storable(k, withPayload)
    requires HasAt(s, pos, EntryBytes(pid, k, withPayload))
    ensures ReadEntry(s, pos, withPayload) == Some((DecodedKey(k, withPayload), pos + |EntryBytes(pid, k, withPayload)|))
  {
    EntryReadsAt(s, pos, pid, k, withPayload);
    ReadEntryIs(s, pos, withPayload, pid, k);
    EntryEnd(pid, k, withPayload);
    var key := PaletteKey(k.typeId, k.states, if withPayload && PayloadBytes(k) != [] then Some(PayloadBytes(k)) else None);
    var end := pos + (if withPayload then 8 + 2 * |k.states| + 4 + |PayloadBytes(k)| else 8 + 2 * |k.states|);
    assert ReadEntry(s, pos, withPayload) == Some((key, end));
  }

  /** The reads an entry is made of, each where it lies. */
  lemma {:induction false} EntryReadsAt(s: Bytes, pos: nat, pid: PaletteId, k: PaletteKey, withPayload: bool)
    requires Storable(k, withPayload)
    requires HasAt(s, pos, EntryBytes(pid, k, withPayload))
    ensures ReadU32(s, pos) == Some((pid, pos + 4)) && ReadU16(s, pos + 4) == Some((k.typeId, pos + 6))
    ensures ReadU16(s, pos + 6) == Some((|k.states|, pos + 8))
    ensures ReadPairs(s, pos + 8, |k.states|) == Some((k.states, pos + 8 + 2 * |k.states|))
    ensures withPayload ==> ReadString32(s, pos + 8 + 2 * |k.states|)
                            == Some((PayloadBytes(k), pos + 8 + 2 * |k.states| + 4 + |PayloadBytes(k)|))
  {
    EntryPartsAt(s, pos, pid, k, withPayload);
    EntryHeadReadsAt(s, pos, pid, k);
    EntryPairsReadAt(s, pos, k);
    if withPayload {
      EntryPayloadReadAt(s, pos, k);
    }
  }

  lemma {:induction false} EntryHeadReadsAt(s: Bytes, pos: nat, pid: PaletteId, k: PaletteKey)
    requires |k.states| < 0x1_0000
    requires pos + 8 <= |s| && s[pos..pos + 8] == EntryHead(pid, k.typeId, |k.states|)
    ensures ReadU32(s, pos) == Some((pid, pos + 4)) && ReadU16(s, pos + 4) == Some((k.typeId, pos + 6))
    ensures ReadU16(s, pos + 6) == Some((|k.states|, pos + 8))
  {
    ReadEntryHeadAt(s, pos, pid, k.typeId, |k.states|);
  }

  lemma {:induction false} EntryPairsReadAt(s: Bytes, pos: nat, k: PaletteKey)
    requires pos + 8 + 2 * |k.states| <= |s|
    requires s[pos + 8..pos + 8 + 2 * |k.states|] == PairsBytes(k.states)
    ensures ReadPairs(s, pos + 8, |k.states|) == Some((k.states, pos + 8 + 2 * |k.states|))
  {
    ReadPairsAt(s, pos + 8, k.states);
  }

  lemma {:induction false} EntryPayloadReadAt(s: Bytes, pos: nat, k: PaletteKey)
    requires |PayloadBytes(k)| < 0x1_0000_0000
    requires pos + 8 + 2 * |k.states| + 4 + |PayloadBytes(k)| <= |s|
    requires s[pos + 8 + 2 * |k.states|..pos + 8 + 2 * |k.states| + 4 + |PayloadBytes(k)|] == WriteString32(PayloadBytes(k))
    ensures ReadString32(s, pos + 8 + 2 * |k.states|)
         == Some((PayloadBytes(k), pos + 8 + 2 * |k.states| + 4 + |PayloadBytes(k)|))
  {
    ReadString32At(s, pos + 8 + 2 * |k.states|, PayloadBytes(k));
  }

  /** The decoded key and the end position of an entry. */
  lemma {:induction false} EntryEnd(pid: PaletteId, k: PaletteKey, withPayload: bool)
    requires Storable(k, withPayload)
    ensures PaletteKey(k.typeId, k.states, if withPayload && PayloadBytes(k) != [] then Some(PayloadBytes(k)) else None)
         == DecodedKey(k, withPayload)
    ensures |EntryBytes(pid, k, withPayload)|
         == if withPayload then 8 + 2 * |k.states| + 4 + |PayloadBytes(k)| else 8 + 2 * |k.states|
  {
  }

  /** Every entry of a palette of storable keys decodes, wherever it lies. */
  lemma {:induction false} EntriesDecode(s: Bytes, keys: seq<PaletteKey>, withPayload: bool)
    requires forall j :: 0 <= j < |keys| ==> Storable(keys[j], withPayload)
    ensures Decodes(EntryReader(s, withPayload), s, EntryChunks(keys, withPayload), Decoded(keys, withPayload))
  {
    EntriesRead(s, keys, withPayload);
  }

  lemma {:induction false} EntriesRead(s: Bytes, keys: seq<PaletteKey>, withPayload: bool)
    requires forall j :: 0 <= j < |keys| ==> Storable(keys[j], withPayload)
    ensures forall p: nat, j {:trigger HasAt(s, p, EntryChunks(keys, withPayload)[j])} ::
              0 <= j < |keys| && HasAt(s, p, EntryChunks(keys, withPayload)[j])
              ==> ReadEntry(s, p, withPayload)
                  == Some((Decoded(keys, withPayload)[j], p + |EntryChunks(keys, withPayload)[j]|))
  {
    forall p: nat, j | 0 <= j < |keys| && HasAt(s, p, EntryChunks(keys, withPayload)[j])
      ensures ReadEntry(s, p, withPayload)
              == Some((Decoded(keys, withPayload)[j], p + |EntryChunks(keys, withPayload)[j]|))
    {
      ReadEntryChunkAt(s, p, keys, j, withPayload);
    }
  }

  /** ReadEntryAt for the `j`-th entry of a palette. */
  lemma {:induction false} ReadEntryChunkAt(s: Bytes, p: nat, keys: seq<PaletteKey>, j: nat, withPayload: bool)
    requires j < |keys| && Storable(keys[j], withPayload)
    requires HasAt(s, p, EntryChunks(keys, withPayload)[j])
    ensures ReadEntry(s, p, withPayload)
         == Some((Decoded(keys, withPayload)[j], p + |EntryChunks(keys, withPayload)[j]|))
  {
    assert EntryChunks(keys, withPayload)[j] == EntryBytes(WrapU32(j), keys[j], withPayload);
    ReadEntryAt(s, p, WrapU32(j), keys[j], withPayload);
    assert Decoded(keys, withPayload)[j] == DecodedKey(keys[j], withPayload);
  }

  lemma {:induction false} ReadPaletteAt(s: Bytes, pos: nat, keys: seq<PaletteKey>, withPayload: bool)
    requires |keys| < 0x1_0000_0000
    requires forall j :: 0 <= j < |keys| ==> Storable(keys[j], withPayload)
    requires HasAt(s, pos, PaletteBytes(keys, withPayload))
    ensures ReadPalette(s, pos, withPayload)
         == Some((Decoded(keys, withPayload), pos + |PaletteBytes(keys, withPayload)|))
  {
    var chunks, xs, t := EntryChunks(keys, withPayload), Decoded(keys, withPayload), PaletteBytes(keys, withPayload);
    assert |xs| < 0x1_0000_0000 && t == WriteU32(|xs|) + Flatten(chunks) by {
      PaletteLayout(keys, withPayload);
    }
    assert Decodes(EntryReader(s, withPayload), s, chunks, xs) by {
      EntriesDecode(s, keys, withPayload);
    }
    ReadPaletteOf(s, pos, withPayload, chunks, xs, t);
  }

  lemma {:induction false} ReadPaletteOf(s: Bytes, pos: nat, withPayload: bool, chunks: seq<Bytes>,
                                         xs: seq<PaletteKey>, t: Bytes)
    requires |xs| < 0x1_0000_0000 && t == WriteU32(|xs|) + Flatten(chunks)
    requires Decodes(EntryReader(s, withPayload), s, chunks, xs) && HasAt(s, pos, t)
    ensures ReadPalette(s, pos, withPayload) == Some((xs, pos + |t|))
  {
    ReadCountedAt(EntryReader(s, withPayload), s, pos, chunks, xs, t);
  }

  lemma {:induction false} PaletteLayout(keys: seq<PaletteKey>, withPayload: bool)
    requires |keys| < 0x1_0000_0000
    ensures |Decoded(keys, withPayload)| < 0x1_0000_0000
    ensures PaletteBytes(keys, withPayload) == WriteU32(|Decoded(keys, withPayload)|) + Flatten(EntryChunks(keys, withPayload))
  {
  }

  /** A palette of storable keys is read back in order, entry i as key i; the
      payload-free decode rebuilds the keys without their payloads. */
  lemma {:induction false} ReadPaletteOfWritten(p: Bytes, keys: seq<PaletteKey>, withPayload: bool, q: Bytes)
    requires |keys| < 0x1_0000_0000
    requires forall j :: 0 <= j < |keys| ==> Storable(keys[j], withPayload)
    ensures ReadPalette(p + PaletteBytes(keys, withPayload) + q, |p|, withPayload)
         == Some((Decoded(keys, withPayload), |p| + |PaletteBytes(keys, withPayload)|))
  {
    SliceMiddle(p, PaletteBytes(keys, withPayload), q);
    ReadPaletteAt(p + PaletteBytes(keys, withPayload) + q, |p|, keys, withPayload);
  }

  // ---------------------------------------------------------------------------
  // Dictionaries: u32 count, then per entry an id of `width` bytes and a
  // string16 name; the type map has 2-byte ids, the state maps 1-byte ids

  type DictEntry = (nat, Bytes)

  predicate EntryFits(e: DictEntry, width: nat) {
    e.0 < Pow256(width) && |e.1| <= 0xFFFF
  }

  predicate AllFit(es: seq<DictEntry>, width: nat) {
    forall j :: 0 <= j < |es| ==> EntryFits(es[j], width)
  }

  function DictEntryBytes(e: DictEntry, width: nat): (r: Bytes)
    requires EntryFits(e, width)
    ensures |r| == width + 2 + |e.1|
  {
    ToLE(e.0, width) + String16Bytes(e.1)
  }

  function DictChunks(es: seq<DictEntry>, width: nat): (r: seq<Bytes>)
    requires AllFit(es, width)
    ensures |r| == |es| && forall j :: 0 <= j < |es| ==> r[j] == DictEntryBytes(es[j], width)
  {
    seq(|es|, j requires 0 <= j < |es| && EntryFits(es[j], width) => DictEntryBytes(es[j], width))
  }

  function DictBytes(es: seq<DictEntry>, width: nat): (r: Bytes)
    requires AllFit(es, width)
    ensures |r| == 4 + |Flatten(DictChunks(es, width))|
  {
    WriteU32(WrapU32(|es|)) + Flatten(DictChunks(es, width))
  }

  /** Inserting entries in order into a map: a later entry for an id overwrites
      an earlier one. */
  function Insert(m: map<nat, Bytes>, es: seq<DictEntry>): (r: map<nat, Bytes>)
    ensures forall id :: id in m ==> id in r
    decreases |es|
  {
    if es == [] then m else Insert(m[es[0].0 := es[0].1], es[1..])
  }

  /** One dictionary entry: an id of `width` bytes, then its name. */
  function ReadDictEntry(s: Bytes, pos: nat, width: nat): (r: Option<(DictEntry, nat)>)
    ensures r.Some? ==> r.value.1 == pos + width + 2 + |r.value.0.1| && r.value.0.0 < Pow256(width)
  {
    match ReadLE(s, pos, width)
    case None => None
    case Some((id, p1)) =>
      match ReadString16(s, p1)
      case None => None
      case Some((name, p2)) => Some(((id, name), p2))
  }

  function DictEntryReader(s: Bytes, width: nat): (read: nat -> Option<(DictEntry, nat)>) {
    (p: nat) => ReadDictEntry(s, p, width)
  }

  /** The dictionary decode of both readers: the entries inserted in order. */
  function ReadDict(s: Bytes, pos: nat, width: nat): (r: Option<(map<nat, Bytes>, nat)>)
    ensures pos + 4 > |s| ==> r == None
  {
    match ReadCounted(DictEntryReader(s, width), s, pos)
    case None => None
    case Some((es, q)) => Some((Insert(map[], es), q))
  }

  lemma {:induction false} ReadString16At(s: Bytes, pos: nat, u: Bytes)
    requires |u| <= 0xFFFF
    requires pos + 2 + |u| <= |s| && s[pos..pos + 2 + |u|] == String16Bytes(u)
    ensures ReadString16(s, pos) == Some((u, pos + 2 + |u|))
  {
    SplitAt(s, pos, pos + 2, pos + 2 + |u|, WriteU16(|u|), u);
    ReadU16At(s, pos, |u|);
  }

  lemma {:induction false} ReadDictEntryAt(s: Bytes, pos: nat, e: DictEntry, width: nat)
    requires EntryFits(e, width)
    requires HasAt(s, pos, DictEntryBytes(e, width))
    ensures ReadDictEntry(s, pos, width) == Some((e, pos + |DictEntryBytes(e, width)|))
  {
    var end := pos + |DictEntryBytes(e, width)|;
    SplitAt(s, pos, pos + width, end, ToLE(e.0, width), String16Bytes(e.1));
    ReadLEAt(s, pos, e.0, width);
    ReadString16At(s, pos + width, e.1);
  }

  /** Every entry of a dictionary decodes, wherever it lies. */
  lemma {:induction false} DictEntriesDecode(s: Bytes, es: seq<DictEntry>, width: nat)
    requires AllFit(es, width)
    ensures Decodes(DictEntryReader(s, width), s, DictChunks(es, width), es)
  {
    var chunks := DictChunks(es, width);
    forall p: nat, j {:trigger HasAt(s, p, chunks[j])} | 0 <= j < |es| && HasAt(s, p, chunks[j])
      ensures DictEntryReader(s, width)(p) == Some((es[j], p + |chunks[j]|))
    {
      assert chunks[j] == DictEntryBytes(es[j], width);
      ReadDictEntryAt(s, p, es[j], width);
    }
  }

  lemma {:induction false} ReadDictAt(s: Bytes, pos: nat, es: seq<DictEntry>, width: nat)
    requires |es| < 0x1_0000_0000
    requires AllFit(es, width)
    requires HasAt(s, pos, DictBytes(es, width))
    ensures ReadDict(s, pos, width) == Some((Insert(map[], es), pos + |DictBytes(es, width)|))
  {
    assert DictBytes(es, width) == WriteU32(|es|) + Flatten(DictChunks(es, width));
    DictEntriesDecode(s, es, width);
    ReadCountedAt(DictEntryReader(s, width), s, pos, DictChunks(es, width), es, DictBytes(es, width));
  }

  /** Any dictionary is read back as its entries inserted in order. */
  lemma {:induction false} ReadDictOfWritten(p: Bytes, es: seq<DictEntry>, width: nat, q: Bytes)
    requires |es| < 0x1_0000_0000
    requires AllFit(es, width)
    ensures ReadDict(p + DictBytes(es, width) + q, |p|, width)
         == Some((Insert(map[], es), |p| + |DictBytes(es, width)|))
  {
    SliceMiddle(p, DictBytes(es, width), q);
    ReadDictAt(p + DictBytes(es, width) + q, |p|, es, width);
  }

  /** The entries the writers emit for a dense id map: id i names `names[i]`. */
  function Dense(names: seq<Bytes>, from: nat): (es: seq<DictEntry>)
    requires from <= |names|
    ensures |es| == |names| - from
    ensures forall j :: 0 <= j < |es| ==> es[j] == (from + j, names[from + j])
    decreases |names| - from
  {
    if from == |names| then [] else [(from, names[from])] + Dense(names, from + 1)
  }

  /** The map of the first `k` names by position. */
  function IdMap(names: seq<Bytes>, k: nat): (m: map<nat, Bytes>)
    requires k <= |names|
    ensures forall id: nat :: id in m <==> id < k
    ensures forall id :: id in m ==> m[id] == names[id]
  {
    map id: nat | id < k :: names[id]
  }

  lemma {:induction false} InsertDense(names: seq<Bytes>, k: nat)
    requires k <= |names|
    ensures Insert(IdMap(names, k), Dense(names, k)) == IdMap(names, |names|)
    decreases |names| - k
  {
    if k < |names| {
      assert IdMap(names, k)[k := names[k]] == IdMap(names, k + 1);
      assert Dense(names, k)[1..] == Dense(names, k + 1);
      InsertDense(names, k + 1);
    }
  }

  lemma {:induction false} InsertDenseAll(names: seq<Bytes>)
    ensures Insert(map[], Dense(names, 0)) == IdMap(names, |names|)
  {
    assert IdMap(names, 0) == map[];
    InsertDense(names, 0);
  }

  lemma {:induction false} DenseFits(names: seq<Bytes>, width: nat)
    requires |names| <= Pow256(width)
    requires forall j :: 0 <= j < |names| ==> |names[j]| <= 0xFFFF
    ensures AllFit(Dense(names, 0), width)
  {
  }

  /** A dense dictionary of names reads back as the map from each id to its name. */
  lemma {:induction false} ReadDenseDict(s: Bytes, pos: nat, names: seq<Bytes>, width: nat)
    requires |names| < 0x1_0000_0000 && |names| <= Pow256(width)
    requires forall j :: 0 <= j < |names| ==> |names[j]| <= 0xFFFF
    requires AllFit(Dense(names, 0), width) && HasAt(s, pos, DictBytes(Dense(names, 0), width))
    ensures ReadDict(s, pos, width) == Some((IdMap(names, |names|), pos + |DictBytes(Dense(names, 0), width)|))
  {
    ReadDictAt(s, pos, Dense(names, 0), width);
    InsertDenseAll(names);
  }

  /** The payload-free decode of the stream reader, applied to a version-4
      entry: it rebuilds the key but stops at the payload's length field, 4 or
      more bytes short of the entry's end, and the next entry's pid is then
      read from that length field. */
  lemma {:induction false} PayloadFreeReadStopsShort(s: Bytes, pos: nat, pid: PaletteId, k: PaletteKey)
    requires Storable(k, true)
    requires HasAt(s, pos, EntryBytes(pid, k, true))
    ensures ReadEntry(s, pos, false) == Some((Bare(k), pos + 8 + 2 * |k.states|))
    ensures pos + 8 + 2 * |k.states| + 4 <= pos + |EntryBytes(pid, k, true)|
    ensures ReadU32(s, pos + 8 + 2 * |k.states|) == Some((|PayloadBytes(k)|, pos + 12 + 2 * |k.states|))
  {
    EntryPartsAt(s, pos, pid, k, true);
    EntryHeadReadsAt(s, pos, pid, k);
    EntryPairsReadAt(s, pos, k);
    ReadEntryIs(s, pos, false, pid, k);
    PayloadLengthAt(s, pos + 8 + 2 * |k.states|, PayloadBytes(k));
  }

  /** The length field of a string32. */
  lemma {:induction false} PayloadLengthAt(s: Bytes, pos: nat, u: Bytes)
    requires |u| < 0x1_0000_0000
    requires pos + 4 + |u| <= |s| && s[pos..pos + 4 + |u|] == WriteString32(u)
    ensures ReadU32(s, pos) == Some((|u|, pos + 4))
  {
    assert u[..|u|] == u;
    SplitAt(s, pos, pos + 4, pos + 4 + |u|, WriteU32(|u|), u);
    ReadU32At(s, pos, |u|);
  }

  // ---------------------------------------------------------------------------
  // Writing the tables, field by field as the writers do

  /** The offset table: the u64 count, then each offset in order. */
  method WriteOffsetTable(out: Bytes, offs: seq<U64>) returns (r: Bytes)
    requires |offs| < 0x1_0000_0000_0000_0000
    ensures r == out + OffsetTableBytes(offs)
  {
    var chunks := U64Chunks(offs);
    var head := WriteU64(|offs|);
    r := out + head;
    var i := 0;
    while i < |offs|
      invariant 0 <= i <= |offs|
      invariant r == out + head + Flatten(chunks[..i])
    {
      AppendChunk(out + head, chunks, i);
      r := r + WriteU64(offs[i]);
      i := i + 1;
    }
    assert chunks[..i] == chunks;
    Assoc(out, head, Flatten(chunks));
  }

  /** The (name id, value id) pairs of an entry, one byte each. */
  method WritePairs(out: Bytes, states: seq<StatePair>) returns (r: Bytes)
    ensures r == out + PairsBytes(states)
  {
    var chunks := PairChunks(states);
    r := out;
    var i := 0;
    while i < |states|
      invariant 0 <= i <= |states|
      invariant r == out + Flatten(chunks[..i])
    {
      AppendChunk(out, chunks, i);
      r := r + WriteU8(states[i].0) + WriteU8(states[i].1);
      i := i + 1;
    }
    assert chunks[..i] == chunks;
  }

  /** One palette entry: pid, type id, the state count cast to u16, the
      pairs and, in the version-4 layout, the payload. */
  method WriteEntry(out: Bytes, pid: nat, k: PaletteKey, withPayload: bool) returns (r: Bytes)
    ensures r == out + EntryBytes(WrapU32(pid), k, withPayload)
  {
    var head := WriteU32(WrapU32(pid)) + WriteU16(k.typeId) + WriteU16(WrapU16(|k.states|));
    r := out + head;
    r := WritePairs(r, k.states);
    var tail := [];
    if withPayload {
      tail := WriteString32(PayloadBytes(k));
    }
    r := r + tail;
    EntryAssoc(out, head, PairsBytes(k.states), tail);
  }

  lemma {:induction false} EntryAssoc(out: Bytes, head: Bytes, pairs: Bytes, tail: Bytes)
    ensures out + head + pairs + tail == out + (head + (pairs + tail))
  {
  }

  /** The palette: the count cast to u32, then entry `pid` for each key. */
  method WritePalette(out: Bytes, keys: seq<PaletteKey>, withPayload: bool) returns (r: Bytes)
    ensures r == out + PaletteBytes(keys, withPayload)
  {
    var chunks := EntryChunks(keys, withPayload);
    var head := WriteU32(WrapU32(|keys|));
    r := out + head;
    var i := 0;
    while i < |keys|
      invariant 0 <= i <= |keys|
      invariant r == out + head + Flatten(chunks[..i])
    {
      AppendChunk(out + head, chunks, i);
      r := WriteEntry(r, i, keys[i], withPayload);
      i := i + 1;
    }
    assert chunks[..i] == chunks;
    Assoc(out, head, Flatten(chunks));
  }

  /** No name is longer than a string16 can hold. */
  ghost predicate Short(ns: seq<Bytes>) {
    forall j :: 0 <= j < |ns| ==> |ns[j]| <= 0xFFFF
  }

  /** The names as writeString16 stores them, after UTF-8 normalisation. */
  ghost function NormalizeAll(ns: seq<Bytes>, fromCodePage: Bytes -> Bytes): (r: seq<Bytes>)
    ensures |r| == |ns| && forall j :: 0 <= j < |ns| ==> r[j] == Utf8Of(ns[j], fromCodePage)
  {
    seq(|ns|, j requires 0 <= j < |ns| => Utf8Of(ns[j], fromCodePage))
  }

  /** The entries of ids `0..n` of a dense dictionary. */
  function DenseChunks(ns: seq<Bytes>, width: nat, n: nat): (r: seq<Bytes>)
    requires n <= |ns| && n <= Pow256(width)
    requires forall j :: 0 <= j < n ==> |ns[j]| <= 0xFFFF
    ensures |r| == n && forall j :: 0 <= j < n ==> r[j] == DictEntryBytes((j, ns[j]), width)
  {
    seq(n, j requires 0 <= j < n && n <= |ns| && n <= Pow256(width) && |ns[j]| <= 0xFFFF
           => DictEntryBytes((j, ns[j]), width))
  }

  lemma {:induction false} DenseChunksSnoc(ns: seq<Bytes>, width: nat, i: nat)
    requires i < |ns| && i < Pow256(width)
    requires forall j :: 0 <= j <= i ==> |ns[j]| <= 0xFFFF
    ensures Flatten(DenseChunks(ns, width, i + 1))
      == Flatten(DenseChunks(ns, width, i)) + DictEntryBytes((i, ns[i]), width)
  {
    var c := DictEntryBytes((i, ns[i]), width);
    SnocEq(DenseChunks(ns, width, i + 1), DenseChunks(ns, width, i), c);
    FlattenSnoc(DenseChunks(ns, width, i), c);
  }

  lemma {:induction false} DenseChunksAll(ns: seq<Bytes>, width: nat)
    requires |ns| <= Pow256(width) && Short(ns)
    ensures AllFit(Dense(ns, 0), width)
    ensures DictChunks(Dense(ns, 0), width) == DenseChunks(ns, width, |ns|)
  {
  }

  /** A dictionary of consecutive ids (the `std::map` from id to name, in
      ascending id order): the u32 count, then per name its id in `width`
      bytes and the name as a normalised string16. A name longer than 65535
      bytes after normalisation fails the write. */
  method WriteDict(out: Bytes, names: seq<Bytes>, width: nat, fromCodePage: Bytes -> Bytes) returns (r: Result<Bytes>)
    requires |names| <= Pow256(width)
    ensures r.Ok? <==> Short(NormalizeAll(names, fromCodePage))
    ensures r.Ok? ==> AllFit(Dense(NormalizeAll(names, fromCodePage), 0), width)
    ensures r.Ok? ==> r.value == out + DictBytes(Dense(NormalizeAll(names, fromCodePage), 0), width)
  {
    ghost var ns := NormalizeAll(names, fromCodePage);
    var head := WriteU32(WrapU32(|names|));
    var res := out + head;
    var i := 0;
    while i < |names|
      invariant 0 <= i <= |names|
      invariant forall j :: 0 <= j < i ==> |ns[j]| <= 0xFFFF
      invariant res == out + head + Flatten(DenseChunks(ns, width, i))
    {
      var w := WriteString16(names[i], fromCodePage);
      if w.Err? {
        return Err(w.msg);
      }
      DenseChunksSnoc(ns, width, i);
      Assoc(out + head, Flatten(DenseChunks(ns, width, i)), ToLE(i, width) + w.value);
      res := res + (ToLE(i, width) + w.value);
      i := i + 1;
    }
    DenseChunksAll(ns, width);
    Assoc(out, head, Flatten(DenseChunks(ns, width, i)));
    return Ok(res);
  }

  // ---------------------------------------------------------------------------
  // Reading the tables, field by field as the readers do

  /** The offset-table loop of the stream reader: the u64 count, then that
      many u64 offsets pushed in file order. */
  method ReadOffsetsLoop(s: Bytes, pos: nat) returns (r: Option<(seq<U64>, nat)>)
    ensures r == ReadOffsetTable(s, pos)
  {
    var head := ReadU64(s, pos);
    if head.None? {
      return None;
    }
    var n, p := head.value.0, head.value.1;
    var offs: seq<U64> := [];
    var q := p;
    var i := 0;
    while i < n
      invariant 0 <= i <= n
      invariant ReadMany(U64Reader(s), p, i) == Some((offs, q))
    {
      var next := ReadU64(s, q);
      if next.None? {
        ReadManyStops(U64Reader(s), p, i, n, offs, q);
        return None;
      }
      ReadManyStep(U64Reader(s), p, i, offs, q, next.value.0, next.value.1);
      offs := offs + [next.value.0];
      q := next.value.1;
      i := i + 1;
    }
    return Some((offs, q));
  }

  /** The inner loop of a palette entry: `n` (name id, value id) byte pairs. */
  method ReadPairsLoop(s: Bytes, pos: nat, n: nat) returns (r: Option<(seq<StatePair>, nat)>)
    ensures r == ReadPairs(s, pos, n)
  {
    var states: seq<StatePair> := [];
    var q := pos;
    var i := 0;
    while i < n
      invariant 0 <= i <= n
      invariant ReadMany(PairReader(s), pos, i) == Some((states, q))
    {
      var next := ReadPair(s, q);
      if next.None? {
        ReadManyStops(PairReader(s), pos, i, n, states, q);
        return None;
      }
      ReadManyStep(PairReader(s), pos, i, states, q, next.value.0, next.value.1);
      states := states + [next.value.0];
      q := next.value.1;
      i := i + 1;
    }
    return Some((states, q));
  }

  /** One palette entry as both readers decode it: the pid, read and
      ignored, the type id, the state count, then the pairs; no payload. */
  method ReadEntryFields(s: Bytes, pos: nat) returns (r: Option<(PaletteKey, nat)>)
    ensures r == ReadEntry(s, pos, false)
  {
    var pid := ReadU32(s, pos);
    if pid.None? {
      return None;
    }
    var typeId := ReadU16(s, pos + 4);
    if typeId.None? {
      return None;
    }
    var count := ReadU16(s, pos + 6);
    if count.None? {
      return None;
    }
    var states := ReadPairsLoop(s, pos + 8, count.value.0);
    if states.None? {
      return None;
    }
    return Some((PaletteKey(typeId.value.0, states.value.0, None), states.value.1));
  }

  /** The palette loop of both readers: the u32 count, then that many
      entries pushed in order, entry `i` at position `i`. */
  method ReadPaletteLoop(s: Bytes, pos: nat) returns (r: Option<(seq<PaletteKey>, nat)>)
    ensures r == ReadPalette(s, pos, false)
  {
    var head := ReadU32(s, pos);
    if head.None? {
      return None;
    }
    var n, p := head.value.0, head.value.1;
    var keys: seq<PaletteKey> := [];
    var q := p;
    var i := 0;
    while i < n
      invariant 0 <= i <= n
      invariant ReadMany(EntryReader(s, false), p, i) == Some((keys, q))
    {
      var next := ReadEntryFields(s, q);
      if next.None? {
        ReadManyStops(EntryReader(s, false), p, i, n, keys, q);
        return None;
      }
      ReadManyStep(EntryReader(s, false), p, i, keys, q, next.value.0, next.value.1);
      keys := keys + [next.value.0];
      q := next.value.1;
      i := i + 1;
    }
    return Some((keys, q));
  }

  /** Inserting one more entry at the end. */
  lemma {:induction false} InsertSnoc(acc: map<nat, Bytes>, es: seq<DictEntry>, e: DictEntry)
    ensures Insert(acc, es + [e]) == Insert(acc, es)[e.0 := e.1]
    decreases |es|
  {
    if es == [] {
      assert es + [e] == [e];
      assert [e][1..] == [];
    } else {
      assert (es + [e])[0] == es[0];
      assert (es + [e])[1..] == es[1..] + [e];
      InsertSnoc(acc[es[0].0 := es[0].1], es[1..], e);
    }
  }

  /** The dictionary loop of both readers: the u32 count, then per entry an
      id of `width` bytes and a string16 name, stored with `map[id] = name`
      so that a later entry for an id overwrites an earlier one. */
  method ReadDictLoop(s: Bytes, pos: nat, width: nat) returns (r: Option<(map<nat, Bytes>, nat)>)
    ensures r == ReadDict(s, pos, width)
  {
    var head := ReadU32(s, pos);
    if head.None? {
      return None;
    }
    var n, p := head.value.0, head.value.1;
    var m: map<nat, Bytes> := map[];
    ghost var es: seq<DictEntry> := [];
    var q := p;
    var i := 0;
    while i < n
      invariant 0 <= i <= n
      invariant ReadMany(DictEntryReader(s, width), p, i) == Some((es, q)) && m == Insert(map[], es)
    {
      var next := ReadDictEntry(s, q, width);
      if next.None? {
        ReadManyStops(DictEntryReader(s, width), p, i, n, es, q);
        return None;
      }
      var (id, name) := next.value.0;
      ReadManyStep(DictEntryReader(s, width), p, i, es, q, (id, name), next.value.1);
      InsertSnoc(map[], es, (id, name));
      m := m[id := name];
      es := es + [(id, name)];
      q := next.value.1;
      i := i + 1;
    }
    return Some((m, q));
  }
}

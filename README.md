# TemplateTool block container, modelled in Dafny

TemplateTool converts Minecraft structure files (Sponge `.schem`,
Litematica `.litematic`, `.mcfunction` command lists) into its own block
container format, BCF. This project models the core of that pipeline and
proves properties of the model:

- **The container format.** Little-endian integers and length-prefixed
  strings (`bcf_io.hpp`, `core/bcf_io.hpp`, including `is_valid_utf8`), the
  packed 67-byte header and the palette key with its equality and hash
  (`bcf_structs.hpp`), block groups (`BlockUtils.hpp`), sub-chunk records
  (`SubChunkUtils.hpp`), and the tables that follow the records (offset
  table, palette, id dictionaries). Every writer is paired with its reader
  and the round trip is proved, wherever in a stream the bytes lie.
- **The bounded spilling writers.** The latest `BCFCachedWriter`
  (`Writer/BCFCachedWriter.hpp`: fixed 144 × 144 partitions, interning,
  eviction every 200 blocks, spill files, and the version-4 merge) and the
  older one (`BCFCachedWriter.hpp`: partitions relative to running bounds,
  80% eviction target, throwing spill, version-3 merge). Both are classes
  whose methods update their maps in place. Ghost ledgers record, per
  partition, the cells each writer was handed. The proofs show that every
  cell is either held, spilled or (latest writer only) recorded as lost, and
  that the merged file holds exactly the cells that were handed over.
- **The in-memory writer and its utilities.** `BCFWriter.hpp` and `BCFUtils.hpp`
  (`writeBCF`, `readPalette` and the coordinate lookups).
- **The two readers.** `BCFStreamReader.hpp` and `BCFReader.hpp`, proved to
  read back what `writeBCF` writes.
- **The merger.** `BCFBlockMerger.hpp`: the output file name and the
  region-to-cell expansion.
- **The two greedy box compressors.** `core/RegionMergeUtils.hpp` and
  `RegionMergeUtils.hpp`. Per palette id the emitted boxes cover exactly the
  input cells and never overlap.
- **The importer-side decoders.** Schem varints and the air filter, Litematica
  packed longs, and the mcfunction line parser; the block-string converter
  (`BlockStateConverter.hpp`/`.cpp`); and the `txt2inc.py` template script.
  The Schem air filter is the corrected one (see "Findings"); the Litematica
  filter is kept as written, so it skips every name that contains "air",
  stairs included.

Conventions of the model:

- A byte is an `int` between 0 and 255, and a file or stream is a
  `seq<Byte>`. Writing appends; reading at a cursor yields the value and
  the next cursor, or `None` when the stream ends first. In the original
  the value read past the end is indeterminate.
- Integer widths are explicit: `int16_t`, `int32_t` and the unsigned
  widths are subset types, conversions wrap modulo 2^n (`WrapI16`,
  `WrapI32`, ...), and C++ `/` and `%` truncate toward zero (`CInt`).
- An operation that throws returns `Err` of a `Result`; a lookup that can
  miss returns an `Option`.
- The grid of cells a compressor works on is a set of coordinate triples.
  Packing a cell into a key is proved injective, so this is the same
  membership.
- `unordered_map` iteration order is unspecified, and the model picks any
  key (`:|`). `std::sort` in the latest `checkAndFlush` is unstable: the
  model picks any remaining partition of largest size.
- The old writer's 80% target, computed in floating point, is `4 * max / 5`
  rounded down.
- A spill file is the list of batches appended to it, kept per partition
  index. Whether a partition's spill file opens is a parameter (a predicate
  on the partition index). The finished container is a byte sequence.
- The latest writer erases a partition before it flushes it. When its spill
  file does not open, the batch is lost; the ledger `lost` records those
  cells. The old writer throws instead (`Err`), and the partition stays in
  memory.
- Three-coordinate sub-chunk records, as both cached writers write them,
  are the u64 size, three `int16_t` origins, the u32 region count and the
  regions. `core/SubChunkUtils.hpp`, which writes them, is not part of this
  model: the layout follows the container format, and the one-origin
  `SubChunkUtils.hpp` gives the rest.
- The fields of `BCFUtils` are never filled by any code, so its lookups take
  a `Utils` value holding the sub-chunks and tables.
- The readers' `getBlocks` lists, for each region `readSubChunk` returns,
  every cell of the region's box. The source reads a block group's `count`
  and coordinate vectors from that result (see "Left out").
- The merger and the importers drive the cached writer. Their effect is the
  sequence of calls they make on it (`Calls.Call`): each `addBlock` with its
  arguments, then `finalize`.

## Model

| member | source | states |
|---|---|---|
| LittleEndian.FromToLE | bcf_io.hpp:7-8 | the little-endian bytes `write_le` produces for a value that fits read back as that value |
| LittleEndian.ToFromLE | bcf_io.hpp:7-8 | the bytes read as a number are the number's own little-endian bytes |
| LittleEndian.WriteU16 | bcf_io.hpp:11 | `write_u16` emits two bytes that read as the value |
| LittleEndian.WriteU32 | bcf_io.hpp:12 | `write_u32` emits four bytes that read as the value |
| LittleEndian.WriteU64 | bcf_io.hpp:13 | `write_u64` emits eight bytes that read as the value |
| LittleEndian.WriteI16 | bcf_io.hpp:14 | `write_i16` emits the two's-complement bytes of the signed value |
| LittleEndian.I16FromBits | bcf_io.hpp:20 | the signed reading of a 16-bit pattern is the value whose two's complement is that pattern |
| LittleEndian.WrapU16 | bcf_io.hpp:33 | a `static_cast` to an unsigned type keeps every value that fits |
| LittleEndian.WrapI16 | SchemToBCF.hpp:51-53 | a conversion to `int16_t` keeps every value that fits and otherwise differs by a multiple of 2^16 |
| LittleEndian.WrapI32 | Writer/BCFCachedWriter.hpp:398-404 | `int` arithmetic keeps every value that fits and otherwise differs by a multiple of 2^32 |
| LittleEndian.ReadLE | bcf_io.hpp:8 | a read succeeds exactly when enough bytes remain, and advances the cursor by the width |
| LittleEndian.ReadU16 | bcf_io.hpp:17 | `read_u16` succeeds exactly when two bytes remain |
| LittleEndian.ReadU32 | bcf_io.hpp:18 | `read_u32` succeeds exactly when four bytes remain |
| LittleEndian.ReadU64 | bcf_io.hpp:19 | `read_u64` succeeds exactly when eight bytes remain |
| LittleEndian.ReadI16 | bcf_io.hpp:20 | `read_i16` succeeds exactly when two bytes remain |
| LittleEndian.ReadU8OfWritten | bcf_io.hpp:10-16 | `read_u8` reads back what `write_u8` wrote, wherever it lies |
| LittleEndian.ReadU16OfWritten | bcf_io.hpp:11-17 | `read_u16` reads back what `write_u16` wrote, wherever it lies |
| LittleEndian.ReadU32OfWritten | bcf_io.hpp:12-18 | `read_u32` reads back what `write_u32` wrote, wherever it lies |
| LittleEndian.ReadU64OfWritten | bcf_io.hpp:13-19 | `read_u64` reads back what `write_u64` wrote, wherever it lies |
| LittleEndian.ReadI16OfWritten | bcf_io.hpp:14-20 | `read_i16` reads back what `write_i16` wrote, negative values included |
| LittleEndian.WriteFields | bcf_structs.hpp:24-46 | a packed struct takes exactly the sum of its field widths |
| LittleEndian.ReadFields | bcf_structs.hpp:24-46 | reading a packed struct succeeds exactly when its bytes are all present, and each field fits its width |
| LittleEndian.ReadFieldsOfWritten | bcf_structs.hpp:24-46 | a packed struct written with `write_le` reads back field by field |
| StringCodec.LeadLengthMatchesPattern | core/bcf_io.hpp:36-63 | the shift tests of `is_valid_utf8` recognise exactly the 1- to 4-byte character patterns |
| StringCodec.Utf8Unfold | core/bcf_io.hpp:33-64 | a non-empty string passes exactly when its first character is well formed and the rest passes |
| StringCodec.IsValidUtf8 | core/bcf_io.hpp:29-66 | `is_valid_utf8`: the loop answers true exactly when the string is a sequence of well-formed characters |
| StringCodec.Utf8Append | core/bcf_io.hpp:29-66 | after a valid string, an appended part keeps the whole valid exactly when it is valid itself |
| StringCodec.TruncatedCharRejected | core/bcf_io.hpp:42-56 | a multi-byte character cut off by the end of the string is rejected |
| StringCodec.AcceptsOverlongAndSurrogate | core/bcf_io.hpp:41-51 | the check accepts the overlong form of NUL and an encoded surrogate, which RFC 3629 forbids |
| StringCodec.EnsureUtf8 | core/bcf_io.hpp:89-97 | `ensure_utf8`: empty or valid strings pass unchanged, anything else goes through the code-page conversion |
| StringCodec.WriteString16 | core/bcf_io.hpp:104-123 | `writeString16`: normalised text longer than 65535 bytes throws, otherwise a u16 length and the bytes |
| StringCodec.WriteString16Plain | bcf_io.hpp:23-37 | the older `writeString16` throws exactly above 65535 bytes and otherwise writes the length and the bytes unchanged |
| StringCodec.ReadString16 | bcf_io.hpp:39-43 | `readString16` consumes the length field and exactly the bytes it returns |
| StringCodec.ReadString16OfWritten | core/bcf_io.hpp:119-130 | a string16 record reads back as its bytes, wherever it lies |
| StringCodec.String16RoundTrip | core/bcf_io.hpp:104-130 | a valid UTF-8 string of at most 65535 bytes is written and read back unchanged |
| StringCodec.PlainString16RoundTrip | bcf_io.hpp:23-43 | in the older copy every string of at most 65535 bytes round-trips |
| StringCodec.WriteString32 | core/bcf_io.hpp:133-137 | `writeString32`: a u32 length, then the bytes |
| StringCodec.ReadString32 | core/bcf_io.hpp:140-144 | `readString32` consumes the length field and exactly the bytes it returns |
| StringCodec.ReadString32OfWritten | core/bcf_io.hpp:133-144 | a string32 record reads back as its bytes, wherever it lies |
| StringCodec.WriteString32Plain | bcf_io.hpp:46-51 | the older `writeString32` writes every byte after a length field |
| StringCodec.ReadString32Plain | bcf_io.hpp:54-58 | the older `readString32` never returns more than 65535 bytes |
| StringCodec.PlainString32RoundTrip | bcf_io.hpp:46-58 | the older pair round-trips below 65536 bytes |
| StringCodec.PlainString32Truncates | bcf_io.hpp:54-58 | a 65536-byte string written by the older pair reads back as the empty string, with the cursor left inside the payload |
| CInt.Quot | Writer/BCFCachedWriter.hpp:90-94 | C++ `/` by a positive divisor truncates toward zero: the quotient times the divisor is the multiple nearest the dividend on zero's side, within one divisor of it |
| CInt.QuotNonNeg | Writer/BCFCachedWriter.hpp:90-94 | for a non-negative dividend C++ and Euclidean division agree |
| CInt.Rem | Writer/BCFCachedWriter.hpp:102-103 | C++ `%`: quotient times divisor plus remainder gives the dividend, and the remainder takes the dividend's sign |
| Bits.CeilLog2 | LitematicToBCF.hpp:143 | the bit width chosen for a palette is the fewest bits that number all its entries |
| Bits.ShrDivides | LitematicToBCF.hpp:207-229 | a right shift divides by a power of two |
| Bits.AndMask | LitematicToBCF.hpp:207-229 | masking with `2^b - 1` keeps the low `b` bits |
| Bits.OrDisjoint | LitematicToBCF.hpp:207-229 | or-ing bits below a position with bits above it adds them |
| Bits.Shl | LitematicToBCF.hpp:207-229 | a left shift in a `w`-bit word stays below `2^w` |
| Bits.HighShiftVanishes | LitematicToBCF.hpp:207-229 | shifting left by the word width or more leaves nothing |
| Text.FindChar | McfunctionToBCF.hpp:147 | `find(c, pos)`: a position found is at or after `pos` and holds `c` |
| Text.FindCharFirst | McfunctionToBCF.hpp:147 | nothing before the position found holds `c`, and nothing at all when none is found |
| Text.TrimSpec | BlockStateConverter.hpp:80-85 | `trim` returns the middle of its input with only blanks cut, and no blank left at either end |
| Text.TrimOfTrimmed | BlockStateConverter.hpp:80-85 | text with no blank at its ends is its own trim |
| Text.TrimTwice | BlockStateConverter.hpp:80-85 | `trim` is idempotent |
| Text.PiecesOfJoin | McfunctionToBCF.hpp:145-157 | splitting at ',' what was joined with ',' gives the pieces back, when none holds a ',' and the last is not empty |
| Text.JoinOfPieces | McfunctionToBCF.hpp:145-157 | joining the pieces of a text gives the text back, but for a trailing ',' |
| Text.Stoi | McfunctionToBCF.hpp:75 | `std::stoi` yields only `int` values |
| Text.NatText | BCFReader.hpp:79 | `std::to_string` of a natural number is a non-empty run of digits |
| Text.ValueOfNatText | BCFReader.hpp:79 | the digits of `std::to_string` denote the number |
| Text.StoiOfIntText | McfunctionToBCF.hpp:75 | `std::stoi` reads back what `std::to_string` wrote, for every `int` |
| LittleEndian.WriteU8 | bcf_io.hpp:10 | `write_u8` emits the one byte it is given |
| LittleEndian.ReadU8 | bcf_io.hpp:16 | `read_u8` succeeds exactly when a byte remains, and returns that byte and the position after it |
| LittleEndian.I16Bits | bcf_io.hpp:14 | `write_i16` stores a non-negative value as itself and a negative one as its two's complement |
| StringCodec.String16Bytes | bcf_io.hpp:23-37 | a string16 record is the two length bytes followed by the string's own bytes |
| Text.FindCharIs | McfunctionToBCF.hpp:147 | `find(c, pos)` returns the first position at or after `pos` that holds `c` |
| Text.LeadingBlanks | BlockStateConverter.hpp:80-85 | `find_first_not_of` skips exactly the blanks at the front |
| Text.TrailingBlanks | BlockStateConverter.hpp:80-85 | `find_last_not_of` skips exactly the blanks at the back |
| Structs.DefaultHeader | bcf_structs.hpp:37-45 | the default header: magic "BCF", version 4, 144 by 144 by 376, every count and offset zero, and a base size of 120 because 376 does not fit the `uint8_t` field |
| Structs.HeaderWidthsSum | bcf_structs.hpp:24-35 | the packed header takes 67 bytes, the sum of its fifteen field widths |
| Structs.HeaderFields | bcf_structs.hpp:24-35 | each header field fits its declared width |
| Structs.HeaderFieldBounds | bcf_structs.hpp:24-35 | fields read with the header's widths lie within their types |
| Structs.WriteHeader | bcf_structs.hpp:20-46 | the packed header is written in exactly 67 bytes |
| Structs.ReadHeader | bcf_structs.hpp:20-46 | a header is read exactly when 67 bytes remain, and the cursor moves past it |
| Structs.ReadHeaderOfWritten | bcf_structs.hpp:20-46 | a header written as packed bytes is read back unchanged, wherever it lies |
| Structs.StatesEqualFromSpec | bcf_structs.hpp:83-84 | the state loop of `operator==` finds no difference from `i` on exactly when the two tails are equal |
| Structs.KeyEqualsIsEquality | bcf_structs.hpp:77-86 | `PaletteKey::operator==` holds exactly when type, states and payload are all equal |
| Structs.MixStatesAppend | bcf_structs.hpp:93-96 | hashing the states folds over them: hashing two runs is hashing the second from the hash of the first |
| Structs.KeyHashRespectsEquality | bcf_structs.hpp:90-109 | keys equal under `operator==` hash alike, so the hash suits an `unordered_map` |
| Structs.ReadHeaderAt | bcf_structs.hpp:20-46 | a header is read back from wherever a stream holds its bytes, and the cursor ends right after it |
| Structs.MixStatesSnoc | bcf_structs.hpp:93-96 | one more state pair mixes its name id, then its value id, into the hash so far |
| BlockGroups.AddBlock | BlockUtils.hpp:10-13 | `addBlock` appends the cell to the three coordinate lists, keeps the palette id and sets the count to the new length, truncated to 32 bits |
| BlockGroups.AddBlockKeepsWellFormed | BlockUtils.hpp:10-13 | below 2^32 blocks the group stays well formed and holds one more cell, the one added |
| BlockGroups.ZipAppend | BlockUtils.hpp:57-59 | appending coordinate lists side by side adds their cells |
| BlockGroups.CellsAppend | BlockUtils.hpp:54-61 | the cells of two runs of groups are the cells of each run together |
| BlockGroups.WriteBlockGroup | BlockUtils.hpp:21-29 | `writeBlockGroup` writes 8 header bytes and 6 bytes per counted block |
| BlockGroups.ReadCoords | BlockUtils.hpp:37-41 | the coordinate loop reads `n` cells in 6n bytes |
| BlockGroups.ReadBlockGroup | BlockUtils.hpp:32-43 | `readBlockGroup` yields a well-formed group whose count matches its lists, in 8 + 6·count bytes |
| BlockGroups.ReadBlockGroupOfWritten | BlockUtils.hpp:21-43 | a well-formed group written by `writeBlockGroup` is read back unchanged, wherever it lies |
| BlockGroups.MergedAbsent | BlockUtils.hpp:54-61 | a palette id no input group has collects no cells |
| BlockGroups.MergedAligned | BlockUtils.hpp:57-60 | each merged group has equally long coordinate lists and its count matches them |
| BlockGroups.GroupByPalette | BlockUtils.hpp:52-61 | the first loop of `mergeBlockGroups` keys one group per palette id present, holding that id's coordinates in input order |
| BlockGroups.MapValues | BlockUtils.hpp:64-66 | copying out the map's values lists each value once, and every key appears |
| BlockGroups.MergeBlockGroups | BlockUtils.hpp:51-68 | `mergeBlockGroups`: one group per palette id present, each holding all that id's blocks in input order, and no cell gained or lost |
| BlockGroups.MergedSnocOne | BlockUtils.hpp:54-61 | one more input group adds its cells to its own palette id's merged group only |
| BlockGroups.MergedCellsComplete | BlockUtils.hpp:54-61 | the merged groups over every palette id present hold exactly the input cells |
| BlockGroups.MergePreservesCells | BlockUtils.hpp:51-68 | merging preserves the multiset of (palette id, x, y, z) cells |
| SubChunks.RegionBytes | SubChunkUtils.hpp:17-23 | a region is written in 16 bytes |
| SubChunks.SubChunkRecord | SubChunkUtils.hpp:8-31 | a sub-chunk record takes 14 bytes plus 16 per region |
| SubChunks.SubChunkRecord3 | Writer/BCFCachedWriter.hpp:450 | the three-origin record takes 18 bytes plus 16 per region |
| SubChunks.RecordSizeField | SubChunkUtils.hpp:26-29 | the size patched into the record's first field is the record's own length |
| SubChunks.WriteRecord | SubChunkUtils.hpp:8-31 | the placeholder written, the fields and regions appended, the size patched in: the output grows by exactly the record |
| SubChunks.AppendRegions | SubChunkUtils.hpp:16-24 | the region loop appends the regions' bytes in order |
| SubChunks.WriteSubChunk | SubChunkUtils.hpp:8-31 | `writeSubChunk` appends exactly the record: size, origin y, count, regions |
| SubChunks.WriteSubChunk3 | Writer/BCFCachedWriter.hpp:450 | the three-origin `writeSubChunk` appends size, the three origins, count and regions |
| SubChunks.ReadRegion | SubChunkUtils.hpp:44-52 | a region is read from 16 bytes |
| SubChunks.ReadRegionAt | SubChunkUtils.hpp:17-23 | a region's bytes read back as the region |
| SubChunks.ReadRegions | SubChunkUtils.hpp:43-53 | the region loop reads `n` regions from 16n bytes |
| SubChunks.ReadRegionsAt | SubChunkUtils.hpp:16-24 | written regions read back in order |
| SubChunks.ParseSubChunk | SubChunkUtils.hpp:33-56 | `readSubChunk` consumes 14 bytes plus 16 per region |
| SubChunks.ReadSubChunk | SubChunkUtils.hpp:33-56 | the reading loop computes exactly the parse |
| SubChunks.ReadRegionList | SubChunkUtils.hpp:43-53 | the region loop computes exactly the region parse |
| SubChunks.ReadSubChunkAt | SubChunkUtils.hpp:8-56 | a record written by `writeSubChunk` reads back as its size, origin y and regions, wherever it lies |
| SubChunks.ParseSubChunk3 | Writer/BCFCachedWriter.hpp:450 | the three-origin record consumes 18 bytes plus 16 per region |
| SubChunks.ReadSubChunk3At | Writer/BCFCachedWriter.hpp:450 | a three-origin record reads back as its size, origins and regions |
| SubChunks.FindCell | SubChunkUtils.hpp:60-66 | the inner loop finds a match exactly when some counted entry of the group holds the cell |
| SubChunks.GetPaletteId | SubChunkUtils.hpp:57-72 | `getPaletteId`: the id of the first group holding the cell, or `(PaletteID)-1` when none does |
| BlockGroups.ReadBlockGroupAt | BlockUtils.hpp:21-43 | a well-formed group is read back unchanged from its 8 + 6·count byte record |
| SubChunks.Record | SubChunkUtils.hpp:8-31 | a record is 8 size bytes, the origin part, 4 count bytes and 16 bytes per region |
| RegionMerge.PackPos | core/RegionMergeUtils.hpp:16-20 | `packPos` puts the three 16-bit patterns in the low 48 bits |
| RegionMerge.UnpackPack | core/RegionMergeUtils.hpp:16-26 | `unpackPos` recovers the coordinates `packPos` packed, negative ones included |
| RegionMerge.PackInjective | core/RegionMergeUtils.hpp:16-20 | distinct cells get distinct keys, so a set of keys is a set of cells |
| RegionMerge.OverlapWitness | core/RegionMergeUtils.hpp:92-96 | two boxes that are not disjoint share a cell |
| RegionMerge.GroupCells | core/RegionMergeUtils.hpp:37-41 | the keys collected from a group are exactly its first `count` cells |
| RegionMerge.GridOfAbsent | core/RegionMergeUtils.hpp:35-46 | a palette id no group has gets no grid |
| RegionMerge.GridOfInRange | core/RegionMergeUtils.hpp:35-46 | with every coordinate below 32767, every grid cell can grow by one without overflow |
| RegionMerge.BuildGrids | core/RegionMergeUtils.hpp:33-46 | one grid per palette id present, holding the cells of all its groups |
| RegionMerge.GroupCellSet | core/RegionMergeUtils.hpp:37-45 | the temporary key list of a group holds exactly its counted cells |
| RegionMerge.GridOfSnoc | core/RegionMergeUtils.hpp:35-46 | one more group adds its cells to its own palette id's grid only |
| RegionMerge.ExpandX | core/RegionMergeUtils.hpp:56-60 | the x scan stops at the last cell of the unbroken run from the start |
| RegionMerge.RowPresent | core/RegionMergeUtils.hpp:66-71 | the inner loop answers whether the whole row is present |
| RegionMerge.ExpandZ | core/RegionMergeUtils.hpp:62-73 | the z scan grows the run into the largest full rectangle in that direction: all rows in, the next row not full |
| RegionMerge.FacePresent | core/RegionMergeUtils.hpp:79-87 | the nested loops answer whether the whole face is present |
| RegionMerge.ExpandY | core/RegionMergeUtils.hpp:75-89 | the y scan grows the rectangle into a box wholly in the grid, the next layer not full |
| RegionMerge.EraseRow | core/RegionMergeUtils.hpp:104-106 | erasing one row of a box removes exactly its cells |
| RegionMerge.ErasePlane | core/RegionMergeUtils.hpp:103-107 | erasing one plane removes exactly its cells |
| RegionMerge.EraseBox | core/RegionMergeUtils.hpp:99-112 | erasing the box removes exactly its cells and keeps the rest |
| RegionMerge.GrowBox | core/RegionMergeUtils.hpp:51-96 | the box built from a start cell starts there and lies wholly in the grid |
| RegionMerge.CompressPalette | core/RegionMergeUtils.hpp:50-113 | the greedy loop covers the palette's grid exactly, with ordered, pairwise disjoint boxes |
| RegionMerge.AppendBox | core/RegionMergeUtils.hpp:92-112 | adding a box and erasing its cells keeps the boxes plus the grid equal to the original cells, and the new box disjoint from the old ones |
| RegionMerge.MergeToRegions | core/RegionMergeUtils.hpp:29-117 | `mergeToRegions`: for every palette id the regions cover exactly its cells, and regions of one id never overlap |
| RegionMerge.AppendPalette | core/RegionMergeUtils.hpp:49-114 | adding one palette's boxes extends the exact cover to that palette |
| RegionMergeSix.InitRange | RegionMergeUtils.hpp:24-36 | `CoordRange::init`: each axis gets enough bits, `ceil(log2(extent))`, to number its extent |
| RegionMergeSix.DecodeEncode | RegionMergeUtils.hpp:38-49 | within the scanned range, `decode` recovers the coordinates `encode` packed |
| RegionMergeSix.EncodeInjective | RegionMergeUtils.hpp:38-42 | within the scanned range, distinct cells get distinct keys |
| RegionMergeSix.EncodeAll | RegionMergeUtils.hpp:74-79 | every cell of a grid has its key in the encoded grid |
| RegionMergeSix.RowRangeIsScanned | RegionMergeUtils.hpp:60-71 | the range scanned from the cells (0,0,0) and (1,0,0) has a 1-bit x axis |
| RegionMergeSix.EncodeRow | RegionMergeUtils.hpp:38-42 | in that range the key of (n,0,0) is n mod 2: the mask drops the high bits of an out-of-range x |
| RegionMergeSix.HasAsWrittenAliases | RegionMergeUtils.hpp:129-131 | `has` as written reports (n,0,0) present for every n, so `expandX` from that grid never stops |
| RegionMergeSix.HasInRangeExact | RegionMergeUtils.hpp:129-131 | `has` with a bounds test reports exactly the cells of the grid |
| RegionMergeSix.ScanRange | RegionMergeUtils.hpp:60-70 | the scanned bounds enclose every counted cell of every group |
| RegionMergeSix.ScanGroup | RegionMergeUtils.hpp:62-69 | the inner loop widens the bounds over one group's cells |
| RegionMergeSix.Order | RegionMergeUtils.hpp:82-84 | each expansion order is a permutation of the three axes |
| RegionMergeSix.OrdersDistinct | RegionMergeUtils.hpp:82-84 | the six orders are pairwise different |
| RegionMergeSix.FacePresent | RegionMergeUtils.hpp:152-153 | the nested loops find every cell of the next face present exactly when the face is full |
| RegionMergeSix.ExpandedX | RegionMergeUtils.hpp:149-156 | `expandX` only moves `x2` up, stops at the first face that is not full, and keeps a box inside the grid inside it |
| RegionMergeSix.ExpandedZ | RegionMergeUtils.hpp:158-165 | `expandZ` likewise along z |
| RegionMergeSix.ExpandedY | RegionMergeUtils.hpp:167-174 | `expandY` likewise along y |
| RegionMergeSix.ExpandX | RegionMergeUtils.hpp:149-156 | the loop computes exactly the x expansion |
| RegionMergeSix.ExpandZ | RegionMergeUtils.hpp:158-165 | the loop computes exactly the z expansion |
| RegionMergeSix.ExpandY | RegionMergeUtils.hpp:167-174 | the loop computes exactly the y expansion |
| RegionMergeSix.SeedBoxAsWritten | RegionMergeUtils.hpp:140 | the aggregate initialiser fills x1, y1, z1, x2, y2, z2 with x, x, y, y, z, z |
| RegionMergeSix.SeedBoxAsWrittenNeverStops | RegionMergeUtils.hpp:140-155 | for the seed (0,5,0) the box's z range is empty, so every x face counts as full and `expandX` never returns |
| RegionMergeSix.SeedBox | RegionMergeUtils.hpp:140 | the seed box meant: ordered, starting at the seed |
| RegionMergeSix.SeedBoxIsSeed | RegionMergeUtils.hpp:140 | the seed box holds the seed cell and nothing else |
| RegionMergeSix.Expansions | RegionMergeUtils.hpp:141-145 | the expansions keep the box ordered, its low corner fixed and inside the grid |
| RegionMergeSix.Candidate | RegionMergeUtils.hpp:133-147 | `tryExpansion` yields an ordered box from the seed, wholly in the grid |
| RegionMergeSix.TryExpansion | RegionMergeUtils.hpp:133-147 | the loop over the order computes exactly the candidate |
| RegionMergeSix.SelectedIsMax | RegionMergeUtils.hpp:110-117 | the candidate kept has the largest volume of all |
| RegionMergeSix.SelectedIsFirst | RegionMergeUtils.hpp:110-117 | every candidate before it is strictly smaller: ties go to the earliest order |
| RegionMergeSix.BestIsFirstLargest | RegionMergeUtils.hpp:101-117 | the box kept is the first of the six candidates of largest volume |
| RegionMergeSix.ChooseSequential | RegionMergeUtils.hpp:109-117 | the sequential branch picks exactly that box |
| RegionMergeSix.ChooseAllFirst | RegionMergeUtils.hpp:93-108 | the branch that computes all six candidates first picks the same box |
| RegionMergeSix.ComputeCandidates | RegionMergeUtils.hpp:94-99 | the six candidates, in the order of the orders |
| RegionMergeSix.SelectLargest | RegionMergeUtils.hpp:101-108 | the selection loop keeps the first candidate of largest volume |
| RegionMergeSix.BoxKeys | RegionMergeUtils.hpp:179-184 | the key list holds exactly the box's cells |
| RegionMergeSix.EraseKeys | RegionMergeUtils.hpp:186-201 | erasing the listed keys leaves exactly the other cells |
| RegionMergeSix.RebuildWithout | RegionMergeUtils.hpp:204-211 | the rebuilt grid holds exactly the cells outside the box |
| RegionMergeSix.RebuildUnreachable | RegionMergeUtils.hpp:178-202 | a box over half the grid is already over a quarter of it, so the rebuild branch is never taken |
| RegionMergeSix.RemoveRegion | RegionMergeUtils.hpp:176-219 | `removeRegion` removes exactly the box's cells, whichever branch runs |
| RegionMergeSix.CompressPalette | RegionMergeUtils.hpp:87-122 | the greedy loop covers the palette's grid exactly with ordered, pairwise disjoint boxes |
| RegionMergeSix.CompressStep | RegionMergeUtils.hpp:88-121 | one pass keeps the boxes plus the cells left equal to the grid and removes at least the seed |
| RegionMergeSix.MergeToRegions | RegionMergeUtils.hpp:52-126 | `mergeToRegions` with the seed box corrected: per palette id the regions cover exactly its cells and never overlap |
| RegionMergeSix.Expanded | RegionMergeUtils.hpp:149-174 | growing along any axis keeps the box ordered, its low corner and palette id fixed, and a box inside the grid inside it |
| RegionMergeSix.ExpandAlong | RegionMergeUtils.hpp:141-145 | the expansion dispatched on the axis number is that axis's expansion |
| RegionMergeSix.CandidatesUpTo | RegionMergeUtils.hpp:94-99 | one candidate per order, each an ordered box from the seed wholly in the grid |
| RegionMergeSix.Best | RegionMergeUtils.hpp:91-120 | the box kept for a seed starts at the seed and lies wholly in the grid |
| Air.BaseName | SchemToBCF.hpp:159-170 | the base name of a block string is a prefix of it |
| Air.AirIsAirAsWritten | SchemToBCF.hpp:83-88 | every real air block (`air`, `cave_air`, `void_air`) is also caught by the `find("air")` filter, which can only be too eager |
| Air.StairsAreDropped | SchemToBCF.hpp:85 | `minecraft:oak_stairs` contains "air" and is not air: the filter as written drops it |
| BlockStrings.Unquote | BlockStateConverter.hpp:140-142 | a value of two or more characters wrapped in double quotes loses exactly those two quotes; any other value is kept |
| BlockStrings.LastPiece | BlockStateConverter.hpp:126-131 | when no ',' is left, the rest of the list is one last piece |
| BlockStrings.NextPiece | BlockStateConverter.hpp:126-147 | the states of a list are those of the piece before the next ',' followed by those of the text after it |
| BlockStrings.ParseBlockString | BlockStateConverter.hpp:105-150 | the parsing loop returns the name before the first '[' and the states of the pieces up to the first ']' after it, under the parser's rule for a `key=value` piece |
| BlockStrings.ParseStates | McfunctionToBCF.hpp:145-162 | the comma loop returns, in order, one state for each piece containing '=', key before the first '=' and value after it |
| BlockStrings.WithoutKeyMembers | SchemToBCF.hpp:194 | removing a key keeps exactly the states with another key |
| BlockStrings.PairsDropWaterlogged | SchemToBCF.hpp:183-200 | reading pieces with `waterlogged` dropped equals reading them verbatim and then removing every `waterlogged` state |
| BlockStrings.DropWaterloggedFilters | SchemToBCF.hpp:159-205 | the Schem parser gives the same name as the verbatim parser and its states without `waterlogged` |
| BlockStrings.PiecePairOfText | BlockStateConverter.hpp:97-144 | a clean state written as `k=v` or `k="v"` reads back as itself |
| BlockStrings.PairsOfTexts | BlockStateConverter.hpp:94-147 | a list of clean states written piece by piece reads back as the same list |
| BlockStrings.JoinLacks | BlockStateConverter.hpp:94-99 | joining pieces with ',' adds no other character |
| BlockStrings.ParseOfBlockText | BlockStateConverter.hpp:88-150 | a block string built by `buildBlockString` (quoted) or by a command (verbatim) parses back as its name and states, for a name without '[' and clean states |
| Cells.IndexRegroup | SchemToBCF.hpp:97 | the flat index `x + z*w + y*w*l` regroups as row-major over layers and rows |
| Cells.RowInLayer | SchemToBCF.hpp:97 | a cell's offset within its layer lies inside the layer |
| Cells.CellOfIndex | SchemToBCF.hpp:97 | the cell a flat index names is the cell that produced it: the index is injective over the box |
| Cells.CellAtIndex | SchemToBCF.hpp:97 | every flat index names a cell of the box's rows and layers that produces it |
| Cells.IndexStep | SchemToBCF.hpp:94-97 | the YZX walk visits consecutive flat indices: a step in x adds one, a row end moves to the next row, a layer end to the next layer |
| Cells.BoxEnds | SchemToBCF.hpp:94-97 | the walk starts at index 0 and ends at `w*h*l` |
| Cells.IndexInBox | SchemToBCF.hpp:97-98 | every cell of the box reads an index below `w*h*l` |
| Cells.BoxOfIndex | SchemToBCF.hpp:97-98 | a cell whose index is below `w*h*l` lies in a layer of the box |
| Schem.LebSnoc | SchemToBCF.hpp:145 | appending a 7-bit group adds it at the next power of 128 |
| Schem.GroupStep | SchemToBCF.hpp:142-147 | or-ing the next group shifted into a `w`-bit word keeps the value equal to the groups read so far modulo 2^w |
| Schem.GroupsFront | SchemToBCF.hpp:142-147 | a varint is its first byte's low seven bits, followed by the rest only when the high bit is set |
| Schem.ReadVarInt | SchemToBCF.hpp:137-147 | the inner `do` loop returns the varint at the cursor (truncated to 32 bits) and stops after its last byte or at the end of the data |
| Schem.DecodeVarIntArray | SchemToBCF.hpp:131-153 | `decodeVarIntArray`: a negative count throws `length_error` (from `reserve`), otherwise the first `totalBlocks` varints, fewer when the data runs out |
| Schem.EncodeReads | SchemToBCF.hpp:142-147 | a value's LEB128 encoding reads back as the value and is consumed exactly |
| Schem.OneEncoded | SchemToBCF.hpp:142-149 | a value below 2^31 encoded and followed by anything reads back as that value, leaving the rest untouched |
| Schem.VarIntsOfEncoded | SchemToBCF.hpp:131-153 | decoding the encodings of a list of values below 2^31 gives the list back |
| Schem.AllContinue | SchemToBCF.hpp:143 | a run of bytes with the high bit set is read to the end of the data |
| Schem.TruncatedTail | SchemToBCF.hpp:136-150 | a trailing varint cut off by the end of the data still yields one value |
| Schem.MaxId | SchemToBCF.hpp:62-69 | `maxPaletteId` bounds every id and is one of them, or -1 for an empty palette |
| Schem.LastId | SchemToBCF.hpp:73-76 | the last entry carrying an id, or none when no entry does |
| Schem.PlacedSlot | SchemToBCF.hpp:71-76 | after storing the entries in order, each slot holds the name of the last entry with that id, or is empty |
| Schem.BuildPalette | SchemToBCF.hpp:61-76 | the two palette loops build the id-indexed table sized `maxPaletteId + 1` |
| Schem.AirFlags | SchemToBCF.hpp:83-88 | one air flag per palette slot, set exactly for air blocks (corrected, see Findings: the source's `find("air")` test also catches stairs) |
| Schem.AirFilter | SchemToBCF.hpp:83-88 | the air loop computes those flags (corrected, see Findings) |
| Schem.Blocks | SchemToBCF.hpp:107-111 | one converted block per palette name |
| Schem.InBox | SchemToBCF.hpp:97-98 | a cell of the box reads an index inside the decoded array |
| Schem.ConvertName | SchemToBCF.hpp:107-111 | a palette name is parsed with `waterlogged` dropped and then converted |
| Schem.EmitCell | SchemToBCF.hpp:97-114 | one cell: an `addBlock` of its converted block when its id names a stored non-air block, nothing otherwise (air test corrected, see Findings) |
| Schem.EmitRow | SchemToBCF.hpp:96-115 | the x loop appends the calls of the row's cells in ascending x |
| Schem.EmitLayer | SchemToBCF.hpp:95-116 | the z loop appends the calls of the layer's rows in ascending z |
| Schem.EmitBox | SchemToBCF.hpp:94-117 | the y loop makes the calls of the box's layers in ascending y |
| Schem.Import | SchemToBCF.hpp:36-127 | `convert`: `length_error` before any call when the `int` product of the dimensions is negative; otherwise one `addBlock` per kept cell in YZX order, then `finalize` (air test corrected, see Findings) |
| Schem.RowFrom | SchemToBCF.hpp:96-115 | every call of a row comes from one of its cells |
| Schem.LayerFrom | SchemToBCF.hpp:95-116 | every call of a layer comes from one of its rows |
| Schem.BoxFrom | SchemToBCF.hpp:94-117 | every call of the box comes from one of its layers |
| Schem.RowHas | SchemToBCF.hpp:96-115 | the call of any cell of a row is among the row's calls |
| Schem.LayerHas | SchemToBCF.hpp:95-116 | the calls of any row are among the layer's calls |
| Schem.BoxHas | SchemToBCF.hpp:94-117 | the calls of any layer are among the box's calls |
| Schem.AddsAtKept | SchemToBCF.hpp:94-117 | a cell gets an `addBlock` exactly when it lies in the box and its id names a stored non-air block, and then the call carries that block converted (air test corrected, see Findings) |
| Air.NoBracket | SchemToBCF.hpp:159-170 | a block string without '[' is its own base name |
| Litematic.Field | LitematicToBCF.hpp:210-229 | entry `i` of a `b`-bit packing is below `2^b` |
| Litematic.StreamBound | LitematicToBCF.hpp:198-233 | `n` longs read as `uint64_t` hold fewer than `2^(64n)` bit patterns |
| Litematic.StreamDrop | LitematicToBCF.hpp:211-213 | skipping whole longs is a shift by a multiple of 64 bits |
| Litematic.FieldPastEnd | LitematicToBCF.hpp:215-218 | an entry starting past the last long reads 0 |
| Litematic.FieldInOneLong | LitematicToBCF.hpp:221 | an entry that fits in its long is that long shifted right by the bit offset, masked |
| Litematic.FieldAcross | LitematicToBCF.hpp:224-227 | an entry crossing into the next long takes its high bits from that long |
| Litematic.FieldLastLong | LitematicToBCF.hpp:221-224 | an entry crossing the end of the last long has zeros above it |
| Litematic.EntryInLong | LitematicToBCF.hpp:221-229 | the shift and mask of one long give the entry, whenever no next long is spliced in |
| Litematic.EntryAcross | LitematicToBCF.hpp:221-229 | the shift, the spliced next long and the mask give the entry |
| Litematic.UnpackEntry | LitematicToBCF.hpp:211-229 | one pass of the decode loop returns bits `[i*b, i*b + b)` of the longs, lowest long first, zeros past the end |
| Litematic.DecodeBlockStates | LitematicToBCF.hpp:198-233 | `decodeBlockStates`: `length_error` for a negative count (from `reserve`), otherwise exactly `totalBlocks` entries, entry `i` being bits `[i*b, i*b + b)` with a width of 0 or less read as 1 |
| Litematic.DecodedBelow | LitematicToBCF.hpp:207-229 | at most 31 bits wide, every decoded entry is a non-negative index below `2^b` |
| Litematic.StreamOfOnes | LitematicToBCF.hpp:221 | a fully set array is the all-ones bit string |
| Litematic.FieldOfOnes | LitematicToBCF.hpp:221-229 | in a fully set array every whole entry reads `2^b - 1` |
| Litematic.Normalize | LitematicToBCF.hpp:135-137 | a negative size moves the position to the low end: the normalised box spans the same two ends with a size that is never negative |
| Litematic.BitsPerBlock | LitematicToBCF.hpp:143 | the fewest bits, at least one, that number every palette entry |
| Litematic.BitsPerBlockBelow | LitematicToBCF.hpp:139-143 | a palette an `int` can count needs at most 31 bits |
| Litematic.IndicesSpec | LitematicToBCF.hpp:145-151 | one index per cell: the decoded entry below the capacity, 0 (the `resize` padding) from it on |
| Litematic.WholeEntriesRead | LitematicToBCF.hpp:145-151 | with the capacity counted in whole entries, every cell whose entry lies inside the array reads that entry |
| Litematic.CapacityAsWrittenDropsEntries | LitematicToBCF.hpp:144-151 | with `size * (64 / b)` as the capacity, a cell whose entry lies inside a fully set array reads 0 instead of `2^b - 1` |
| Litematic.FiveBitExample | LitematicToBCF.hpp:143-151 | with 5 bits, five set longs and 64 cells, cell 60 reads 0 as written and 31 with the whole-entry capacity |
| Litematic.BuildAirFilter | LitematicToBCF.hpp:186-195 | `buildAirFilter`, as written: one flag per palette entry, set exactly for the names that contain "air", stairs included |
| Litematic.ExtractBlockStates | LitematicToBCF.hpp:234-243 | `extractBlockStates`: the properties in order with `waterlogged` dropped |
| Litematic.Blocks | LitematicToBCF.hpp:170-178 | one converted block per palette entry |
| Litematic.ConvertEntry | LitematicToBCF.hpp:170-178 | a palette entry becomes its name and its properties without `waterlogged`, converted |
| Litematic.EmitCell | LitematicToBCF.hpp:158-180 | one cell: an `addBlock` at the region's corner plus the cell of its converted block when its index names an entry whose name does not contain "air", nothing otherwise |
| Litematic.EmitRow | LitematicToBCF.hpp:156-181 | the x loop appends the calls of the row's cells in ascending x |
| Litematic.EmitLayer | LitematicToBCF.hpp:155-182 | the z loop appends the calls of the layer's rows in ascending z |
| Litematic.EmitBox | LitematicToBCF.hpp:154-183 | the y loop appends the calls of the box's layers in ascending y |
| Litematic.RegionScene | LitematicToBCF.hpp:122-151 | the scene a fitting region builds satisfies the walk's invariant (capacity corrected, see Findings) |
| Litematic.UnpackIndices | LitematicToBCF.hpp:143-151 | the width, the capacity, the decode and the padding give one palette index per cell (capacity corrected, see Findings) |
| Litematic.SceneOfRegion | LitematicToBCF.hpp:122-151 | the scene `processRegion` assembles is the region's scene (capacity corrected, see Findings) |
| Litematic.ProcessRegion | LitematicToBCF.hpp:122-184 | `processRegion` appends exactly the region's calls (capacity corrected, see Findings) |
| Litematic.Import | LitematicToBCF.hpp:32-118 | `convert`: no call when `Metadata` or `Regions` is missing; otherwise every region's calls in the compound's order, then `finalize` |
| Litematic.RowFrom | LitematicToBCF.hpp:156-181 | every call of a row comes from one of its cells |
| Litematic.LayerFrom | LitematicToBCF.hpp:155-182 | every call of a layer comes from one of its rows |
| Litematic.BoxFrom | LitematicToBCF.hpp:154-183 | every call of a region comes from one of its layers |
| Litematic.RowHas | LitematicToBCF.hpp:156-181 | the call of any cell of a row is among the row's calls |
| Litematic.LayerHas | LitematicToBCF.hpp:155-182 | the calls of any row are among the layer's calls |
| Litematic.BoxHas | LitematicToBCF.hpp:154-183 | the calls of any layer are among the region's calls |
| Litematic.CellCall | LitematicToBCF.hpp:167-180 | a cell's call is an `addBlock` at the corner plus the cell, for an index the `find("air")` filter keeps |
| Litematic.AddedIsKept | LitematicToBCF.hpp:154-183 | a position gets an `addBlock` only for a cell of the box whose index names an entry without "air" in its name |
| Litematic.KeptIsAdded | LitematicToBCF.hpp:154-183 | every such cell gets an `addBlock` of its converted block |
| Litematic.AddsAtKept | LitematicToBCF.hpp:154-183 | a position gets an `addBlock` exactly when it is a cell of the region whose entry's name lacks "air", and then with that entry converted |
| Litematic.StairsCellSkipped | LitematicToBCF.hpp:165-195 | a cell whose entry is `minecraft:oak_stairs` gets no call: the filter as written drops stairs |
| Litematic.AddsAtAppend | LitematicToBCF.hpp:73-75 | a position is added by two call lists in turn exactly when one of them adds it |
| Litematic.ImportAddsAt | LitematicToBCF.hpp:73-75 | a position is added by the import exactly when some region adds it |
| Converter.JoinSnoc | BlockStateConverter.hpp:95-98 | joining one more piece adds a ',' and the piece, or is the piece alone |
| Converter.PieceTextsSnoc | BlockStateConverter.hpp:95-98 | the pieces of one more state end with that state's piece |
| Converter.BuildBlockString | BlockStateConverter.hpp:88-101 | `buildBlockString`: the name alone without states, else the name and the states as `k="v"` pieces joined by ',' inside brackets |
| Converter.ConvertSpec | BlockStateConverter.hpp:54-77 | `convert`: a block whose quoted text the table maps to a written block becomes that block; a block the table does not know comes back unchanged |
| Converter.LastWith | BlockStateConverter.hpp:44 | the last entry with a key, or none when no entry has it |
| Converter.ApplyLookup | BlockStateConverter.hpp:44 | after storing the entries, a key maps to the value of its last entry, and keys no entry names keep their old value |
| Converter.ApplySnoc | BlockStateConverter.hpp:44 | storing one more entry overwrites that key alone |
| Converter.TableText | BlockStateConverter.cpp:4-23 | a written table takes three lines per entry |
| Converter.TableEntriesOfText | BlockStateConverter.cpp:4-23 | loading a table written as `in : k`, any line, `out: v` for trimmed entries reads back those entries |
| Converter.BlockStateConverter.constructor | BlockStateConverter.hpp:13 | the converter starts with an empty table |
| Converter.BlockStateConverter.LoadFromStream | BlockStateConverter.cpp:4-23 | `loadFromStream` fails exactly when an `in :` or `out:` line is four characters long (`substr(5)` throws); otherwise it returns true and the table holds the old one updated with every entry in order; after a throw the table holds the old one updated with the entries before the throwing line |
| Converter.StoredAll | BlockStateConverter.cpp:4-23 | when nothing throws, the entries the loop stores are exactly the table's entries |
| Converter.BlockStateConverter.LoadFromFile | BlockStateConverter.hpp:17-51 | `loadFromFile`: false and nothing changed when the file cannot be opened, otherwise as `loadFromStream` on its lines |
| Records.ReadMany | BCFReader.hpp:29-41 | a table read of `n` records yields exactly `n` records, and reading none stays where it started |
| Records.DecodesEach | BCFReader.hpp:29-41 | a table decodes when each of its records does |
| Records.ReadManyOfChunks | BCFReader.hpp:29-41 | a table whose records each decode reads back as those records, in order, and stops right after the last one |
| Records.ReadManyTo | BCFReader.hpp:29-41 | the same, ending where the caller says the table ends |
| Records.ReadCounted | BCFReader.hpp:27-29 | a counted table fails when its u32 count is cut off |
| Records.ReadCountedAt | BCFReader.hpp:27-41 | a counted table whose records each decode reads back as those records |
| Records.ReadManyStep | BCFReader.hpp:29-41 | one more record, read where the first `i` left off, extends the table by that record |
| Records.ReadManyStops | BCFReader.hpp:29-41 | a record that fails to read fails every longer read through it |
| Records.ReadManyKeeps | BCFReader.hpp:29-41 | a reader that never moves backwards and whose every record satisfies a property reads tables that end no earlier than they start and hold only such records |
| Records.ReadCountedKeeps | BCFReader.hpp:27-41 | the same for a counted table, which also ends after its count |
| Records.ReadManyFixed | BCFStreamReader.hpp:35-37 | a table of `n` fixed-size records ends `n` record sizes after its start |
| Container.Layout | Writer/BCFCachedWriter.hpp:406-527 | a container is the header, the records and the tables, and takes exactly their sizes |
| Container.RecordOffsets | Writer/BCFCachedWriter.hpp:413-416 | the offset of each record is the stream position before it, one offset per record |
| Container.LayoutParts | Writer/BCFCachedWriter.hpp:406-527 | the header lies at 0, the records right after it and the tables after those |
| Container.DictOf | Writer/BCFCachedWriter.hpp:493-514 | a dense id map written as a dictionary: every id fits its width and id `i` names the `i`-th name |
| Container.FileTables | Writer/BCFCachedWriter.hpp:453-514 | the five tables after the records: offsets, palette, type map, state-name map, state-value map |
| Container.FileHeader | Writer/BCFCachedWriter.hpp:516-524 | the patched header keeps the magic, takes the version and has no separate payload section |
| Container.ReadContainerFile | Writer/BCFCachedWriter.hpp:406-527 | a container reads back: the patched header with the version, world size and record count, one offset per record pointing at that record, and the palette and the three name maps each ending where the next table starts, the last at the end of the file |
| Container.RecordsIn | Writer/BCFCachedWriter.hpp:413-451 | the records lie at the offsets the writer recorded for them |
| Container.TablesAt | Writer/BCFCachedWriter.hpp:453-514 | each table lies where the previous one ends, and the last ends the file |
| Spill.GroupChunks | Writer/BCFCachedWriter.hpp:359-361 | one record per group |
| Spill.BatchBytes | Writer/BCFCachedWriter.hpp:358-361 | a batch always starts with its 4-byte count |
| Spill.SpillBytes | Writer/BCFCachedWriter.hpp:349-369 | a spill file is empty exactly when nothing was flushed into it |
| Spill.Concat | Writer/BCFCachedWriter.hpp:432-440 | no batches hold no groups |
| Spill.AppendBatch | Writer/BCFCachedWriter.hpp:358-361 | `flushSubChunkToCache` on an open file appends the u32 group count and then each group's record |
| Spill.SpillBytesSnoc | Writer/BCFCachedWriter.hpp:349-369 | appending a batch to a spill file extends its list of batches |
| Spill.ConcatSnoc | Writer/BCFCachedWriter.hpp:432-440 | the groups of one batch more are the earlier groups followed by that batch's |
| Spill.ReadBatch | Writer/BCFCachedWriter.hpp:436-439 | a batch read consumes at least its count and yields only well-formed groups |
| Spill.ReadSpill | Writer/BCFCachedWriter.hpp:435-440 | the read loop yields only well-formed groups |
| Spill.GroupAt | BlockUtils.hpp:21-43 | a group record is read back as written, wherever it lies |
| Spill.GroupsDecode | BlockUtils.hpp:21-43 | every group record of a batch decodes, wherever it lies |
| Spill.ReadBatchAt | Writer/BCFCachedWriter.hpp:436-439 | a batch is read back as written, wherever it lies |
| Spill.ReadSpillAt | Writer/BCFCachedWriter.hpp:435-440 | batches laid out to the end of the file read back as all their groups in order |
| Spill.ReadSpillHead | Writer/BCFCachedWriter.hpp:435-439 | the first batch of a spill file is read back, leaving exactly the rest |
| Spill.SpillCons | Writer/BCFCachedWriter.hpp:349-369 | a non-empty spill file starts with its first batch |
| Spill.ReadSpillOfWritten | Writer/BCFCachedWriter.hpp:349-440 | a spill file reads back as all its batches' groups, in the order they were flushed |
| Spill.ReadSpillFile | Writer/BCFCachedWriter.hpp:435-440 | the `peek() != EOF` loop computes the spill read: all groups, or a failure when the file ends inside a batch |
| Spill.ReadBatchLoop | Writer/BCFCachedWriter.hpp:436-439 | one pass of the outer loop reads a batch, moves past it, and the whole read is that batch followed by the rest |
| Spill.ReadGroups | Writer/BCFCachedWriter.hpp:437-439 | the inner loop reads `n` group records one after another |
| Spill.Prefixed | Writer/BCFCachedWriter.hpp:432-440 | prefixing groups keeps a failure a failure and otherwise puts them in front |
| Spill.PrefixedAppend | Writer/BCFCachedWriter.hpp:432-440 | prefixing twice is prefixing once with both lists in order |
| Tables.U64Chunks | Writer/BCFCachedWriter.hpp:456-458 | one 8-byte little-endian record per offset, in order |
| Tables.OffsetTableBytes | Writer/BCFCachedWriter.hpp:455-458 | the offset table takes 8 bytes for its count and 8 per offset |
| Tables.ReadOffsetTable | BCFStreamReader.hpp:32-37 | the offset table fails when its count is cut off |
| Tables.ReadOffsetTableAt | BCFStreamReader.hpp:32-37 | an offset table lying at the cursor reads back as its offsets, in order, ending right after it |
| Tables.ReadOffsetTableOfWritten | Writer/BCFCachedWriter.hpp:454-458 | the offset table is read back as written, wherever it lies |
| Tables.PairChunks | Writer/BCFCachedWriter.hpp:472-475 | each state pair is written as its two bytes |
| Tables.PairsBytes | Writer/BCFCachedWriter.hpp:472-475 | the pairs take two bytes each |
| Tables.ReadPair | BCFReader.hpp:36-38 | a pair reads exactly when two bytes remain, and is those two bytes |
| Tables.ReadPairs | BCFReader.hpp:35-39 | a read of `n` pairs yields `n` pairs |
| Tables.ReadPairsAt | BCFReader.hpp:35-39 | pairs lying at the cursor read back as themselves |
| Tables.PayloadBytes | Writer/BCFCachedWriter.hpp:480-489 | the payload written for an entry: the serialised blob, or the empty string when there is none |
| Tables.EntryHead | Writer/BCFCachedWriter.hpp:469-471 | the fixed part of an entry (pid, type id, state count) takes 8 bytes |
| Tables.EntryChunks | Writer/BCFCachedWriter.hpp:463-491 | entry `j` is written with pid `j` cast to u32 |
| Tables.PaletteBytes | Writer/BCFCachedWriter.hpp:462-491 | the palette takes its 4-byte count and its entries |
| Tables.Bare | BCFReader.hpp:34-40 | the key a payload-free reader rebuilds keeps type and states and has no payload |
| Tables.ReadEntry | BCFReader.hpp:30-40 | a decoded entry holds fewer than 65536 states (its count is a u16) |
| Tables.ReadPalette | BCFReader.hpp:26-41 | the palette fails when its count is cut off |
| Tables.DecodedKey | BCFReader.hpp:34-40 | a reader rebuilds type and states, and the payload only when it reads payloads |
| Tables.Decoded | BCFReader.hpp:26-41 | one rebuilt key per entry; a payload-aware read rebuilds the keys exactly |
| Tables.ReadEntryIs | BCFReader.hpp:30-40 | an entry decodes as its pid, type id, count, pairs and, for a payload-aware read, its string32 payload, an empty one meaning none |
| Tables.ReadEntryAt | BCFReader.hpp:30-40 | any storable key's entry decodes to the key (without payload when payloads are not read), wherever it lies |
| Tables.EntryReadsAt | BCFReader.hpp:30-39 | each read an entry is made of returns the field written there |
| Tables.EntryEnd | Writer/BCFCachedWriter.hpp:467-489 | an entry takes 8 bytes, 2 per state and, in the payload layout, 4 plus the payload |
| Tables.EntriesDecode | BCFReader.hpp:29-41 | every entry of a palette of storable keys decodes, wherever it lies |
| Tables.ReadEntryChunkAt | BCFReader.hpp:29-41 | the `j`-th entry decodes to the `j`-th rebuilt key |
| Tables.ReadPaletteAt | BCFReader.hpp:26-41 | a palette lying at the cursor reads back as its rebuilt keys in order, ending right after it |
| Tables.ReadPaletteOfWritten | Writer/BCFCachedWriter.hpp:461-491 | a palette of storable keys is read back in order, entry `i` as key `i`, wherever it lies |
| Tables.DictEntryBytes | Writer/BCFCachedWriter.hpp:495-498 | a dictionary entry takes its id width, 2 length bytes and its name |
| Tables.DictChunks | Writer/BCFCachedWriter.hpp:495-498 | one record per entry |
| Tables.DictBytes | Writer/BCFCachedWriter.hpp:494-498 | a dictionary takes its 4-byte count and its entries |
| Tables.Insert | BCFReader.hpp:49 | inserting entries never loses an id |
| Tables.ReadDictEntry | BCFReader.hpp:47-48 | a dictionary entry ends after its id, its length field and its name, and its id fits its width |
| Tables.ReadDict | BCFReader.hpp:44-50 | a dictionary fails when its count is cut off |
| Tables.ReadDictEntryAt | BCFReader.hpp:47-48 | a dictionary entry lying at the cursor reads back as itself |
| Tables.DictEntriesDecode | BCFReader.hpp:46-50 | every entry of a dictionary decodes, wherever it lies |
| Tables.ReadDictAt | BCFReader.hpp:44-50 | a dictionary lying at the cursor reads back as its entries inserted in order |
| Tables.ReadDictOfWritten | Writer/BCFCachedWriter.hpp:493-498 | any dictionary is read back as its entries inserted in order, later ones overwriting |
| Tables.Dense | Writer/BCFCachedWriter.hpp:495-498 | the entries of a dense id map: id `i` names the `i`-th name |
| Tables.IdMap | BCFReader.hpp:49 | the map of the first `k` names holds exactly ids below `k`, each naming its name |
| Tables.InsertDense | BCFReader.hpp:46-50 | inserting the rest of a dense map completes it |
| Tables.InsertDenseAll | BCFReader.hpp:46-50 | inserting a dense map's entries gives the map from each id to its name |
| Tables.DenseFits | Writer/BCFCachedWriter.hpp:496 | every id of a dense map fits its width |
| Tables.ReadDenseDict | BCFReader.hpp:44-50 | a dense dictionary reads back as the map from each id to its name |
| Tables.PayloadFreeReadStopsShort | BCFStreamReader.hpp:43-55 | read without payloads, a payload-layout entry rebuilds the key but stops at the payload's length field, at least 4 bytes short of the entry's end |
| Tables.WriteOffsetTable | Writer/BCFCachedWriter.hpp:455-458 | the offset-table loop appends the count and then each offset |
| Tables.WritePairs | Writer/BCFCachedWriter.hpp:472-475 | the pair loop appends two bytes per state |
| Tables.WriteEntry | Writer/BCFCachedWriter.hpp:469-489 | one entry: pid, type id, state count cast to u16, the pairs and, in the payload layout, the payload |
| Tables.WritePalette | Writer/BCFCachedWriter.hpp:462-491 | the palette loop appends the count and entry `pid` for each key |
| Tables.NormalizeAll | core/bcf_io.hpp:104-110 | each name as `writeString16` stores it, after UTF-8 normalisation |
| Tables.DenseChunks | Writer/BCFCachedWriter.hpp:495-498 | the entries of ids `0..n` of a dense dictionary |
| Tables.DenseChunksAll | Writer/BCFCachedWriter.hpp:495-498 | all entries of a dense dictionary fit their width and are its records |
| Tables.WriteDict | Writer/BCFCachedWriter.hpp:493-498 | a dictionary loop succeeds exactly when every normalised name fits a u16 length, and then appends the count and each id with its name |
| Tables.ReadOffsetsLoop | BCFStreamReader.hpp:32-37 | the offset loop computes the offset-table read |
| Tables.ReadPairsLoop | BCFReader.hpp:35-39 | the state loop computes the pairs read |
| Tables.ReadEntryFields | BCFReader.hpp:30-40 | the body of the palette loop computes the payload-free entry read |
| Tables.ReadPaletteLoop | BCFReader.hpp:26-41 | the palette loop computes the payload-free palette read |
| Tables.InsertSnoc | BCFReader.hpp:49 | inserting one more entry overwrites that id alone |
| Tables.ReadDictLoop | BCFReader.hpp:44-50 | the dictionary loop computes the dictionary read, a later id overwriting an earlier one |
| Interning.IndexOf | Writer/BCFCachedWriter.hpp:253-255 | the id of a key is the position of its first occurrence in the insertion order |
| Interning.IndexOfPrefix | Writer/BCFCachedWriter.hpp:247-251 | interning more keys never changes the id of a key already present |
| Interning.IndexOfAppend | Writer/BCFCachedWriter.hpp:253-255 | a new key gets the next id, the number of keys interned before it |
| Interning.NumberingIndex | Writer/BCFCachedWriter.hpp:212-222 | when the two maps and the order agree, the reverse map gives the key's position in the order |
| Interning.NumberingDistinct | Writer/BCFCachedWriter.hpp:212-222 | a consistent pair of maps never hands out one name twice |
| Interning.NumberingAppend | Writer/BCFCachedWriter.hpp:218-220 | adding a fresh name under the next id to both maps keeps them consistent with the extended order |
| Interning.NumberingDropLast | Writer/BCFCachedWriter.hpp:218-220 | removing the last name from the order and both maps keeps them consistent |
| Interning.NumberingCard | Writer/BCFCachedWriter.hpp:212-222 | the reverse map has exactly as many names as ids handed out |
| Interning.SubsetCard | Writer/BCFCachedWriter.hpp:212-222 | a subset of names is no larger than the set, used for the id-width bounds |
| Interning.Interner.constructor | Writer/BCFCachedWriter.hpp:72-84 | a new name table is empty and consistent |
| Interning.Interner.GetOrCreate | Writer/BCFCachedWriter.hpp:212-246 | a known name returns its id and changes nothing; an unknown name gets the next id in both maps; either way the returned id stays below the table's width and, while the names fit, names the argument; the name that overflows the width wraps `nextTypeId` to 0, takes id 0 and leaves the first name mapped to an id that now names another |
| Interning.Describe | Writer/BCFCachedWriter.hpp:109-117 | a palette key read back through the three name tables gives its block type, its state pairs in order and its payload |
| Interning.DescribeInjective | Writer/BCFCachedWriter.hpp:247-257 | with duplicate-free name tables, two keys that describe the same block are the same key |
| Interning.Palette.constructor | Writer/BCFCachedWriter.hpp:72-84 | a new palette is empty |
| Interning.Palette.GetOrCreatePaletteId | Writer/BCFCachedWriter.hpp:247-257 | a known key returns its existing id; a new key is appended and gets the old list length; the id is always the key's first position |
| Interning.StatesHave | Writer/BCFCachedWriter.hpp:112-116 | every state pair's name and value belong to the names and values the call interns |
| Interning.AllNamedAppend | Writer/BCFCachedWriter.hpp:118 | appending a key whose ids all resolve keeps every palette key resolvable |
| Interning.KeyDescribes | Writer/BCFCachedWriter.hpp:106-117 | a key built from the interned ids describes exactly the block type, states and payload it was built from |
| Interning.StatesNumberedGrow | Writer/BCFCachedWriter.hpp:112-116 | ids already handed out keep resolving after more names are interned |
| Interning.StatesNumberedAppend | Writer/BCFCachedWriter.hpp:112-116 | pushing one more id pair that resolves to the next state keeps the key's states matching |
| Interning.Metadata.constructor | Writer/BCFCachedWriter.hpp:72-84 | the writer starts with empty type, state-name, state-value and palette tables |
| Interning.Metadata.InternPair | Writer/BCFCachedWriter.hpp:113-115 | one state pair's name and value are interned, each table only grows, and the returned ids name them |
| Interning.Metadata.InternStates | Writer/BCFCachedWriter.hpp:111-116 | the whole state list becomes id pairs, one per pair, each resolving to its name and value, and only the listed names and values are added |
| Interning.Metadata.Intern | Writer/BCFCachedWriter.hpp:105-118 | the block gets the palette id whose key describes exactly its type, states and payload; it is the only such id; the palette grows by at most that key |
| Interning.Metadata.DistinctOrders | Writer/BCFCachedWriter.hpp:212-246 | no name appears twice in any of the three name tables |
| Partitions.Column | Writer/BCFCachedWriter.hpp:90-94 | the column of a coordinate is its floor division by 144, whatever its sign |
| Partitions.Local | Writer/BCFCachedWriter.hpp:102-103 | the offset inside a column is in 0..143 and column start plus offset gives back the coordinate |
| Partitions.LocalY | Writer/BCFCachedWriter.hpp:104 | the stored height is y + 56 whenever that fits a 16-bit coordinate |
| Partitions.Origin | Writer/BCFCachedWriter.hpp:420-425 | a sub-chunk's height origin is the world's minimum height cast to 16 bits |
| Partitions.PartitionRoundTrip | Writer/BCFCachedWriter.hpp:90-104 | inside the supported range, the partition index decodes back to the block's columns, and origin plus local position gives back x, y and z |
| Partitions.PartitionIndexInjective | Writer/BCFCachedWriter.hpp:100 | inside the supported range two positions share a partition exactly when they share both columns |
| Partitions.SizeIsCells | Writer/BCFCachedWriter.hpp:339-343 | the summed group counts equal the number of stored cells |
| Partitions.SizeSnoc | Writer/BCFCachedWriter.hpp:340-342 | one more group adds its count to the partition's size |
| Partitions.PartitionSize | Writer/BCFCachedWriter.hpp:340-342 | the loop over a partition's groups sums their counts |
| Partitions.TotalRemove | Writer/BCFCachedWriter.hpp:337-345 | the total over all partitions is one partition's size plus the total over the rest, whatever order the map yields |
| Partitions.RemoveBoth | Writer/BCFCachedWriter.hpp:339 | removing two partitions in either order leaves the same map |
| Partitions.TotalEmpty | Writer/BCFCachedWriter.hpp:337-338 | no partitions hold no blocks |
| Partitions.TotalBlocksInMemory | Writer/BCFCachedWriter.hpp:337-345 | the nested loop returns the total count over every partition |
| Partitions.AddBlockToGroup | Writer/BCFCachedWriter.hpp:258-296 | the loop appends the cell to the first group with the palette id, or appends a new one-cell group |
| Partitions.WithBlockAt | Writer/BCFCachedWriter.hpp:262-287 | with the first matching group at i, only that group gains the cell; with none, a new group for the id is appended at the end |
| Partitions.PidsAre | Writer/BCFCachedWriter.hpp:262-263 | the palette ids of a partition are those of its groups |
| Partitions.WithBlockSpec | Writer/BCFCachedWriter.hpp:258-296 | adding a block keeps one group per palette id, adds exactly one cell and one to the size, adds the id, creates a group only for a new id and leaves every other group alone |
| Partitions.WithBlockExisting | Writer/BCFCachedWriter.hpp:262-275 | growing the matching group adds exactly the new cell and keeps the partition well formed |
| Partitions.PartitionReplace | Writer/BCFCachedWriter.hpp:273 | replacing a group by a non-empty one with the same id keeps one group per id |
| Partitions.PidsReplace | Writer/BCFCachedWriter.hpp:273 | replacing a group by one with the same id keeps the set of ids |
| Partitions.ReplaceGrows | Writer/BCFCachedWriter.hpp:273 | a group that gained one cell makes the partition gain that cell |
| Partitions.WithBlockNew | Writer/BCFCachedWriter.hpp:279-291 | a new group for an absent id adds exactly the new cell and the new id |
| Partitions.AppendGroup | Writer/BCFCachedWriter.hpp:291 | appending a group with a fresh id adds its id, its cells and its count |
| Partitions.PartitionSnoc | Writer/BCFCachedWriter.hpp:291 | appending a non-empty group with a fresh id keeps one group per id |
| Partitions.CellsSnoc | Writer/BCFCachedWriter.hpp:291 | appending a group adds its cells |
| Partitions.FirstWith | Writer/BCFCachedWriter.hpp:262-263 | any group with the id has a first such group at or before it |
| Partitions.SizeAtLeast | Writer/BCFCachedWriter.hpp:339-343 | no group holds more cells than the whole partition |
| Partitions.ReplaceCells | Writer/BCFCachedWriter.hpp:273 | replacing one group swaps its cells for the new group's cells |
| Partitions.CellsAround | Writer/BCFCachedWriter.hpp:262-276 | the cells of a partition split around one group are the cells of the three parts |
| Partitions.ZipMember | BlockUtils.hpp:10-13 | a cell is stored in a group exactly when some position of its three coordinate lists holds it |
| Partitions.GroupCellsAreCells | core/RegionMergeUtils.hpp:37-41 | the positions the merge collects from a group are the group's cells |
| Partitions.OtherCells | core/RegionMergeUtils.hpp:35-46 | a group contributes no cell to another palette id |
| Partitions.CoordsOfUnion | core/RegionMergeUtils.hpp:35-46 | the positions of one id in two cell collections together are the union of each |
| Partitions.AllIndexableOf | core/RegionMergeUtils.hpp:37-41 | well-formed groups can be walked up to their count by the merge |
| Partitions.GridOfIsCells | core/RegionMergeUtils.hpp:35-46 | the merge's grid for a palette id is exactly the positions of that id among the partition's cells |
| Partitions.BelowMaxOfCells | core/RegionMergeUtils.hpp:35-46 | when every stored coordinate is below 32767, the merge's overflow precondition holds |
| Partitions.CellsHas | Writer/BCFCachedWriter.hpp:339-343 | every group's cells are among the partition's cells |
| Interning.NamedGrows | Writer/BCFCachedWriter.hpp:212-257 | a palette key whose ids are all named keeps its names when the tables only grow |
| Interning.AllNamedGrows | Writer/BCFCachedWriter.hpp:212-257 | every palette key keeps its meaning when the tables only grow |
| CachedWriter.ConservedAdd | Writer/BCFCachedWriter.hpp:121-122 | adding one cell to a partition and to its ledger keeps every handed-over cell accounted for |
| CachedWriter.ShuffleAdd | Writer/BCFCachedWriter.hpp:121-122 | regrouping the held, spilled and lost cells after an addition leaves the same collection |
| CachedWriter.ShuffleSpill | Writer/BCFCachedWriter.hpp:358-361 | moving held cells to the spill file leaves the same collection |
| CachedWriter.ShuffleLose | Writer/BCFCachedWriter.hpp:366-368 | moving held cells to the lost ledger leaves the same collection |
| CachedWriter.ConservedSpill | Writer/BCFCachedWriter.hpp:349-364 | a partition that leaves memory for its spill file keeps every cell accounted for |
| CachedWriter.ConservedLose | Writer/BCFCachedWriter.hpp:366-368 | a partition whose spill file fails to open is dropped, and its cells are recorded as lost |
| CachedWriter.AlignedOf | BlockUtils.hpp:10-13 | well-formed groups have coordinate lists of equal length |
| CachedWriter.BoundedAdd | Writer/BCFCachedWriter.hpp:121-122 | one more cell with coordinates below 32767 keeps every partition under 2^32 cells and under the coordinate limit |
| CachedWriter.HeldSize | Writer/BCFCachedWriter.hpp:337-345 | a partition never holds more blocks than were added to it |
| CachedWriter.PartitionShort | Writer/BCFCachedWriter.hpp:258-296 | a partition has no more groups than blocks, since every group holds at least one |
| CachedWriter.MergeableOf | Writer/BCFCachedWriter.hpp:435-444 | every spill file's batches together are small enough for the merge |
| CachedWriter.AllSpilled | Writer/BCFCachedWriter.hpp:137-141 | once nothing is held, each spill file holds exactly the partition's added cells less its lost ones, and a partition without a file lost everything added to it |
| CachedWriter.SpillFilesSnoc | Writer/BCFCachedWriter.hpp:358-361 | appending one batch to a spill file keeps the file equal to the encoding of its batches |
| CachedWriter.StoreAdd | Writer/BCFCachedWriter.hpp:121-122 | adding a block to its partition keeps the writer's state invariant |
| CachedWriter.StoreSpill | Writer/BCFCachedWriter.hpp:349-364 | spilling a partition to its file keeps the writer's state invariant |
| CachedWriter.StoreLose | Writer/BCFCachedWriter.hpp:366-368 | dropping a partition whose file fails keeps the writer's state invariant |
| CachedWriter.PartitionOf | Writer/BCFCachedWriter.hpp:121 | every held partition is well formed |
| CachedWriter.PartitionsRemove | Writer/BCFCachedWriter.hpp:328 | erasing a partition keeps the others well formed |
| CachedWriter.Evict | Writer/BCFCachedWriter.hpp:349-369 | the partition leaves memory; when its file opens the batch is appended to it and nothing is lost, otherwise the file is untouched and its cells are lost |
| CachedWriter.SurveySizes | Writer/BCFCachedWriter.hpp:305-310 | the survey gives each held partition its block count |
| CachedWriter.Largest | Writer/BCFCachedWriter.hpp:313-314 | the pick is a remaining partition at least as large as every other |
| CachedWriter.ShedNone | Writer/BCFCachedWriter.hpp:302 | leaving every partition in memory satisfies the eviction rule |
| CachedWriter.ShedStep | Writer/BCFCachedWriter.hpp:318-333 | evicting a largest partition while the total is still above the bound keeps the eviction rule |
| CachedWriter.FlushDown | Writer/BCFCachedWriter.hpp:300-335 | afterwards at most the bound is held; below the bound nothing changes; only largest-first partitions still needed leave, each spilled or lost |
| CachedWriter.FlushAll | Writer/BCFCachedWriter.hpp:137-141 | every partition leaves memory, each spilled or lost, and the invariant holds with nothing held |
| CachedWriter.Pending | Writer/BCFCachedWriter.hpp:415 | in strictly increasing keys, the keys from position i on are the i-th and those after it, and the i-th does not come back |
| CachedWriter.Listed | Writer/BCFCachedWriter.hpp:493-498 | walking the id-to-name map by id gives the names in id order |
| CachedWriter.Writer.constructor | Writer/BCFCachedWriter.hpp:72-84 | the writer starts with empty metadata, no partitions, no spill files and a zero counter |
| CachedWriter.Writer.AddBlock | Writer/BCFCachedWriter.hpp:85-128 | the block is interned to the palette id that describes it and recorded in its partition at its local position; between checks nothing else changes; on the 200th block the counter resets, the held partitions are those before the check shed down to the bound, the shed ones appended to their spill files or lost, and nothing moves while under the bound |
| CachedWriter.Writer.Place | Writer/BCFCachedWriter.hpp:120-127 | the cell goes to its partition's groups, and every 200th call runs the memory check, which keeps what fits under the bound and appends the rest to the spill files |
| CachedWriter.Writer.CheckAndFlush | Writer/BCFCachedWriter.hpp:300-335 | afterwards at most the bound is held; below it nothing changes; evicted partitions are largest first, each spilled or lost |
| CachedWriter.Writer.Finalize | Writer/BCFCachedWriter.hpp:130-151 | nothing stays held; on failure every partition was still spilled or lost; on success the output is the version-4 container over the spilled partitions in key order, each record holding exactly that partition's cells that were not lost |
| CachedWriter.Finish | Writer/BCFCachedWriter.hpp:137-147 | spilling everything and then merging gives that container, or the failure with every partition spilled or lost |
| CachedWriter.MergeSpilled | Writer/BCFCachedWriter.hpp:372-529 | the merged file succeeds exactly when the output opens and every name fits 16 bits, and its records cover exactly the surviving cells of each spilled partition |
| CachedWriter.Coverage | Writer/BCFCachedWriter.hpp:415-451 | records that compress each spill file's cells hold exactly the added, not lost cells of their partition, and no other partition has any left |
| CachedWriter.FlushedNone | Writer/BCFCachedWriter.hpp:302 | when no partition leaves, no file and no ledger changes |
| CachedWriter.FlushedStep | Writer/BCFCachedWriter.hpp:321-331 | one more eviction, spilled or lost, extends the record of what was flushed |
| CacheMerge.Least | Writer/BCFCachedWriter.hpp:415 | the smallest remaining partition key is picked, the next one an ordered map visits |
| CacheMerge.AscendingKeys | Writer/BCFCachedWriter.hpp:415 | the spill files are visited in strictly increasing key order, each key exactly once |
| CacheMerge.IncreasingShort | Writer/BCFCachedWriter.hpp:413-416 | strictly increasing 32-bit keys number at most 2^32, so the record count fits |
| CacheMerge.SpreadOut | Writer/BCFCachedWriter.hpp:415 | the n-th of strictly increasing keys is at least n above the first |
| CacheMerge.Lowest | Writer/BCFCachedWriter.hpp:382-395 | the running minimum starts at INT_MAX and never exceeds it |
| CacheMerge.Highest | Writer/BCFCachedWriter.hpp:382-395 | the running maximum starts at INT_MIN and never falls below it |
| CacheMerge.ExtremesAre | Writer/BCFCachedWriter.hpp:382-395 | over a non-empty list of 32-bit values the running minimum and maximum are members of it and bound every element |
| CacheMerge.XColumns | Writer/BCFCachedWriter.hpp:388 | each key gives its x column, index mod 454 less 227 |
| CacheMerge.ZColumns | Writer/BCFCachedWriter.hpp:389 | each key gives its z column, index div 454 less 227 |
| CacheMerge.ColumnExtent | Writer/BCFCachedWriter.hpp:387-395 | the loop yields the least and greatest x and z columns of the keys |
| CacheMerge.ColumnsNext | Writer/BCFCachedWriter.hpp:387-395 | one more key extends the column lists by that key's columns |
| CacheMerge.ColumnBounds | Writer/BCFCachedWriter.hpp:388-389 | any 32-bit key's columns lie in the ranges the arithmetic allows, so no column step overflows |
| CacheMerge.SpanOfColumns | Writer/BCFCachedWriter.hpp:398-409 | the header width is 144 blocks per spanned column modulo 2^16, exactly 144 per column for fewer than 455 columns |
| CacheMerge.Narrow | Writer/BCFCachedWriter.hpp:408-409 | truncating to 32 bits before 16 bits gives the same low 16 bits |
| CacheMerge.ModShift | Writer/BCFCachedWriter.hpp:408-409 | values that differ by a multiple of 2^16 narrow to the same u16 |
| CacheMerge.SpanOfNothing | Writer/BCFCachedWriter.hpp:382-409 | with no spill files the untouched INT_MAX and INT_MIN bounds give a header width of 288; the subtraction overflows a signed `int`, which is undefined behaviour in C++, so the 288 is what two's-complement wrap-around gives |
| CacheMerge.ConcatWellFormed | Writer/BCFCachedWriter.hpp:435-440 | the groups read from all batches of a spill file are well formed |
| CacheMerge.XsOfBound | BlockUtils.hpp:51-68 | one palette id's merged coordinates number no more than the file's blocks |
| CacheMerge.MergedFits | Writer/BCFCachedWriter.hpp:444 | the merged groups are well formed, hold exactly the file's cells, and meet the box compressor's preconditions |
| CacheMerge.CompressedOf | Writer/BCFCachedWriter.hpp:447 | boxes that cover exactly the merged grid of every palette id, ordered and disjoint per id, compress exactly the file's cells |
| CacheMerge.CompressFile | Writer/BCFCachedWriter.hpp:427-447 | reading a spill file back, merging per palette id and compressing gives boxes that cover exactly its cells, with ordered corners and no overlap within an id |
| CacheMerge.LatestOrigins | Writer/BCFCachedWriter.hpp:420-425 | each partition's record origin is its column's corner at the world's minimum height |
| CacheMerge.AllCompressedSnoc | Writer/BCFCachedWriter.hpp:415-451 | one more compressed file extends the list of compressed partitions in key order |
| CacheMerge.AllRecordsSnoc | Writer/BCFCachedWriter.hpp:450 | one more record written at the next key's origin extends the records |
| CacheMerge.SpillOf | Writer/BCFCachedWriter.hpp:427-440 | a listed spill file holds exactly its batches, which are small enough to merge |
| CacheMerge.WriteRecords | Writer/BCFCachedWriter.hpp:415-451 | after the header, one record per key in order, each the three-origin record of that file's compressed boxes, and each offset is where its record starts |
| CacheMerge.RecordStep | Writer/BCFCachedWriter.hpp:416 | writing one more record appends it and records its starting position as the next offset |
| CacheMerge.ListableOf | Writer/BCFCachedWriter.hpp:493-514 | names short enough for string16 and few enough for the id width can be listed |
| CacheMerge.WriteTables | Writer/BCFCachedWriter.hpp:453-514 | the five tables follow the records at the recorded positions; the write fails exactly when a normalised name does not fit a string16 |
| CacheMerge.LayTables | Writer/BCFCachedWriter.hpp:453-514 | writing the five tables one after another lays them out as the container's table section |
| CacheMerge.Layout5 | Writer/BCFCachedWriter.hpp:453-514 | five appends give the concatenation, and each table starts where the previous one ended |
| CacheMerge.Flatten5 | Writer/BCFCachedWriter.hpp:453-514 | the five tables flattened are the tables one after another |
| CacheMerge.Assoc5 | Writer/BCFCachedWriter.hpp:453-514 | appending the tables one at a time equals appending them nested |
| CacheMerge.PatchHeader | Writer/BCFCachedWriter.hpp:516-527 | rewriting the header in place keeps the records and tables after it |
| CacheMerge.Records3 | Writer/BCFCachedWriter.hpp:450 | one record per partition key |
| CacheMerge.Records3Are | Writer/BCFCachedWriter.hpp:450 | records written one per key at that key's origin are the container's records |
| CacheMerge.PatchedFile | Writer/BCFCachedWriter.hpp:516-527 | the patched header with the version, the record count and the table positions gives exactly the container file |
| CacheMerge.MergeFiles | Writer/BCFCachedWriter.hpp:407-527 | the output is the container over the keys' compressed records, or fails exactly when a name does not fit |
| CacheMerge.FinishFile | Writer/BCFCachedWriter.hpp:453-527 | tables then the patched header give the container, or fail exactly when a name does not fit |
| CacheMerge.MergeAllCacheFiles | Writer/BCFCachedWriter.hpp:372-529 | success exactly when the output opens and every name fits; the file is the version-4 container spanning the spilled columns, one record per spill file in key order holding exactly its cells |
| CachedWriterV3.Widened | BCFCachedWriter.hpp:85-95 | the first block sets both ends of each axis; later blocks widen them to include the block, leaving them alone otherwise |
| CachedWriterV3.EnclosesNone | BCFCachedWriter.hpp:86-89 | before any block, the bounds enclose nothing |
| CachedWriterV3.EnclosesWidened | BCFCachedWriter.hpp:85-95 | after widening, the bounds enclose every earlier x and z and the new block's |
| CachedWriterV3.WidenedWithin | BCFCachedWriter.hpp:85-95 | widening by a block inside a window keeps the bounds inside the window and small enough for the index arithmetic |
| CachedWriterV3.CountX | BCFCachedWriter.hpp:104 | the column count is the width rounded up to a multiple of 144, divided by 144 |
| CachedWriterV3.DynamicLocal | BCFCachedWriter.hpp:112-113 | the local position is the offset from the low end modulo 144, within 0..143 |
| CachedWriterV3.DynamicOrigin | BCFCachedWriter.hpp:358-362 | a record's origin is the low end plus its column times 144 on x and z, and the minimum height on y, each cast to 16 bits |
| CachedWriterV3.DynamicOrigins | BCFCachedWriter.hpp:358-362 | the origin of every partition key is computed from the final bounds |
| CachedWriterV3.MulAtLeast | BCFCachedWriter.hpp:109 | a positive column count times a positive row is at least the row |
| CachedWriterV3.DivModUnique | BCFCachedWriter.hpp:358-359 | quotient and remainder by a positive divisor are the unique ones |
| CachedWriterV3.DynamicRoundTrip | BCFCachedWriter.hpp:107-113 | with bounds that no longer change, a block's index decodes back to its column and row, and origin plus local position gives back its x and z |
| CachedWriterV3.IndexIs | BCFCachedWriter.hpp:107-109 | the index is row times column count plus column, without wrap-around |
| CachedWriterV3.ReadBack | BCFCachedWriter.hpp:358-359 | the merge's mod and div recover row and column from an index |
| CachedWriterV3.ColumnBelow | BCFCachedWriter.hpp:107 | an offset inside the width falls in a column below the column count |
| CachedWriterV3.RowAtMost | BCFCachedWriter.hpp:108-109 | a smaller offset never gives a later row |
| CachedWriterV3.MulMono | BCFCachedWriter.hpp:109 | multiplying by a column count keeps order |
| CachedWriterV3.DynamicIndexCollides | BCFCachedWriter.hpp:97-113 | a block at x and a later block at x - 144 both get partition index 0 and local x 0, so the merge puts the first one 144 blocks away from where it was placed |
| CachedWriterV3.IndexAtCorner | BCFCachedWriter.hpp:107-109 | the low corner of the bounds is in partition 0 at origin column 0 |
| CachedWriterV3.BatchLocalYAsWrittenDiffers | BCFCachedWriter.hpp:177 | the batch path's height taken from z differs from addBlock's: a block at y 0, z 1 gets 57 instead of 56 |
| CachedWriterV3.BatchLocalY | BCFCachedWriter.hpp:114 | the corrected batch height is the same y + 56 addBlock uses |
| CachedWriterV3.WidenedAllWithin | BCFCachedWriter.hpp:153-166 | widening by every block of a batch inside a window stays inside it |
| CachedWriterV3.EnclosesAll | BCFCachedWriter.hpp:153-166 | after a batch, the bounds enclose every x and z seen, the batch's included |
| CachedWriterV3.Target | BCFCachedWriter.hpp:299 | the flush target is 80% of the bound rounded down |
| CachedWriterV3.RoomAdd | BCFCachedWriter.hpp:131-132 | adding one cell uses up one unit of the room left below 2^32 cells |
| CachedWriterV3.ShedToTarget | BCFCachedWriter.hpp:278-308 | below the bound nothing changes; otherwise largest partitions leave for their spill files until the target is reached, or the call fails at a largest partition whose file does not open |
| CachedWriterV3.SpillOne | BCFCachedWriter.hpp:303-304 | a partition whose file opens is appended to it and erased from memory |
| CachedWriterV3.KeysShrink | BCFCachedWriter.hpp:304 | erasing a present key leaves fewer keys |
| CachedWriterV3.FlushEvery | BCFCachedWriter.hpp:139-143 | spilling everything succeeds exactly when every partition's file opens, and then every cell is in its spill file; on failure exactly the partitions before the first file that fails to open have been appended to their files |
| CachedWriterV3.Verbatim | BCFCachedWriter.hpp:412-434 | the older writer writes names as they are, without code-page normalisation |
| CachedWriterV3.VerbatimAll | BCFCachedWriter.hpp:412-434 | writing names as they are leaves every list unchanged |
| CachedWriterV3.AppendedPrefix | BCFCachedWriter.hpp:139-143 | a flush loop that stops at the first file that fails to open has appended exactly the partitions before it |
| CachedWriterV3.Complete | BCFCachedWriter.hpp:138-150 | success exactly when every spill file and the output open and every name fits; the file is the version-3 container over the final bounds, each record holding exactly its partition's cells |
| CachedWriterV3.MergeV3 | BCFCachedWriter.hpp:333-450 | the output is the version-3 container, no payloads, header size from the bounds, one record per spill file in key order with exactly its cells, failing exactly when a name does not fit |
| CachedWriterV3.CoverageNoLoss | BCFCachedWriter.hpp:354-389 | with nothing lost, the records hold exactly every added cell of their partition and no other partition had any |
| CachedWriterV3.DescribedSnoc | BCFCachedWriter.hpp:179-190 | one more block numbered to a palette key that describes it extends the batch's numbering |
| CachedWriterV3.WidenedAllStep | BCFCachedWriter.hpp:154-166 | widening by a batch is widening by its first block, then by the rest |
| CachedWriterV3.BatchRest | BCFCachedWriter.hpp:154 | the names a batch needs are its first block's and the rest's |
| CachedWriterV3.Grew | BCFCachedWriter.hpp:128 | the palette grows by at most one key per block |
| CachedWriterV3.Writer.constructor | BCFCachedWriter.hpp:67-79 | the writer starts with no bounds, empty metadata, no partitions and no spill files |
| CachedWriterV3.Writer.Insert | BCFCachedWriter.hpp:80-132 | the bounds widen, the block gets the palette id that describes it, and its cell goes into the partition the new bounds give it |
| CachedWriterV3.Writer.Number | BCFCachedWriter.hpp:116-128 | the block is numbered to a palette key that describes its type, states and payload; the tables only grow |
| CachedWriterV3.Writer.Put | BCFCachedWriter.hpp:130-132 | the cell is added to the partition at the index and local position the bounds give |
| CachedWriterV3.Writer.CheckAndFlush | BCFCachedWriter.hpp:278-308 | below the bound nothing changes; otherwise largest partitions leave until 80% of the bound remains, or the call fails at one whose file does not open |
| CachedWriterV3.Writer.AddBlock | BCFCachedWriter.hpp:80-136 | the block is numbered and stored by the bounds it widens, then the memory check runs after every block |
| CachedWriterV3.Writer.AddBlocks | BCFCachedWriter.hpp:153-195 | every block of the batch is numbered to a key that describes it and stored, with the corrected height, then one memory check runs |
| CachedWriterV3.Writer.InsertAll | BCFCachedWriter.hpp:154-191 | the loop stores every block of the batch and widens the bounds by all of them |
| CachedWriterV3.Writer.InsertNext | BCFCachedWriter.hpp:156-190 | one loop step stores the next block and extends the numbering |
| CachedWriterV3.Writer.Finalize | BCFCachedWriter.hpp:138-150 | success exactly when every spill file and the output open and every name fits; the output is the version-3 container, one record per partition key holding exactly its added cells; on failure the spill files of the partitions before the first that fails to open have been appended to, and the held cells are dropped only when every file opened |
| CachedWriterV3.Writer.Conclude | BCFCachedWriter.hpp:143 | the held cells are dropped once every spill file opened, even when the merge then fails; the spill files are removed on success and otherwise left as the flush wrote them; the batch buffers are cleared only on success |
| MemoryWriter.FirstId | BCFWriter.hpp:67-69 | a hit is the least id mapped to the name; no hit means no id below the counter maps to it |
| MemoryWriter.FindName | BCFWriter.hpp:67-69 | the search loop over the map in ascending id order finds that least id, or none |
| MemoryWriter.Intern | BCFWriter.hpp:65-87 | the returned id names the argument in the new map, and id and counter stay below the id width |
| MemoryWriter.GetOrCreateId | BCFWriter.hpp:65-87 | the search-then-append body returns the first id with the name, or the counter's id with the name stored under it and the counter advanced with wrap-around |
| MemoryWriter.InternDense | BCFWriter.hpp:65-87 | while the counter does not wrap, ids stay dense and distinct, old ids keep their names, and the counter advances exactly when the name is new |
| MemoryWriter.InternWraps | BCFWriter.hpp:72-73 | once every id is in use and the counter has wrapped to 0, a new name overwrites id 0, whose old name is lost |
| MemoryWriter.InternStates | BCFWriter.hpp:42-45 | one pair per state, each keeping the state's value byte, with the counter still below 256 |
| MemoryWriter.InternStatesDense | BCFWriter.hpp:42-45 | while the counter does not wrap, numbering the state names keeps ids dense, keeps old ids and advances at most once per state |
| MemoryWriter.InternStatesSnoc | BCFWriter.hpp:42-45 | numbering one more state extends the pairs by that state's id and value |
| MemoryWriter.InternKeeps | BCFWriter.hpp:65-87 | with every id below the counter, numbering keeps that and keeps old ids' names |
| MemoryWriter.InternStatesNames | BCFWriter.hpp:42-45 | while the counter does not wrap, every pair's id names its state in the new map |
| MemoryWriter.DenseBelow | BCFWriter.hpp:72-73 | dense ids are all below the counter |
| MemoryWriter.Grown | BCFWriter.hpp:32-34 | the sub-chunk list grows with empty sub-chunks until the index exists; existing ones are kept and a list already long enough is unchanged |
| MemoryWriter.GrowTo | BCFWriter.hpp:32-34 | the growing loop gives that list |
| MemoryWriter.KeyOf | BCFWriter.hpp:40-45 | the key has one state pair per given state |
| MemoryWriter.ListWith | BCFWriter.hpp:89-101 | after getOrCreatePaletteId the key is in the palette |
| MemoryWriter.Added | BCFWriter.hpp:27-52 | addBlock grows the list to the index, touches no other sub-chunk and puts the block's key in the palette |
| MemoryWriter.AddedFrom | BCFWriter.hpp:27-52 | growing, numbering the type and states, interning the key and adding the cell, one after another, give the writer after addBlock |
| MemoryWriter.ListWithOk | BCFWriter.hpp:89-101 | adding a key whose ids are in use keeps the palette keys distinct and named |
| MemoryWriter.AddedNames | BCFWriter.hpp:36-45 | while neither counter wraps, the key's type id names the block type and each state id names its state, and old ids stay in use |
| MemoryWriter.GrownOk | BCFWriter.hpp:32-34 | empty sub-chunks added by growing keep every sub-chunk a valid partition |
| MemoryWriter.WithBlockOk | BCFWriter.hpp:103-119 | adding a cell to one sub-chunk keeps every sub-chunk a partition and adds exactly that cell |
| MemoryWriter.AddedCell | BCFWriter.hpp:48-51 | addBlock adds exactly one cell to the sub-chunk, under the key's palette id at the 16-bit coordinates |
| MemoryWriter.AddedList | BCFWriter.hpp:36-48 | while neither counter wraps, the palette stays distinct and names only ids in use |
| MemoryWriter.AddedKeeps | BCFWriter.hpp:27-52 | while neither counter wraps and the sub-chunk has room, addBlock keeps the writer consistent |
| MemoryWriter.MergeAll | BCFWriter.hpp:57-59 | every sub-chunk is replaced by one group per palette id holding that id's blocks in order, with the same cells |
| MemoryWriter.Writer.constructor | BCFWriter.hpp:24 | a new writer holds nothing and both counters are 0 |
| MemoryWriter.Writer.GetOrCreateTypeId | BCFWriter.hpp:65-75 | the type id is the first one with the name, or the next id with wrap-around; nothing else changes |
| MemoryWriter.Writer.GetOrCreateStateId | BCFWriter.hpp:77-87 | the state-name id is the first one with the name, or the next id with wrap-around; nothing else changes |
| MemoryWriter.Writer.NumberStates | BCFWriter.hpp:42-45 | the loop numbers every state name in order, keeping its value |
| MemoryWriter.Writer.AddBlock | BCFWriter.hpp:27-52 | the writer's new state is exactly the writer after addBlock |
| MemoryWriter.Writer.Write | BCFWriter.hpp:55-62 | every sub-chunk is merged to one group per palette id with the same cells, and the tables are unchanged |
| BcfUtils.Ascending | BCFUtils.hpp:58 | a std::map walk yields each entry below the bound once, in strictly increasing id order |
| BcfUtils.AscendingHas | BCFUtils.hpp:58 | every entry of the map below the bound appears in the walk |
| BcfUtils.Below | BCFUtils.hpp:13-15 | the entries of the map with an id below the bound, and no others |
| BcfUtils.InsertAscending | BCFUtils.hpp:58 | inserting the walked entries back rebuilds the map below the bound |
| BcfUtils.TypeEntries | BCFUtils.hpp:57-58 | the type map's entries have 16-bit ids and number at most 2^16 |
| BcfUtils.StateEntries | BCFUtils.hpp:62-63 | the state map's entries have 8-bit ids and number at most 256 |
| BcfUtils.SubChunkRecords | BCFUtils.hpp:31-35 | one record per sub-chunk, the i-th at height origin i * 16 truncated to 16 bits |
| BcfUtils.UtilsTables | BCFUtils.hpp:37-63 | four tables: offsets, palette without payloads, type map, state map |
| BcfUtils.UtilsHeader | BCFUtils.hpp:27-28 | the header keeps version 4 from the default, the record count, and no state-value map |
| BcfUtils.EntriesFit | BCFUtils.hpp:57-63 | entries with ids below the width and names short enough fit the dictionary layout |
| BcfUtils.BcfTables | BCFUtils.hpp:37-63 | the tables writeBCF lays out after the records, from its map arguments |
| BcfUtils.WriteEntries | BCFUtils.hpp:57-63 | writing the entries succeeds exactly when every name fits a string16, and appends the dictionary bytes |
| BcfUtils.EntryStep | BCFUtils.hpp:58 | one more entry appends its id and its string16 |
| BcfUtils.WriteBCF | BCFUtils.hpp:20-69 | success exactly when every name fits; the output is the header, the records in order, then the four tables, with the header patched |
| BcfUtils.WriteSubChunks | BCFUtils.hpp:30-35 | the records follow the header in order, each offset at the start of its record |
| BcfUtils.RecordsSnoc | BCFUtils.hpp:31-35 | one more sub-chunk appends its record at origin i * 16 |
| BcfUtils.WriteUtilsTables | BCFUtils.hpp:37-63 | the four tables follow at the recorded positions, failing exactly when a name does not fit |
| BcfUtils.Layout4 | BCFUtils.hpp:37-63 | four appends give the concatenation, each table starting where the previous ended |
| BcfUtils.Flatten4 | BCFUtils.hpp:37-63 | the four tables flattened are the tables one after another |
| BcfUtils.PatchedUtilsFile | BCFUtils.hpp:65-66 | rewriting the header with the count and the table positions gives exactly the laid-out file |
| BcfUtils.BelowAll | BCFUtils.hpp:13-15 | a map whose ids are all below the bound is its own restriction |
| BcfUtils.UtilsTablesIn | BCFUtils.hpp:37-63 | the tables at the end of a file read back as the offsets, the palette, the type map and the state map, each ending where the next starts |
| BcfUtils.UtilsTablesRead | BCFUtils.hpp:37-63 | each table written at its position reads back from there |
| BcfUtils.EntriesTo | BCFUtils.hpp:57-63 | a written dictionary reads back as its entries |
| BcfUtils.ReadUtilsHead | BCFUtils.hpp:27-35 | the file's header reads back, and each record sits at its offset |
| BcfUtils.UtilsFileParts | BCFUtils.hpp:20-69 | the file is header, records and tables back to back |
| BcfUtils.UtilsTablesAt | BCFUtils.hpp:37-66 | the header's table positions point at the tables, which read back |
| BcfUtils.BcfFileIsUtilsFile | BCFUtils.hpp:20-69 | writeBCF's output has that layout |
| BcfUtils.ReadBcfFile | BCFUtils.hpp:20-69 | reading writeBCF's output gives version 4, the count, each record at its offset, the palette, and the type and state maps as given |
| BcfUtils.HeaderOffsets | BCFUtils.hpp:38-61 | the header's offsets are the positions before each table |
| BcfUtils.MapsBack | BCFUtils.hpp:57-63 | the type and state maps written in id order read back as the same maps |
| BcfUtils.PaletteOf | BCFUtils.hpp:92-125 | a file shorter than the header gives no palette |
| BcfUtils.ReadPaletteFile | BCFUtils.hpp:92-125 | a file that does not open gives the empty palette; otherwise the palette at the header's offset |
| BcfUtils.PaletteOfBcfFile | BCFUtils.hpp:92-125 | readPalette on writeBCF's output gives back the palette that was written |
| BcfUtils.PaletteOfUtilsFile | BCFUtils.hpp:92-125 | readPalette on a file with that layout gives its palette |
| BcfUtils.HeightSplits | BCFUtils.hpp:128-134 | a height at or above 0 is 16 times its sub-chunk index plus a local height below 16 |
| BcfUtils.LocalYBack | BCFUtils.hpp:132-134 | the local height converted back to int is the truncating remainder by 16 |
| BcfUtils.NegativeHeights | BCFUtils.hpp:128-130 | heights -15..-1 land in sub-chunk 0 with a negative local height; heights at or below -16 wrap to huge sub-chunk indices |
| BcfUtils.FetchPaletteId | BCFUtils.hpp:135-139 | -1 for a sub-chunk index past the list or a cell no group holds; otherwise the palette id of the first group holding the cell |
| BcfUtils.GetBlockType | BCFUtils.hpp:141-149 | air when no group holds the cell; any other answer is a name in the type map |
| BcfUtils.BlockTypeOfCell | BCFUtils.hpp:141-149 | for a cell held first by group i, the answer is its key's type name, or air when the type id is unmapped |
| BcfUtils.Decimal | BCFUtils.hpp:165 | to_string gives at least one decimal digit, one exactly below 10, and no leading zero except for 0 |
| BcfUtils.DecimalValue | BCFUtils.hpp:165 | the digits read back as the value |
| BcfUtils.StatesOfNames | BCFUtils.hpp:160-167 | a name is in the result exactly when some pair's id maps to it |
| BcfUtils.StatesOfLast | BCFUtils.hpp:160-167 | a name maps to the value of the last pair naming it |
| BcfUtils.GetBlockState | BCFUtils.hpp:151-169 | empty when no group holds the cell; otherwise the name-to-decimal map of its key's pairs |
| Readers.ReadCatalog | BCFStreamReader.hpp:40-73 | the three table loops give the palette without payloads, the type map and the state-name map, or name the table that runs past the end |
| Readers.RunCells | BCFStreamReader.hpp:91-104 | a run holds exactly the cells of its z range, once each |
| Readers.PlaneHas | BCFStreamReader.hpp:91-104 | a plane holds exactly the cells of its y and z ranges |
| Readers.PlaneSize | BCFStreamReader.hpp:91-104 | a plane holds the product of its two spans cells |
| Readers.MulSucc | BCFStreamReader.hpp:91-104 | one more row adds one row's worth of cells |
| Readers.BoxHas | BCFStreamReader.hpp:91-104 | a box holds exactly the cells of its three ranges |
| Readers.BoxSize | BCFStreamReader.hpp:91-104 | a box holds the product of its three spans cells |
| Readers.StateTexts | BCFStreamReader.hpp:98-101 | the state texts exist exactly when every name id is in the state map, one pair per state, each the mapped name and the decimal value |
| Readers.ListStates | BCFStreamReader.hpp:98-101 | the state loop gives those texts, or fails where `at` would throw |
| Readers.Stamp | BCFStreamReader.hpp:94-103 | one block per cell, each with the cell's position, the type name and the state texts |
| Readers.StampAppend | BCFStreamReader.hpp:94-103 | stamping two runs of cells is stamping each in turn |
| Readers.RegionBlocksSpec | BCFStreamReader.hpp:91-104 | a region lists exactly when its palette id, type id and state ids resolve; it then lists one block per cell of its box, exactly the blocks with the region's name and states at those cells |
| Readers.BlocksOk | BCFStreamReader.hpp:91-104 | a sub-chunk lists exactly when every region lists |
| Readers.BlocksCount | BCFStreamReader.hpp:91-104 | the list has as many blocks as the boxes have cells |
| Readers.BlocksListed | BCFStreamReader.hpp:91-104 | a block is listed exactly when some region of the sub-chunk lists it |
| Readers.StampRun | BCFStreamReader.hpp:94-103 | the z loop appends the blocks of one run |
| Readers.StampPlane | BCFStreamReader.hpp:94-103 | the y loop appends the blocks of one plane |
| Readers.StampPlaneStep | BCFStreamReader.hpp:94-103 | one more run completes the plane so far |
| Readers.StampBox | BCFStreamReader.hpp:94-103 | the x loop appends the blocks of the region's box |
| Readers.StampBoxStep | BCFStreamReader.hpp:94-103 | one more plane completes the box so far |
| Readers.BlocksSnoc | BCFStreamReader.hpp:91-104 | one more region appends its blocks, or its failure if the earlier ones listed |
| Readers.BlocksErrStays | BCFStreamReader.hpp:91-104 | a failure among the first regions is the failure of the whole sub-chunk |
| Readers.ListRegion | BCFStreamReader.hpp:92-103 | one region's blocks are appended, or its failure is returned |
| Readers.ListBlocks | BCFStreamReader.hpp:91-105 | the region loop lists the sub-chunk as specified |
| Readers.OpenStream | BCFStreamReader.hpp:19-74 | a file that does not open fails; a header older than version 2 fails; success carries the file and its header |
| Readers.NewStreamReader | BCFStreamReader.hpp:19-74 | the constructor's loops give that result |
| Readers.GetStreamBlocks | BCFStreamReader.hpp:77-106 | the stream reader lists the record at the index's offset |
| Readers.OpenFile | BCFReader.hpp:10-60 | a file that does not open fails; success carries its header and exactly as many sub-chunks as the header counts |
| Readers.ReadRecord | BCFReader.hpp:19-23 | one record read for its regions |
| Readers.ReadRecords | BCFReader.hpp:19-23 | the record loop reads the header's count of records one after another |
| Readers.NewReader | BCFReader.hpp:10-60 | the constructor's loops give that result |
| Readers.GetBlocks | BCFReader.hpp:65-85 | the plain reader lists the regions of the loaded sub-chunk |
| Readers.RegionsAtRecord | SubChunkUtils.hpp:33-56 | a record as written reads back as its regions, ending right after it |
| Readers.RecordAt | SubChunkUtils.hpp:33-56 | a record in place reads back as its regions wherever it lies |
| Readers.RecordDecodes | SubChunkUtils.hpp:33-56 | a written record decodes as its regions |
| Readers.RecordParse | SubChunkUtils.hpp:33-56 | the record reader at the record's position gives its regions and the position after it |
| Readers.RecordsDecode | BCFUtils.hpp:31-35 | the records writeBCF writes decode as the sub-chunks' regions |
| Readers.CatalogOf | BCFReader.hpp:26-59 | tables that each read in full load as that catalog |
| Readers.StreamOf | BCFStreamReader.hpp:19-74 | a file of version 2 or later whose offsets and tables read opens as that stream |
| Readers.LoadedOf | BCFReader.hpp:10-60 | a file whose records and tables read opens with those sub-chunks |
| Readers.CatalogOfBcfFile | BCFUtils.hpp:44-63 | the tables writeBCF writes load as the palette without payloads and the same type and state maps |
| Readers.StreamRecord | BCFStreamReader.hpp:77-106 | getBlocks on a sub-chunk whose record is in place lists its regions |
| Readers.StreamOfBcfFile | BCFStreamReader.hpp:19-74 | the stream reader opens writeBCF's output with the written offsets and tables |
| Readers.StreamBlocksOfBcfFile | BCFStreamReader.hpp:77-108 | the stream reader sees every sub-chunk writeBCF wrote and lists each one's regions |
| Readers.RecordInPlace | BCFUtils.hpp:31-35 | record i of writeBCF's output lies at offset i |
| Readers.RecordsOfBcfFile | BCFReader.hpp:19-23 | reading writeBCF's records one after another from behind the header gives back every sub-chunk |
| Readers.HeaderOfBcfFile | BCFUtils.hpp:27-28 | writeBCF's header reads back as version 4 with one record per sub-chunk |
| Readers.LoadedOfBcfFile | BCFReader.hpp:10-60 | the plain reader loads writeBCF's output as exactly the written sub-chunks and tables |
| Merger.LastDot | BCFBlockMerger.hpp:16 | the position found holds a dot with no dot after it; none is found exactly when the name has no dot |
| Merger.LastDotIs | BCFBlockMerger.hpp:16 | the last dot of a name is the one `find_last_of` returns |
| Merger.OutputExtension | BCFBlockMerger.hpp:16-22 | the output name is the stem, `_merged`, then the input's extension, or `.bcf` when the input has no dot; the output's last dot starts that extension |
| Merger.OutputNameInverse | BCFBlockMerger.hpp:16-22 | the output name never equals the input, and removing the seven inserted characters before its last dot gives the input back |
| Merger.DotInDirectory | BCFBlockMerger.hpp:16-18 | a dot in a directory name is taken as the extension: `maps.v2/house` becomes `maps_merged.v2/house` |
| Merger.StatesOf | BCFBlockMerger.hpp:42-47 | one pair per state of the key, in order, each the looked-up name and value |
| Merger.PlaceAt | BCFBlockMerger.hpp:54-60 | each cell becomes one `addBlock` at origin plus cell, with the region's type and states |
| Merger.PlaceAppend | BCFBlockMerger.hpp:50-63 | placing two runs of cells is placing each in turn |
| Merger.RegionCallsCount | BCFBlockMerger.hpp:50-63 | a region makes as many `addBlock` calls as its box has cells |
| Merger.RegionCallsInBox | BCFBlockMerger.hpp:37-63 | every call a region makes adds its type and states at the origin plus a cell of its box |
| Merger.RegionCallsCover | BCFBlockMerger.hpp:37-63 | every cell of the box is added, at the origin plus the cell |
| Merger.RegionCallAt | BCFBlockMerger.hpp:50-60 | the call for one cell of the box is among the region's calls |
| Merger.CellIndex | BCFBlockMerger.hpp:50-53 | every cell of the box is visited by the three loops, at some position of the visiting order |
| Merger.RegionsCallsCount | BCFBlockMerger.hpp:37-64 | a sub-chunk makes as many calls as its regions' boxes have cells |
| Merger.PlanCount | BCFBlockMerger.hpp:32-65 | the whole merge adds as many blocks as all sub-chunks' regions cover |
| Merger.RegionsCallsAdd | BCFBlockMerger.hpp:37-64 | a sub-chunk only adds blocks |
| Merger.PlanAdds | BCFBlockMerger.hpp:32-65 | the sub-chunk loop only adds blocks |
| Merger.FinalizeOnceLast | BCFBlockMerger.hpp:32-67 | the writer is finalized exactly once, after every `addBlock` |
| Merger.BuildStates | BCFBlockMerger.hpp:42-47 | the state loop builds the key's state list |
| Merger.EmitRun | BCFBlockMerger.hpp:52-61 | the z loop adds one run of cells |
| Merger.EmitPlane | BCFBlockMerger.hpp:51-62 | the y loop adds one plane of cells |
| Merger.EmitBox | BCFBlockMerger.hpp:50-63 | the x loop adds every cell of the region's box, in x, y, z order |
| Merger.PlaceRunStep | BCFBlockMerger.hpp:52-61 | one more z extends the run |
| Merger.PlacePlaneStep | BCFBlockMerger.hpp:51-62 | one more y extends the plane |
| Merger.PlaceBoxStep | BCFBlockMerger.hpp:50-63 | one more x extends the box |
| Merger.EmitRegion | BCFBlockMerger.hpp:37-64 | one region's key, type and states are looked up and its cells added |
| Merger.RegionsCallsSnoc | BCFBlockMerger.hpp:37-64 | one more region appends its calls |
| Merger.EmitSubChunk | BCFBlockMerger.hpp:33-64 | the region loop adds every region of the sub-chunk |
| Merger.MergeAndSave | BCFBlockMerger.hpp:26-69 | the writer sees every sub-chunk's cells, in order, then one `finalize` |
| Merger.CoordAfterIs | BCFBlockMerger.hpp:50 | incrementing a 16-bit coordinate k times is adding k and wrapping |
| Merger.CoordLoopNeverEnds | BCFBlockMerger.hpp:50-52 | with an upper bound of 32767 the guard always holds and the counter returns to its start after 65536 steps |
| Mcfunction.WordsAreWords | McfunctionToBCF.hpp:50-52 | every word `>>` extracts is non-empty and holds no white space |
| Mcfunction.WordsOfUnwords | McfunctionToBCF.hpp:50-52 | reading words back from words written with one blank between them gives the same words |
| Mcfunction.CoordOfText | McfunctionToBCF.hpp:64-76 | `parseCoord`: marks alone read as 0, and marks in front of a decimal number read as that number, so a relative or local coordinate becomes absolute |
| Mcfunction.CoordsMeaning | McfunctionToBCF.hpp:85-87 | each coordinate read is its own operand's value; a failure is the failure of the first operand that does not parse, all before it having parsed |
| Mcfunction.ReadCoords | McfunctionToBCF.hpp:85-87 | the coordinate operands parsed in turn give exactly the coordinate list, or the first failure |
| Mcfunction.ParseSetblock | McfunctionToBCF.hpp:78-91 | `parseSetblock`: fewer than four operands throws `runtime_error`, otherwise one block at the parsed position with the parsed block string |
| Mcfunction.SetblockOfText | McfunctionToBCF.hpp:49-91 | a written `setblock x y z block` line adds exactly that block at exactly that position |
| Mcfunction.CoordsOfTexts | McfunctionToBCF.hpp:85-87 | three coordinates written in decimal read back as themselves |
| Mcfunction.Order | McfunctionToBCF.hpp:110-112 | the swap leaves the pair in ascending order and is a permutation of the two corners |
| Mcfunction.EmitFill | McfunctionToBCF.hpp:115-121 | the three loops emit the box's calls, `y` outermost, then `z`, then `x`, each bound inclusive |
| Mcfunction.ParseFill | McfunctionToBCF.hpp:93-122 | `parseFill`: fewer than seven operands throws, otherwise one call per cell of the ordered box |
| Mcfunction.BoxHolds | McfunctionToBCF.hpp:115-121 | a call is emitted by the loops exactly when it places the block inside the box, and the box yields (x2-x1+1)(z2-z1+1)(y-y1) calls |
| Mcfunction.FillSpec | McfunctionToBCF.hpp:93-122 | a fill adds exactly the cells of the box its two corners span, whatever their order, one call per cell, each with the parsed block |
| Mcfunction.ParseLine | McfunctionToBCF.hpp:49-61 | `parseLine`: the first word picks `setblock` or `fill`; any other command, or none, adds nothing |
| Mcfunction.Convert | McfunctionToBCF.hpp:20-46 | `convert`: a file that cannot be opened throws; otherwise the calls of every line that is neither empty nor a comment, each failure reported under its line number, then `finalize` |
| Mcfunction.ReportsExact | McfunctionToBCF.hpp:29-43 | a report (k, m) is produced exactly when line k fails with message m |
| Mcfunction.LineReported | McfunctionToBCF.hpp:29-43 | a line is reported exactly when it is not skipped and its parse fails with that message |
| Mcfunction.FailedAddsNothing | McfunctionToBCF.hpp:37-42 | a line whose parse fails adds no call: the calls equal those with that line's outcome replaced by nothing |
| Mcfunction.FailedLineAddsNothing | McfunctionToBCF.hpp:33-42 | commenting out a failing line leaves the calls of the file unchanged |
| Mcfunction.WordEnd | McfunctionToBCF.hpp:50-52 | `>>` reads a word up to, not including, the next white space or the end |
| Txt2Inc.StripSpec | txt2inc.py:21 | `strip` removes only the accepted characters, only at the two ends, and leaves none at either end |
| Txt2Inc.StripClean | txt2inc.py:21 | text with nothing strippable at its ends is its own strip |
| Txt2Inc.StripTwice | txt2inc.py:31 | stripping is idempotent |
| Txt2Inc.Split | txt2inc.py:17 | `split(sep)` always yields at least one piece |
| Txt2Inc.SplitFree | txt2inc.py:17 | no piece of a split holds the separator |
| Txt2Inc.JoinOfSplit | txt2inc.py:17 | joining the pieces with the separator gives the text back |
| Txt2Inc.SplitOfJoin | txt2inc.py:17 | splitting what was joined gives the pieces back when none holds the separator |
| Txt2Inc.LastChar | txt2inc.py:13 | the position found holds the character |
| Txt2Inc.LastCharLast | txt2inc.py:13 | no later position holds it, and none at all when nothing is found |
| Txt2Inc.FirstLine | txt2inc.py:13 | the text the pattern can see is a prefix without line breaks |
| Txt2Inc.BracketGroupFound | txt2inc.py:13-15 | the pattern matches exactly when the first line holds a '[' followed later by a ']' |
| Txt2Inc.BracketGroupIs | txt2inc.py:13-16 | the captured group runs from just after the first '[' to just before the last ']' |
| Txt2Inc.BracketGroupOfBlock | txt2inc.py:13-16 | for a written block line `name[body]`, the group is `body` |
| Txt2Inc.GetPut | txt2inc.py:21 | after `d[k] = v`, `k` maps to `v` and every other key keeps its value |
| Txt2Inc.GetKeys | txt2inc.py:21 | a key has a value exactly when it is among the keys |
| Txt2Inc.KeysPut | txt2inc.py:21 | `d[k] = v` keeps the keys' order and adds a new key at the end |
| Txt2Inc.DistinctPut | txt2inc.py:21 | the keys stay distinct |
| Txt2Inc.PutNew | txt2inc.py:21 | a new key is appended with its value |
| Txt2Inc.ParseState | txt2inc.py:12-22 | `parse_state`: {} without a match; otherwise each comma piece unpacked at its one '=' into the dictionary, the first piece that does not unpack raising `ValueError` |
| Txt2Inc.StatesFail | txt2inc.py:19-20 | a failure ends the parse: later pieces do not change the outcome |
| Txt2Inc.StatesAfterErr | txt2inc.py:19-20 | the parse fails exactly when some piece does not hold exactly one '=' |
| Txt2Inc.StatesAfterGet | txt2inc.py:18-22 | each key maps to the value of its last piece (later pieces overwrite earlier ones) and appears once |
| Txt2Inc.StateOfPlain | txt2inc.py:13-15 | a line without '[' has no states |
| Txt2Inc.EmptyBracketsFail | txt2inc.py:16-20 | empty brackets raise: "" splits into one empty piece that does not unpack |
| Txt2Inc.StatesOfPieces | txt2inc.py:17-22 | pieces that each unpack to distinct keys give their pairs in order |
| Txt2Inc.StateOfBlock | txt2inc.py:12-22 | a written state list `name[k1=v1,...]` with plain keys and values reads back as exactly those pairs, in order |
| Txt2Inc.BlockName | txt2inc.py:24-28 | `parse_block_name` never returns text holding '[' |
| Txt2Inc.BlockNameOfBlock | txt2inc.py:24-26 | a written block line names its block: the unstripped text before the first '[' |
| Txt2Inc.BlockNameOfPlain | txt2inc.py:27-28 | a line without '[' names itself stripped |
| Txt2Inc.NonBlankLines | txt2inc.py:31 | every line kept is non-empty and already stripped |
| Txt2Inc.Drop | txt2inc.py:34-36 | `s[n:]` is what follows the first n characters |
| Txt2Inc.Pass | txt2inc.py:34-50 | one pass: the labels cut off, the base names and the three state lists, the key "base_in||base_uni" |
| Txt2Inc.NextPass | txt2inc.py:33-36 | a pass without three lines left raises `IndexError`; otherwise it is the pass over the next three lines |
| Txt2Inc.Loop | txt2inc.py:33-50 | the loop builds the templates pass by pass, stopping at the first exception |
| Txt2Inc.Run | txt2inc.py:30-50 | the script yields the templates built from the non-blank lines, or the exception that stopped it |
| Txt2Inc.BuildFail | txt2inc.py:33-50 | an exception ends the loop: later passes do not happen |
| Txt2Inc.BuildOk | txt2inc.py:33-50 | the loop completes exactly when every pass succeeds |
| Txt2Inc.PassesOk | txt2inc.py:33-36 | every pass succeeds exactly when the lines come in whole triples and each triple parses |
| Txt2Inc.TemplatesOfOk | txt2inc.py:30-50 | the script succeeds exactly when the non-blank lines come in whole triples and every triple parses |
| Txt2Inc.BuildGroups | txt2inc.py:45-50 | under each key are the entries of exactly the triples with that key, in input order, and each key appears once |
| Txt2Inc.TotalPut | txt2inc.py:46 | replacing one key's list changes the entry count by the difference of the lists' lengths |
| Txt2Inc.BuildTotal | txt2inc.py:46-50 | every pass adds exactly one entry |
| Txt2Inc.TemplatesTotal | txt2inc.py:30-50 | a converted file yields one entry per triple of non-blank lines |

## Left out

- The console front end (`TemplateTool.cpp`), timing and progress output,
  and every `std::cout`/`std::cerr` message: they are user interface, not
  behaviour of the format.
- The NBT library and everything built on it: `SchematicToBCF.hpp`,
  `McstructureToBCF.hpp`, the tag access in `SchemToBCF::convert` and
  `LitematicToBCF::processRegion`/`extractBlockStates`/`buildAirFilter`, and
  the libnbt++ serialisation of the auxiliary payload. The importers take
  the values the NBT code extracts (palette, dimensions, block data, regions)
  as parameters. A payload is an uninterpreted byte string compared by equality.
- File system and stream plumbing: directory creation and removal of the
  temporary cache, `ofstream` handle caching, and host-order
  `reinterpret_cast` writes. Files are byte sequences, spill files are lists
  of batches, and integers are little-endian.
- `gbk_to_utf8`, a Windows code-page call: it is a parameter of
  `StringCodec.EnsureUtf8` (`fromCodePage`). Only the valid-input path of
  `ensure_utf8` has a stated result.
- Concurrency: the `std::async` candidate evaluation and the parallel erase of
  `RegionMergeUtils.hpp` run sequentially here. The concurrent `erase` on one
  `unordered_set` is a data race with no meaning to preserve. The branch
  that evaluates all six candidates first is proved to pick the same box as
  the sequential one.
- Floating point: `ceil(log2(n))` is `Bits.CeilLog2`, the smallest width that
  numbers `n` entries.
- CachedWriterV3.Target: the old writer's 80% target, computed in `double`,
  is `4 * max / 5` rounded down. This is an approximation where the double
  product rounds differently.
- `BCFUtils::readAllSubChunks` has no return statement and
  `BCFWriter::write` passes block groups where `writeBCF` expects regions.
  Neither compiles as a type-correct call, so `MemoryWriter` models `write`
  up to the merged groups of each sub-chunk, and `writeBCF` takes regions.
  `mergeAllCacheFiles` in `BCFCachedWriter.hpp:388` calls
  `SubChunkUtils::writeSubChunk` with five arguments (the stream, the
  regions and three origin coordinates), while `SubChunkUtils.hpp:8-10`
  declares three (the stream, the regions and `originY`). That call does
  not compile either; `CachedWriterV3` writes each record with the three
  origins the call passes, in the layout of `core/bcf_io.hpp`.
- Readers.ListBlocks: the source's `getBlocks` reads a block group's `count`
  and `x`/`y`/`z` vectors from what `readSubChunk` returns, which are
  regions. The model lists every cell of each region's box instead, which is
  what the merger does with the same regions.
- Readers.ReadCatalog: the stream reader reads palette entries without the
  version-4 payload string, as the source does. The latest cached writer
  writes that payload, so on its files the stream reader's cursor falls out
  of step after the first entry. The round trips are proved against
  `writeBCF`'s layout, which has no payload; the misreading of version-4
  files is not modelled.
- Merger.MergeAndSave: the merger calls reader methods (`getBlockRegions`,
  `getSubChunkOrigin`, `getPaletteKey`, `getStateValue`) that the reader
  shown does not have. It queries an abstract `Source` of lookups instead.
- Merger.EmitBox: the loop counters are unbounded integers. The source
  counts with `Coord` (`int16_t`): when a region's upper bound is 32767 the
  guard `x <= x2` always holds and the counter wraps, so the loop never
  ends (`Merger.CoordLoopNeverEnds`). Region coordinates are local to a
  sub-chunk, far below that bound.
- CachedWriterV3.DynamicIndex: modelled as written, collisions included
  (see "Findings"). The version-3 writer keeps this index; the corrected
  fixed grid is the one the latest writer uses.
- CachedWriterV3.Writer.AddBlock: requires the running bounds, widened by
  the new block, to span less than `INT_MAX` minus one partition. Beyond
  that the source's `int` arithmetic overflows, which is undefined.
- MemoryWriter.Writer.AddBlock: requires a non-negative `subChunkIndex`.
  The source compares it with `subChunks.size()` as a `size_t`, so a
  negative index converts to a huge one and the loop keeps appending empty
  sub-chunks until the allocation fails.
- Interning.Metadata.Intern: requires room for one more block type in the
  16-bit type table. Past 65536 names the source's `uint16_t nextTypeId`
  wraps to 0 and the new name overwrites id 0 in `typeMap`; that wrap is
  modelled only in `Interning.Interner.GetOrCreate`.
- CachedWriter.Writer.AddBlock: requires room for one more block type, so
  the 16-bit type-id wrap of `Interning.Interner.GetOrCreate` is not
  followed through the writer.
- CachedWriterV3.Writer.Insert: requires room for the block's type in the
  16-bit type table; the type-id wrap is modelled only in
  `Interning.Interner.GetOrCreate`.
- CachedWriterV3.Writer.Number: requires room for the block's type in the
  16-bit type table; the type-id wrap is modelled only in
  `Interning.Interner.GetOrCreate`.
- CachedWriterV3.Writer.AddBlocks: requires room for every type of the
  batch in the 16-bit type table; the type-id wrap is modelled only in
  `Interning.Interner.GetOrCreate`.
- CachedWriterV3.Writer.InsertAll: requires room for every type of the
  batch in the 16-bit type table; the type-id wrap is modelled only in
  `Interning.Interner.GetOrCreate`.
- CachedWriter.Writer.AddBlock and CachedWriterV3.Writer.AddBlock: require
  the local height `y + 56` to stay below 32767 and each partition's count
  below 2^32. Fewer than 256 distinct state names and state values are
  required: the 8-bit ids would wrap silently at 256 and there is no
  capacity error. Room for one more block type in the 16-bit type table is
  required as well: past 65536 names `nextTypeId` wraps and overwrites id 0,
  which only `Interning.Interner.GetOrCreate` models.
- RegionMerge.MergeToRegions and RegionMergeSix.MergeToRegions: require
  every coordinate to stay below 32767, so that `maxX + 1` does not
  overflow `int16_t`.
- RegionMergeSix.CompressPalette: proved with `has` as exact membership
  (`RegionMergeSix.HasInRangeExact`). Coverage is not claimed for the
  masked encoding the source uses (see "Findings").
- Schem.Import: requires the dimensions, their `int` product and every
  palette id to be in range. It also requires the block data to hold at
  least one varint per cell. Otherwise the source overflows or indexes past
  the decoded vector, which is undefined.
- Litematic.ProcessRegion and Litematic.Import: require `pos + size`,
  `-size`, the cell count and the palette size to fit an `int`
  (`Litematic.Fits`). The debug output of
  `processRegion` is not modelled.
- Mcfunction.ParseFill: the box loops count with unbounded integers. In
  the source an upper bound of `INT_MAX` makes `x++` overflow, which is
  undefined. The per-line message written to `std::cerr` becomes a
  `(line, message)` report.
- Converter.Convert: the set that prints each unmapped block once is
  output only, and is left out.
- Txt2Inc.Run: reading the input file and dumping JSON are left out. The
  script's result is the dictionary it would dump, or the exception that
  stopped it.

## Findings

| source | as written | input that shows it | evidently intended | confidence | as-written member | corrected member |
|---|---|---|---|---|---|---|
| RegionMergeUtils.hpp:140 | the seed box is initialised positionally as x, x, y, y, z, z into the fields x1, y1, z1, x2, y2, z2 | seed (0, 5, 0): the box's z range is 5..0, empty, so every x face counts as full and `expandX` never stops | the one-cell box at the seed | not executed | RegionMergeSix.SeedBoxAsWrittenNeverStops | RegionMergeSix.SeedBoxIsSeed |
| RegionMergeUtils.hpp:38-49 | `has` masks each offset to the axis width, so a cell past the scanned maximum aliases a cell inside | grid {(0,0,0), (1,0,0)}: x has 1 bit, (2,0,0) is reported present and `expandX` never stops | membership only for cells inside the scanned range | not executed | RegionMergeSix.HasAsWrittenAliases | RegionMergeSix.HasInRangeExact |
| bcf_io.hpp:54-58 | `readString32` stores the u32 length in a 16-bit variable | a 65536-byte string reads back as the empty string, with the cursor inside the payload | the full 32-bit length, as in core/bcf_io.hpp | not executed | StringCodec.PlainString32Truncates | StringCodec.ReadString32OfWritten |
| BCFCachedWriter.hpp:177 | `addBlocks` takes the local height from z | a block at y 0, z 1 is stored at local height 57; `addBlock` stores it at 56 | y + 56, as in `addBlock` | not executed | CachedWriterV3.BatchLocalYAsWrittenDiffers | CachedWriterV3.BatchLocalY |
| SchemToBCF.hpp:83-88 | a palette entry whose name contains "air" is skipped (`LitematicToBCF.hpp:191` has the same test, which `Litematic.BuildAirFilter` keeps as written and `Litematic.StairsCellSkipped` shows) | `minecraft:oak_stairs` is skipped, and so is every other stair block | skip exactly `air`, `cave_air` and `void_air`, with or without states | not executed | Air.StairsAreDropped | Schem.AirFilter |
| LitematicToBCF.hpp:144-145 | the decodable count is `size * (64 / b)`, whole entries per long, though entries span longs | 5 bits per entry, 5 longs all set, 64 cells: cell 60 reads 0 instead of 31 | `64 * size / b` entries | not executed | Litematic.FiveBitExample | Litematic.WholeEntriesRead |
| BCFCachedWriter.hpp:97-113 | the partition index is computed from the bounds current when each block arrives, and those bounds widen as blocks arrive | a block at x, then a block at x - 144: both get partition index 0 and local x 0, so the merge puts the first one 144 blocks away from where it was added | a fixed grid of 144-wide columns, as the latest writer uses, where two blocks share a partition exactly when they share a column | not executed | CachedWriterV3.DynamicIndexCollides | Partitions.PartitionIndexInjective |

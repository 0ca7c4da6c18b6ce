/** Fixed-width little-endian integers (`write_le`/`read_le` and the
    `write_uN`/`read_uN` helpers; the same code appears in core/bcf_io.hpp and
    bcf_io.hpp). A stream is a byte sequence; writing appends, and reading at a
    cursor either yields the value and the next cursor, or `None` when the stream
    ends first (the original leaves the value indeterminate there). The original
    copies host memory with `reinterpret_cast`; the container format is defined
    as little-endian, which is what a little-endian host produces. */
module LittleEndian {
  import opened Wrappers

  type Byte = b: int | 0 <= b < 0x100
  type Bytes = seq<Byte>

  type U8 = x: int | 0 <= x < 0x100
  type U16 = x: int | 0 <= x < 0x1_0000
  type U32 = x: int | 0 <= x < 0x1_0000_0000
  type U64 = x: int | 0 <= x < 0x1_0000_0000_0000_0000
  type I16 = x: int | -0x8000 <= x < 0x8000
  type I32 = x: int | -0x8000_0000 <= x < 0x8000_0000

  function Pow256(n: nat): (r: nat)
    ensures r >= 1
  {
    if n == 0 then 1 else 256 * Pow256(n - 1)
  }

  lemma {:induction false} Pow256Values()
    ensures Pow256(1) == 0x100 && Pow256(2) == 0x1_0000
    ensures Pow256(4) == 0x1_0000_0000 && Pow256(8) == 0x1_0000_0000_0000_0000
  {
    assert Pow256(2) == 0x1_0000;
    assert Pow256(4) == 0x1_0000_0000;
    assert Pow256(8) == 0x1_0000_0000_0000_0000;
  }

  /** The `n` bytes of `v`, least significant first. */
  function ToLE(v: nat, n: nat): (r: Bytes)
    requires v < Pow256(n)
    ensures |r| == n
  {
    if n == 0 then [] else [v % 256] + ToLE(v / 256, n - 1)
  }

  /** The number whose little-endian bytes are `bs`. */
  function FromLE(bs: Bytes): (r: nat)
    ensures r < Pow256(|bs|)
  {
    if bs == [] then 0 else bs[0] + 256 * FromLE(bs[1..])
  }

  lemma {:induction false} FromToLE(v: nat, n: nat)
    requires v < Pow256(n)
    ensures FromLE(ToLE(v, n)) == v
  {
    if n > 0 {
      FromToLE(v / 256, n - 1);
      assert ToLE(v, n)[1..] == ToLE(v / 256, n - 1);
    }
  }

  lemma {:induction false} DivMod256(b: nat, x: nat)
    requires b < 256
    ensures (b + 256 * x) % 256 == b && (b + 256 * x) / 256 == x
  {
  }

  lemma {:induction false} ToFromLE(bs: Bytes)
    ensures ToLE(FromLE(bs), |bs|) == bs
  {
    if bs != [] {
      var x := FromLE(bs[1..]);
      DivMod256(bs[0], x);
      ToFromLE(bs[1..]);
      assert ToLE(FromLE(bs), |bs|) == [bs[0]] + ToLE(x, |bs| - 1);
      assert [bs[0]] + bs[1..] == bs;
    }
  }

  function WriteU8(v: U8): (r: Bytes)
    ensures |r| == 1 && r[0] == v
  {
    [v]
  }

  function WriteU16(v: U16): (r: Bytes)
    ensures |r| == 2 && FromLE(r) == v
  {
    Pow256Values();
    FromToLE(v, 2);
    ToLE(v, 2)
  }

  function WriteU32(v: U32): (r: Bytes)
    ensures |r| == 4 && FromLE(r) == v
  {
    Pow256Values();
    FromToLE(v, 4);
    ToLE(v, 4)
  }

  function WriteU64(v: U64): (r: Bytes)
    ensures |r| == 8 && FromLE(r) == v
  {
    Pow256Values();
    FromToLE(v, 8);
    ToLE(v, 8)
  }

  /** Two's complement of a signed 16-bit value as an unsigned one. */
  function I16Bits(v: I16): (u: U16)
    ensures v >= 0 ==> u == v
    ensures v < 0 ==> u == v + 0x1_0000
  {
    if v < 0 then v + 0x1_0000 else v
  }

  function I16FromBits(u: U16): (v: I16)
    ensures I16Bits(v) == u
  {
    if u >= 0x8000 then u - 0x1_0000 else u
  }

  function WriteI16(v: I16): (r: Bytes)
    ensures |r| == 2 && I16FromBits(FromLE(r)) == v
  {
    WriteU16(I16Bits(v))
  }

  /** Truncating conversions, as `static_cast` to an unsigned or 16-bit type. */
  function WrapU8(v: int): (r: U8)
    ensures 0 <= v < 0x100 ==> r == v
  {
    v % 0x100
  }

  function WrapU16(v: int): (r: U16)
    ensures 0 <= v < 0x1_0000 ==> r == v
  {
    v % 0x1_0000
  }

  function WrapU32(v: int): (r: U32)
    ensures 0 <= v < 0x1_0000_0000 ==> r == v
  {
    v % 0x1_0000_0000
  }

  function WrapU64(v: int): (r: U64)
    ensures 0 <= v < 0x1_0000_0000_0000_0000 ==> r == v
  {
    v % 0x1_0000_0000_0000_0000
  }

  function WrapI16(v: int): (r: I16)
    ensures -0x8000 <= v < 0x8000 ==> r == v
    ensures (r - v) % 0x1_0000 == 0
  {
    I16FromBits(v % 0x1_0000)
  }

  /** 32-bit `int` arithmetic wrapping on overflow. */
  function WrapI32(v: int): (r: I32)
    ensures -0x8000_0000 <= v < 0x8000_0000 ==> r == v
    ensures (r - v) % 0x1_0000_0000 == 0
  {
    var u := v % 0x1_0000_0000;
    if u >= 0x8000_0000 then u - 0x1_0000_0000 else u
  }

  /** Reads `n` bytes at `pos`; `None` when fewer than `n` remain. */
  function ReadLE(s: Bytes, pos: nat, n: nat): (r: Option<(nat, nat)>)
    ensures r.Some? <==> pos + n <= |s|
    ensures r.Some? ==> r.value.0 < Pow256(n) && r.value.1 == pos + n
  {
    if pos + n <= |s| then Some((FromLE(s[pos..pos + n]), pos + n)) else None
  }

  function ReadU8(s: Bytes, pos: nat): (r: Option<(U8, nat)>)
    ensures r.Some? <==> pos + 1 <= |s|
    ensures r.Some? ==> r.value == (s[pos], pos + 1)
  {
    if pos + 1 <= |s| then Some((s[pos], pos + 1)) else None
  }

  function ReadU16(s: Bytes, pos: nat): (r: Option<(U16, nat)>)
    ensures r.Some? <==> pos + 2 <= |s|
    ensures r.Some? ==> r.value.1 == pos + 2
  {
    Pow256Values();
    match ReadLE(s, pos, 2)
    case Some((v, p)) => Some((v, p))
    case None => None
  }

  function ReadU32(s: Bytes, pos: nat): (r: Option<(U32, nat)>)
    ensures r.Some? <==> pos + 4 <= |s|
    ensures r.Some? ==> r.value.1 == pos + 4
  {
    Pow256Values();
    match ReadLE(s, pos, 4)
    case Some((v, p)) => Some((v, p))
    case None => None
  }

  function ReadU64(s: Bytes, pos: nat): (r: Option<(U64, nat)>)
    ensures r.Some? <==> pos + 8 <= |s|
    ensures r.Some? ==> r.value.1 == pos + 8
  {
    Pow256Values();
    match ReadLE(s, pos, 8)
    case Some((v, p)) => Some((v, p))
    case None => None
  }

  function ReadI16(s: Bytes, pos: nat): (r: Option<(I16, nat)>)
    ensures r.Some? <==> pos + 2 <= |s|
    ensures r.Some? ==> r.value.1 == pos + 2
  {
    match ReadU16(s, pos)
    case Some((u, p)) => Some((I16FromBits(u), p))
    case None => None
  }

  /** The bytes written between `p` and `q` are read back at offset |p|. */
  lemma {:induction false} SliceMiddle(p: Bytes, w: Bytes, q: Bytes)
    ensures (p + w + q)[|p|..|p| + |w|] == w
  {
    assert (p + w + q)[|p|..|p| + |w|] == w;
  }

  /** The three parts of a concatenation, recovered by slicing. */
  lemma {:induction false} Slice3(a: Bytes, b: Bytes, c: Bytes)
    ensures (a + b + c)[..|a|] == a
    ensures (a + b + c)[|a|..|a| + |b|] == b
    ensures (a + b + c)[|a| + |b|..] == c
  {
    assert (a + b + c)[..|a|] == a;
    assert (a + b + c)[|a|..|a| + |b|] == b;
    assert (a + b + c)[|a| + |b|..] == c;
  }

  /** The four parts of a concatenation, recovered by slicing. */
  lemma {:induction false} Slice4(a: Bytes, b: Bytes, c: Bytes, d: Bytes)
    ensures (a + b + c + d)[..|a|] == a
    ensures (a + b + c + d)[|a|..|a| + |b|] == b
    ensures (a + b + c + d)[|a| + |b|..|a| + |b| + |c|] == c
    ensures (a + b + c + d)[|a| + |b| + |c|..] == d
  {
    Slice3(a + b, c, d);
    Slice3(a, b, c + d);
    var ab := (a + b + c + d)[..|a| + |b|];
    assert ab == a + b;
    assert ab[|a|..|a| + |b|] == b;
  }

  /** Overwriting the bytes `a` that follow `p` with `b` of the same length. */
  lemma {:induction false} Patch(p: Bytes, a: Bytes, b: Bytes, q: Bytes)
    requires |a| == |b|
    ensures (p + a + q)[..|p|] + b + (p + a + q)[|p| + |a|..] == p + b + q
  {
    Slice3(p, a, q);
  }

  /** Regrouping a concatenation after its first two parts. */
  lemma {:induction false} Regroup(p: Bytes, w: Bytes, a: Bytes, b: Bytes, c: Bytes)
    ensures p + w + a + b + c == p + w + (a + b + c)
    ensures p + w + (a + b + c) == p + (w + a + b + c)
  {
  }

  /** Regrouping a two-part middle, for reading its parts in turn. */
  lemma {:induction false} Split2(p: Bytes, a: Bytes, b: Bytes, q: Bytes)
    ensures p + (a + b) + q == p + a + (b + q)
    ensures p + (a + b) + q == (p + a) + b + q
  {
  }

  /** A stream holding `w` at `pos` is its prefix, `w` and its suffix. */
  lemma {:induction false} Decompose(s: Bytes, pos: nat, w: Bytes)
    requires pos + |w| <= |s| && s[pos..pos + |w|] == w
    ensures s == s[..pos] + w + s[pos + |w|..]
  {
    assert s == s[..pos] + s[pos..pos + |w|] + s[pos + |w|..];
  }

  /** `c` lies in `s` at `p`. */
  predicate HasAt(s: Bytes, p: nat, c: Bytes) {
    p + |c| <= |s| && s[p..p + |c|] == c
  }

  /** One more element of a prefix. */
  lemma {:induction false} TakeNext<T>(s: seq<T>, i: nat)
    requires i < |s|
    ensures s[..i + 1] == s[..i] + [s[i]]
  {
  }

  lemma {:induction false} TakeAll<T>(s: seq<T>)
    ensures s[..|s|] == s
  {
  }

  /** Two pieces lie one after the other where their concatenation lies. */
  /** A sequence that agrees with `b` and then holds `x` is `b + [x]`. */
  lemma {:induction false} SnocEq<T>(a: seq<T>, b: seq<T>, x: T)
    requires |a| == |b| + 1 && a[|b|] == x
    requires forall j :: 0 <= j < |b| ==> a[j] == b[j]
    ensures a == b + [x]
  {
  }

  lemma {:induction false} Assoc(a: Bytes, b: Bytes, c: Bytes)
    ensures a + b + c == a + (b + c)
  {
  }

  lemma {:induction false} HasAtSplit(s: Bytes, p: nat, a: Bytes, b: Bytes)
    requires HasAt(s, p, a + b)
    ensures HasAt(s, p, a) && HasAt(s, p + |a|, b)
  {
    assert s[p..p + |a|] == (a + b)[..|a|];
    assert s[p + |a|..p + |a| + |b|] == (a + b)[|a|..];
  }

  /** Two slices whose bounds are equal as numbers are equal. */
  lemma {:induction false} SliceEq(s: Bytes, i: nat, j: nat, k: nat)
    requires i <= j <= |s| && j == k
    ensures s[i..j] == s[i..k]
  {
  }

  /** A slice holding `a + b` splits at `mid` into `a` and `b`. */
  lemma {:induction false} SplitAt(s: Bytes, pos: nat, mid: nat, end: nat, a: Bytes, b: Bytes)
    requires pos <= mid <= end <= |s| && mid - pos == |a| && end - mid == |b|
    requires s[pos..end] == a + b
    ensures s[pos..mid] == a && s[mid..end] == b
  {
    assert s[pos..mid] == (a + b)[..|a|];
    assert s[mid..end] == (a + b)[|a|..];
  }

  /** Slicing a slice. */
  lemma {:induction false} SliceOfSlice(s: Bytes, pos: nat, n: nat, i: nat, j: nat)
    requires pos + n <= |s| && i <= j <= n
    ensures s[pos..pos + n][i..j] == s[pos + i..pos + j]
  {
    var u, v := s[pos..pos + n][i..j], s[pos + i..pos + j];
    forall k | 0 <= k < |u| ensures u[k] == v[k] {
    }
    assert u == v;
  }

  lemma {:induction false} ReadLEOfWritten(p: Bytes, v: nat, n: nat, q: Bytes)
    requires v < Pow256(n)
    ensures ReadLE(p + ToLE(v, n) + q, |p|, n) == Some((v, |p| + n))
  {
    SliceMiddle(p, ToLE(v, n), q);
    FromToLE(v, n);
  }

  lemma {:induction false} ReadU8OfWritten(p: Bytes, v: U8, q: Bytes)
    ensures ReadU8(p + WriteU8(v) + q, |p|) == Some((v, |p| + 1))
  {
    assert (p + WriteU8(v) + q)[|p|] == v;
  }

  lemma {:induction false} ReadU16OfWritten(p: Bytes, v: U16, q: Bytes)
    ensures ReadU16(p + WriteU16(v) + q, |p|) == Some((v, |p| + 2))
  {
    Pow256Values();
    ReadLEOfWritten(p, v, 2, q);
  }

  lemma {:induction false} ReadU32OfWritten(p: Bytes, v: U32, q: Bytes)
    ensures ReadU32(p + WriteU32(v) + q, |p|) == Some((v, |p| + 4))
  {
    Pow256Values();
    ReadLEOfWritten(p, v, 4, q);
  }

  lemma {:induction false} ReadU64OfWritten(p: Bytes, v: U64, q: Bytes)
    ensures ReadU64(p + WriteU64(v) + q, |p|) == Some((v, |p| + 8))
  {
    Pow256Values();
    ReadLEOfWritten(p, v, 8, q);
  }

  lemma {:induction false} ReadI16OfWritten(p: Bytes, v: I16, q: Bytes)
    ensures ReadI16(p + WriteI16(v) + q, |p|) == Some((v, |p| + 2))
  {
    ReadU16OfWritten(p, I16Bits(v), q);
  }
  /** Reading depends only on the bytes at the cursor. */
  lemma {:induction false} ReadU16At(s: Bytes, pos: nat, v: U16)
    requires pos + 2 <= |s| && s[pos..pos + 2] == WriteU16(v)
    ensures ReadU16(s, pos) == Some((v, pos + 2))
  {
  }

  lemma {:induction false} ReadU32At(s: Bytes, pos: nat, v: U32)
    requires pos + 4 <= |s| && s[pos..pos + 4] == WriteU32(v)
    ensures ReadU32(s, pos) == Some((v, pos + 4))
  {
  }

  lemma {:induction false} ReadU64At(s: Bytes, pos: nat, v: U64)
    requires pos + 8 <= |s| && s[pos..pos + 8] == WriteU64(v)
    ensures ReadU64(s, pos) == Some((v, pos + 8))
  {
  }

  lemma {:induction false} ReadI16At(s: Bytes, pos: nat, v: I16)
    requires pos + 2 <= |s| && s[pos..pos + 2] == WriteI16(v)
    ensures ReadI16(s, pos) == Some((v, pos + 2))
  {
  }

  // ---------------------------------------------------------------------------
  // Packed records: fields of the given byte widths, in declaration order

  predicate FieldsFit(vs: seq<nat>, ws: seq<nat>) {
    |vs| == |ws| && forall i :: 0 <= i < |vs| ==> vs[i] < Pow256(ws[i])
  }

  function Sum(ws: seq<nat>): (r: nat)
  {
    if ws == [] then 0 else ws[0] + Sum(ws[1..])
  }
  /** The sum of the widths from `j` on is the width at `j` plus the rest. */
  lemma SumStep(ws: seq<nat>, j: nat)
    requires j < |ws|
    ensures Sum(ws[j..]) == ws[j] + Sum(ws[j + 1..])
  {
    assert ws[j..][1..] == ws[j + 1..];
  }


  /** The bytes of a packed struct whose fields have widths `ws`. */
  function WriteFields(vs: seq<nat>, ws: seq<nat>): (r: Bytes)
    requires FieldsFit(vs, ws)
    ensures |r| == Sum(ws)
  {
    if vs == [] then [] else ToLE(vs[0], ws[0]) + WriteFields(vs[1..], ws[1..])
  }

  /** Reads one field per width at `pos`. */
  function ReadFields(s: Bytes, pos: nat, ws: seq<nat>): (r: Option<(seq<nat>, nat)>)
    ensures r.Some? <==> pos + Sum(ws) <= |s|
    ensures r.Some? ==> FieldsFit(r.value.0, ws) && r.value.1 == pos + Sum(ws)
    decreases |ws|
  {
    if ws == [] then (if pos <= |s| then Some(([], pos)) else None)
    else match ReadLE(s, pos, ws[0])
      case None => None
      case Some((v, p)) =>
        match ReadFields(s, p, ws[1..])
        case None => None
        case Some((rest, p2)) => Some(([v] + rest, p2))
  }

  lemma {:induction false} ReadLEAt(s: Bytes, pos: nat, v: nat, n: nat)
    requires v < Pow256(n)
    requires HasAt(s, pos, ToLE(v, n))
    ensures ReadLE(s, pos, n) == Some((v, pos + n))
  {
    FromToLE(v, n);
  }

  lemma {:induction false} ReadFieldsAt(s: Bytes, pos: nat, vs: seq<nat>, ws: seq<nat>)
    requires FieldsFit(vs, ws)
    requires HasAt(s, pos, WriteFields(vs, ws))
    ensures ReadFields(s, pos, ws) == Some((vs, pos + Sum(ws)))
    decreases |ws|
  {
    if ws == [] {
      ReadNoFields(s, pos, vs, ws);
    } else {
      ReadFirstField(s, pos, vs, ws);
      ReadFieldsAt(s, pos + ws[0], vs[1..], ws[1..]);
      ReadFieldsCons(s, pos, ws, vs);
    }
  }

  /** The first field of written fields is read back, and the other fields
      lie right after it. */
  lemma {:induction false} ReadFirstField(s: Bytes, pos: nat, vs: seq<nat>, ws: seq<nat>)
    requires FieldsFit(vs, ws) && ws != []
    requires HasAt(s, pos, WriteFields(vs, ws))
    ensures ReadLE(s, pos, ws[0]) == Some((vs[0], pos + ws[0]))
    ensures FieldsFit(vs[1..], ws[1..]) && HasAt(s, pos + ws[0], WriteFields(vs[1..], ws[1..]))
  {
    var head, tail := ToLE(vs[0], ws[0]), WriteFields(vs[1..], ws[1..]);
    SplitAt(s, pos, pos + ws[0], pos + Sum(ws), head, tail);
    ReadLEAt(s, pos, vs[0], ws[0]);
  }

  /** A first field read, then the remaining fields read after it. */
  lemma {:induction false} ReadFieldsCons(s: Bytes, pos: nat, ws: seq<nat>, vs: seq<nat>)
    requires ws != [] && vs != []
    requires ReadLE(s, pos, ws[0]) == Some((vs[0], pos + ws[0]))
    requires ReadFields(s, pos + ws[0], ws[1..]) == Some((vs[1..], pos + ws[0] + Sum(ws[1..])))
    ensures ReadFields(s, pos, ws) == Some((vs, pos + Sum(ws)))
  {
    assert [vs[0]] + vs[1..] == vs;
  }

  lemma {:induction false} ReadNoFields(s: Bytes, pos: nat, vs: seq<nat>, ws: seq<nat>)
    requires FieldsFit(vs, ws) && ws == []
    requires HasAt(s, pos, WriteFields(vs, ws))
    ensures ReadFields(s, pos, ws) == Some((vs, pos + Sum(ws)))
  {
    assert vs == [] && WriteFields(vs, ws) == [];
  }


  /** A packed struct is read back field by field as written. */
  lemma {:induction false} ReadFieldsOfWritten(p: Bytes, vs: seq<nat>, ws: seq<nat>, q: Bytes)
    requires FieldsFit(vs, ws)
    ensures ReadFields(p + WriteFields(vs, ws) + q, |p|, ws) == Some((vs, |p| + Sum(ws)))
  {
    SliceMiddle(p, WriteFields(vs, ws), q);
    ReadFieldsAt(p + WriteFields(vs, ws) + q, |p|, vs, ws);
  }
}

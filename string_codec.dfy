/** Length-prefixed strings and the UTF-8 check of core/bcf_io.hpp, and the
    older string helpers of bcf_io.hpp. A `std::string` is a byte string. */
module StringCodec {
  import opened Wrappers
  import opened LittleEndian

  // ---------------------------------------------------------------------------
  // UTF-8 well-formedness (section 3 of RFC 3629, byte patterns only)

  /** A continuation byte, 10xxxxxx. */
  predicate IsContinuation(b: Byte) {
    0x80 <= b < 0xC0
  }

  /** One encoded character: a lead byte followed by as many continuation bytes
      as its high bits announce (the patterns of the table in section 3 of
      RFC 3629; overlong forms and surrogates are not excluded). */
  predicate IsEncodedChar(c: Bytes) {
    || (|c| == 1 && c[0] < 0x80)
    || (|c| == 2 && 0xC0 <= c[0] < 0xE0 && IsContinuation(c[1]))
    || (|c| == 3 && 0xE0 <= c[0] < 0xF0 && IsContinuation(c[1]) && IsContinuation(c[2]))
    || (|c| == 4 && 0xF0 <= c[0] < 0xF8 && IsContinuation(c[1]) && IsContinuation(c[2])
        && IsContinuation(c[3]))
  }

  function Flatten(chunks: seq<Bytes>): (r: Bytes)
    ensures chunks == [] ==> r == []
  {
    if chunks == [] then [] else chunks[0] + Flatten(chunks[1..])
  }

  /** `s` splits into encoded characters. */
  ghost predicate IsUtf8(s: Bytes) {
    exists chunks: seq<Bytes> {:trigger Flatten(chunks)} ::
      Flatten(chunks) == s && forall i :: 0 <= i < |chunks| ==> IsEncodedChar(chunks[i])
  }

  /** The sequence length the lead byte announces, from the shift tests of
      is_valid_utf8; 0 for a byte that cannot start a character. */
  function LeadLength(c: Byte): (k: nat)
    ensures k <= 4
  {
    if c <= 0x7F then 1
    else if c / 32 == 0x6 then 2
    else if c / 16 == 0xE then 3
    else if c / 8 == 0x1E then 4
    else 0
  }

  predicate ContinuationsFollow(s: Bytes, k: nat)
    requires k <= |s|
  {
    forall j :: 1 <= j < k ==> s[j] / 64 == 0x2
  }

  /** The shift tests of the code recognise exactly the byte patterns. */
  lemma {:induction false} LeadLengthMatchesPattern(c: Bytes)
    requires c != []
    ensures IsEncodedChar(c) <==> (LeadLength(c[0]) == |c| && ContinuationsFollow(c, |c|))
  {
  }

  lemma {:induction false} EmptyIsUtf8()
    ensures IsUtf8([])
  {
    var chunks: seq<Bytes> := [];
    assert Flatten(chunks) == [];
  }

  lemma {:induction false} Utf8UnfoldForward(s: Bytes)
    requires s != [] && IsUtf8(s)
    ensures var k := LeadLength(s[0]); 1 <= k <= |s| && ContinuationsFollow(s, k) && IsUtf8(s[k..])
  {
    var chunks: seq<Bytes> :| Flatten(chunks) == s && forall i :: 0 <= i < |chunks| ==> IsEncodedChar(chunks[i]);
    var c := chunks[0];
    var rest := chunks[1..];
    assert IsEncodedChar(c);
    assert s == c + Flatten(rest);
    LeadLengthMatchesPattern(c);
    assert s[..|c|] == c;
    assert s[|c|..] == Flatten(rest);
    assert forall i :: 0 <= i < |rest| ==> IsEncodedChar(rest[i]) by {
      forall i | 0 <= i < |rest| ensures IsEncodedChar(rest[i]) {
        assert rest[i] == chunks[i + 1];
      }
    }
  }

  lemma {:induction false} Utf8UnfoldBackward(s: Bytes, k: nat)
    requires 1 <= k <= |s| && k == LeadLength(s[0]) && ContinuationsFollow(s, k) && IsUtf8(s[k..])
    ensures IsUtf8(s)
  {
    var rest: seq<Bytes> :| Flatten(rest) == s[k..] && forall i :: 0 <= i < |rest| ==> IsEncodedChar(rest[i]);
    var c := s[..k];
    LeadLengthMatchesPattern(c);
    var chunks := [c] + rest;
    assert chunks[1..] == rest;
    assert Flatten(chunks) == c + s[k..] == s;
    assert forall i :: 0 <= i < |chunks| ==> IsEncodedChar(chunks[i]) by {
      forall i | 0 <= i < |chunks| ensures IsEncodedChar(chunks[i]) {
        if i > 0 { assert chunks[i] == rest[i - 1]; }
      }
    }
  }

  /** A non-empty string is UTF-8 exactly when its first character is well
      formed and the rest is UTF-8: the decomposition is forced by the lead byte. */
  lemma {:induction false} Utf8Unfold(s: Bytes)
    requires s != []
    ensures IsUtf8(s) <==>
      (var k := LeadLength(s[0]); 1 <= k <= |s| && ContinuationsFollow(s, k) && IsUtf8(s[k..]))
  {
    var k := LeadLength(s[0]);
    if IsUtf8(s) { Utf8UnfoldForward(s); }
    if 1 <= k <= |s| && ContinuationsFollow(s, k) && IsUtf8(s[k..]) { Utf8UnfoldBackward(s, k); }
  }

  /** is_valid_utf8: walks the string one character at a time. */
  method IsValidUtf8(s: Bytes) returns (ok: bool)
    ensures ok <==> IsUtf8(s)
  {
    var i := 0;
    while i < |s|
      invariant 0 <= i <= |s|
      invariant IsUtf8(s) <==> IsUtf8(s[i..])
    {
      var c := s[i];
      Utf8Unfold(s[i..]);
      assert s[i..][0] == c;
      if c <= 0x7F {
        assert s[i..][1..] == s[i + 1..];
        i := i + 1;
      } else if c / 32 == 0x6 {
        if i + 1 >= |s| { return false; }
        if s[i + 1] / 64 != 0x2 { assert s[i..][1] == s[i + 1]; return false; }
        assert ContinuationsFollow(s[i..], 2);
        assert s[i..][2..] == s[i + 2..];
        i := i + 2;
      } else if c / 16 == 0xE {
        if i + 2 >= |s| { return false; }
        if s[i + 1] / 64 != 0x2 { assert s[i..][1] == s[i + 1]; return false; }
        if s[i + 2] / 64 != 0x2 { assert s[i..][2] == s[i + 2]; return false; }
        assert ContinuationsFollow(s[i..], 3);
        assert s[i..][3..] == s[i + 3..];
        i := i + 3;
      } else if c / 8 == 0x1E {
        if i + 3 >= |s| { return false; }
        if s[i + 1] / 64 != 0x2 { assert s[i..][1] == s[i + 1]; return false; }
        if s[i + 2] / 64 != 0x2 { assert s[i..][2] == s[i + 2]; return false; }
        if s[i + 3] / 64 != 0x2 { assert s[i..][3] == s[i + 3]; return false; }
        assert ContinuationsFollow(s[i..], 4);
        assert s[i..][4..] == s[i + 4..];
        i := i + 4;
      } else {
        return false;
      }
    }
    assert s[|s|..] == [];
    EmptyIsUtf8();
    return true;
  }

  /** Appending to a UTF-8 string keeps it UTF-8 exactly when the appended part is. */
  lemma {:induction false} Utf8Append(s: Bytes, u: Bytes)
    requires IsUtf8(s)
    ensures IsUtf8(s + u) <==> IsUtf8(u)
    decreases |s|
  {
    if s == [] {
      assert s + u == u;
    } else {
      Utf8Unfold(s);
      var k := LeadLength(s[0]);
      Utf8Unfold(s + u);
      assert (s + u)[0] == s[0];
      assert (s + u)[k..] == s[k..] + u;
      assert ContinuationsFollow(s + u, k) by {
        forall j | 1 <= j < k ensures (s + u)[j] / 64 == 0x2 {
          assert (s + u)[j] == s[j];
        }
      }
      Utf8Append(s[k..], u);
    }
  }

  /** A multi-byte character cut off by the end of the string is rejected,
      whatever valid text precedes it. */
  lemma {:induction false} TruncatedCharRejected(s: Bytes, lead: Byte, tail: Bytes)
    requires IsUtf8(s)
    requires LeadLength(lead) >= 2 && |tail| < LeadLength(lead) - 1
    ensures !IsUtf8(s + ([lead] + tail))
  {
    Utf8Append(s, [lead] + tail);
    Utf8Unfold([lead] + tail);
  }

  /** The check accepts the overlong two-byte form of NUL and an encoded
      surrogate, which RFC 3629 forbids. */
  lemma {:induction false} AcceptsOverlongAndSurrogate()
    ensures IsUtf8([0xC0, 0x80])
    ensures IsUtf8([0xED, 0xA0, 0x80])
  {
    var a: seq<Bytes> := [[0xC0, 0x80]];
    assert Flatten(a) == [0xC0, 0x80];
    var b: seq<Bytes> := [[0xED, 0xA0, 0x80]];
    assert Flatten(b) == [0xED, 0xA0, 0x80];
  }

  /** What ensure_utf8 turns a string into. */
  ghost function Utf8Of(s: Bytes, fromCodePage: Bytes -> Bytes): Bytes {
    if s == [] || IsUtf8(s) then s else fromCodePage(s)
  }

  /** ensure_utf8: empty and UTF-8 strings pass unchanged; anything else goes
      through the code-page conversion, a foreign call given as a parameter. */
  method EnsureUtf8(s: Bytes, fromCodePage: Bytes -> Bytes) returns (r: Bytes)
    ensures s == [] || IsUtf8(s) ==> r == s
    ensures s != [] && !IsUtf8(s) ==> r == fromCodePage(s)
  {
    if s == [] { return s; }
    var ok := IsValidUtf8(s);
    if ok { return s; }
    return fromCodePage(s);
  }

  // ---------------------------------------------------------------------------
  // u16-length-prefixed strings

  /** The bytes of a string16 record: u16 length, then the bytes. */
  function String16Bytes(u: Bytes): (r: Bytes)
    requires |u| <= 0xFFFF
    ensures |r| == 2 + |u| && r[2..] == u
  {
    WriteU16(|u|) + u
  }

  /** writeString16 of core/bcf_io.hpp: normalise to UTF-8, refuse more than
      65535 bytes, else write the record. */
  method WriteString16(str: Bytes, fromCodePage: Bytes -> Bytes) returns (r: Result<Bytes>)
    ensures str == [] || IsUtf8(str) ==>
      (if |str| > 0xFFFF then r.Err? else r == Ok(String16Bytes(str)))
    ensures str != [] && !IsUtf8(str) ==>
      (var u := fromCodePage(str); if |u| > 0xFFFF then r.Err? else r == Ok(String16Bytes(u)))
  {
    var u8 := EnsureUtf8(str, fromCodePage);
    if |u8| > 0xFFFF {
      return Err("String length exceeds the maximum allowed 65535 for BCF writeString16 (after UTF-8 normalization).");
    }
    return Ok(String16Bytes(u8));
  }

  /** writeString16 of bcf_io.hpp: no normalisation. */
  function WriteString16Plain(s: Bytes): (r: Result<Bytes>)
    ensures r.Err? <==> |s| > 0xFFFF
    ensures r.Ok? ==> |r.value| == 2 + |s| && r.value[2..] == s
  {
    if |s| > 0xFFFF then Err("String length exceeds the maximum allowed 65535 for BCF writeString16.")
    else Ok(String16Bytes(s))
  }

  /** readString16 (the same in both files): u16 length, then that many bytes. */
  function ReadString16(s: Bytes, pos: nat): (r: Option<(Bytes, nat)>)
    ensures r.Some? ==> r.value.1 == pos + 2 + |r.value.0| <= |s|
  {
    match ReadU16(s, pos)
    case None => None
    case Some((len, p)) =>
      if p + len <= |s| then Some((s[p..p + len], p + len)) else None
  }

  lemma {:induction false} ReadString16OfWritten(p: Bytes, u: Bytes, q: Bytes)
    requires |u| <= 0xFFFF
    ensures ReadString16(p + String16Bytes(u) + q, |p|) == Some((u, |p| + 2 + |u|))
  {
    var w := p + String16Bytes(u) + q;
    assert w == p + WriteU16(|u|) + (u + q);
    ReadU16OfWritten(p, |u|, u + q);
    assert w[|p| + 2..|p| + 2 + |u|] == u;
  }

  /** Round trip of core/bcf_io.hpp: a UTF-8 string of at most 65535 bytes is
      written and read back unchanged. */
  method String16RoundTrip(str: Bytes, fromCodePage: Bytes -> Bytes) returns (back: Option<(Bytes, nat)>)
    requires IsUtf8(str) && |str| <= 0xFFFF
    ensures back == Some((str, 2 + |str|))
  {
    var w := WriteString16(str, fromCodePage);
    ReadString16OfWritten([], str, []);
    assert [] + String16Bytes(str) + [] == String16Bytes(str);
    back := ReadString16(w.value, 0);
  }

  lemma {:induction false} PlainString16RoundTrip(s: Bytes)
    requires |s| <= 0xFFFF
    ensures WriteString16Plain(s).Ok?
    ensures ReadString16(WriteString16Plain(s).value, 0) == Some((s, 2 + |s|))
  {
    ReadString16OfWritten([], s, []);
    assert [] + String16Bytes(s) + [] == String16Bytes(s);
  }

  // ---------------------------------------------------------------------------
  // u32-length-prefixed strings (the auxiliary payload)

  /** writeString32 of core/bcf_io.hpp: the length is cast to u32 and that many
      bytes are written. */
  function WriteString32(str: Bytes): (r: Bytes)
    ensures |str| < 0x1_0000_0000 ==> |r| == 4 + |str| && r[4..] == str
  {
    var len := WrapU32(|str|);
    WriteU32(len) + str[..len]
  }

  /** writeString32 of bcf_io.hpp: the length field wraps, but every byte is written. */
  function WriteString32Plain(str: Bytes): (r: Bytes)
    ensures |r| == 4 + |str| && r[4..] == str
  {
    WriteU32(WrapU32(|str|)) + str
  }

  /** readString32 of core/bcf_io.hpp. */
  function ReadString32(s: Bytes, pos: nat): (r: Option<(Bytes, nat)>)
    ensures r.Some? ==> r.value.1 == pos + 4 + |r.value.0| <= |s|
  {
    match ReadU32(s, pos)
    case None => None
    case Some((len, p)) =>
      if p + len <= |s| then Some((s[p..p + len], p + len)) else None
  }

  /** readString32 of bcf_io.hpp, as written: the u32 length is stored in a
      `uint16_t`, so only its low 16 bits are used. */
  function ReadString32Plain(s: Bytes, pos: nat): (r: Option<(Bytes, nat)>)
    ensures r.Some? ==> r.value.1 == pos + 4 + |r.value.0| <= |s| && |r.value.0| < 0x1_0000
  {
    match ReadU32(s, pos)
    case None => None
    case Some((len32, p)) =>
      var len := WrapU16(len32);
      if p + len <= |s| then Some((s[p..p + len], p + len)) else None
  }

  lemma {:induction false} ReadString32OfWritten(p: Bytes, u: Bytes, q: Bytes)
    requires |u| < 0x1_0000_0000
    ensures ReadString32(p + WriteString32(u) + q, |p|) == Some((u, |p| + 4 + |u|))
  {
    assert u[..|u|] == u;
    var w := p + WriteString32(u) + q;
    assert w == p + WriteU32(|u|) + (u + q);
    ReadU32OfWritten(p, |u|, u + q);
    assert w[|p| + 4..|p| + 4 + |u|] == u;
  }

  /** The older pair round-trips only below 65536 bytes. */
  lemma {:induction false} PlainString32RoundTrip(u: Bytes)
    requires |u| < 0x1_0000
    ensures ReadString32Plain(WriteString32Plain(u), 0) == Some((u, 4 + |u|))
  {
    var w := WriteString32Plain(u);
    assert w == [] + WriteU32(|u|) + u;
    ReadU32OfWritten([], |u|, u);
    assert w[4..4 + |u|] == u;
  }

  /** ... and at 65536 bytes it reads back the empty string, leaving the cursor
      inside the payload. */
  lemma {:induction false} PlainString32Truncates()
    ensures var u: Bytes := seq(0x1_0000, _ => 0);
      ReadString32Plain(WriteString32Plain(u), 0) == Some(([], 4))
  {
    var u: Bytes := seq(0x1_0000, _ => 0);
    var w := WriteString32Plain(u);
    assert w == [] + WriteU32(0x1_0000) + u;
    ReadU32OfWritten([], 0x1_0000, u);
  }
}

/** Tables of records laid out one after another: a record is written as a
    chunk of bytes, and a table is read back by applying one record reader
    `n` times, each starting where the previous one stopped. */
module Records {
  import opened Wrappers
  import opened LittleEndian
  import opened StringCodec

  /** `n` records read one after another from `pos`; the first failure fails
      the whole read. */
  function ReadMany<T>(read: nat -> Option<(T, nat)>, pos: nat, n: nat): (r: Option<(seq<T>, nat)>)
    ensures r.Some? ==> |r.value.0| == n
    ensures n == 0 ==> r == Some(([], pos))
    decreases n
  {
    if n == 0 then Some(([], pos))
    else match read(pos)
      case None => None
      case Some((x, p)) =>
        match ReadMany(read, p, n - 1)
        case None => None
        case Some((xs, q)) => Some(([x] + xs, q))
  }

  /** Chunks `j..` lie one after another in `s` from `pos`. */
  ghost predicate ChunksAt(s: Bytes, pos: nat, chunks: seq<Bytes>, j: nat)
    requires j <= |chunks|
    decreases |chunks| - j
  {
    j == |chunks|
    || (HasAt(s, pos, chunks[j]) && ChunksAt(s, pos + |chunks[j]|, chunks, j + 1))
  }

  /** `read` turns chunk `j`, wherever in `s` it lies, into record `xs[j]` and
      stops right after it. */
  ghost predicate Decodes<T>(read: nat -> Option<(T, nat)>, s: Bytes, chunks: seq<Bytes>, xs: seq<T>) {
    |chunks| == |xs|
    && forall p: nat, j {:trigger HasAt(s, p, chunks[j])} :: 0 <= j < |xs| && HasAt(s, p, chunks[j])
         ==> read(p) == Some((xs[j], p + |chunks[j]|))
  }

  /** `read` turns chunk `c`, wherever in `s` it lies, into record `x`. */
  ghost predicate DecodesOne<T>(read: nat -> Option<(T, nat)>, s: Bytes, c: Bytes, x: T) {
    forall p: nat {:trigger HasAt(s, p, c)} :: HasAt(s, p, c) ==> read(p) == Some((x, p + |c|))
  }

  /** A table decodes when each of its records does. */
  lemma {:induction false} DecodesEach<T>(read: nat -> Option<(T, nat)>, s: Bytes, chunks: seq<Bytes>, xs: seq<T>)
    requires |chunks| == |xs| && forall j :: 0 <= j < |xs| ==> DecodesOne(read, s, chunks[j], xs[j])
    ensures Decodes(read, s, chunks, xs)
  {
    forall p: nat, j | 0 <= j < |xs| && HasAt(s, p, chunks[j])
      ensures read(p) == Some((xs[j], p + |chunks[j]|))
    {
      assert DecodesOne(read, s, chunks[j], xs[j]);
    }
  }

  lemma {:induction false} FlattenAt(s: Bytes, pos: nat, chunks: seq<Bytes>, j: nat)
    requires j <= |chunks|
    requires pos + |Flatten(chunks[j..])| <= |s|
    requires s[pos..pos + |Flatten(chunks[j..])|] == Flatten(chunks[j..])
    ensures ChunksAt(s, pos, chunks, j)
    decreases |chunks| - j
  {
    if j < |chunks| {
      var head, tail := chunks[j], Flatten(chunks[j + 1..]);
      assert chunks[j..][1..] == chunks[j + 1..];
      var end := pos + |Flatten(chunks[j..])|;
      SplitAt(s, pos, pos + |head|, end, head, tail);
      SliceEq(s, pos + |head|, end, pos + |head| + |tail|);
      FlattenAt(s, pos + |head|, chunks, j + 1);
    }
  }

  lemma {:induction false} ReadManyChunks<T>(read: nat -> Option<(T, nat)>, s: Bytes, pos: nat,
                                               chunks: seq<Bytes>, xs: seq<T>, j: nat)
    requires Decodes(read, s, chunks, xs) && j <= |xs|
    requires ChunksAt(s, pos, chunks, j)
    ensures ReadMany(read, pos, |xs| - j) == Some((xs[j..], pos + |Flatten(chunks[j..])|))
    decreases |xs| - j
  {
    if j < |xs| {
      assert read(pos) == Some((xs[j], pos + |chunks[j]|));
      ReadManyChunks(read, s, pos + |chunks[j]|, chunks, xs, j + 1);
      assert chunks[j..][1..] == chunks[j + 1..];
      assert [xs[j]] + xs[j + 1..] == xs[j..];
    } else {
      assert xs[j..] == [] && chunks[j..] == [];
    }
  }

  /** A table whose records each decode reads back as those records, in order,
      and stops right after the last one. */
  lemma {:induction false} ReadManyOfChunks<T>(read: nat -> Option<(T, nat)>, s: Bytes, pos: nat, chunks: seq<Bytes>, xs: seq<T>)
    requires Decodes(read, s, chunks, xs)
    requires pos + |Flatten(chunks)| <= |s| && s[pos..pos + |Flatten(chunks)|] == Flatten(chunks)
    ensures ReadMany(read, pos, |xs|) == Some((xs, pos + |Flatten(chunks)|))
  {
    assert chunks[0..] == chunks && xs[0..] == xs;
    FlattenAt(s, pos, chunks, 0);
    ReadManyChunks(read, s, pos, chunks, xs, 0);
  }

  /** ReadManyOfChunks, with the end of the table given by the caller. */
  lemma {:induction false} ReadManyTo<T>(read: nat -> Option<(T, nat)>, s: Bytes, pos: nat, chunks: seq<Bytes>, xs: seq<T>, end: nat)
    requires Decodes(read, s, chunks, xs)
    requires end == pos + |Flatten(chunks)| && end <= |s| && s[pos..end] == Flatten(chunks)
    ensures ReadMany(read, pos, |xs|) == Some((xs, end))
  {
    ReadManyOfChunks(read, s, pos, chunks, xs);
  }

  /** A table of records preceded by its u32 record count. */
  function ReadCounted<T>(read: nat -> Option<(T, nat)>, s: Bytes, pos: nat): (r: Option<(seq<T>, nat)>)
    ensures pos + 4 > |s| ==> r == None
  {
    match ReadU32(s, pos)
    case None => None
    case Some((n, p)) => ReadMany(read, p, n)
  }

  /** A counted table `t` whose records each decode reads back as those records. */
  lemma {:induction false} ReadCountedAt<T>(read: nat -> Option<(T, nat)>, s: Bytes, pos: nat, chunks: seq<Bytes>, xs: seq<T>, t: Bytes)
    requires |xs| < 0x1_0000_0000 && t == WriteU32(|xs|) + Flatten(chunks)
    requires Decodes(read, s, chunks, xs)
    requires HasAt(s, pos, t)
    ensures ReadCounted(read, s, pos) == Some((xs, pos + |t|))
  {
    SplitAt(s, pos, pos + 4, pos + |t|, WriteU32(|xs|), Flatten(chunks));
    ReadU32At(s, pos, |xs|);
    ReadManyOfChunks(read, s, pos + 4, chunks, xs);
  }

  /** Records of a fixed size `w` take `w` bytes each. */
  lemma {:induction false} FlattenLen(chunks: seq<Bytes>, w: nat)
    requires forall j :: 0 <= j < |chunks| ==> |chunks[j]| == w
    ensures |Flatten(chunks)| == w * |chunks|
    decreases |chunks|
  {
    if chunks != [] {
      FlattenLen(chunks[1..], w);
    }
  }

  /** One more record, read where the first `i` left off. */
  lemma {:induction false} ReadManyStep<T>(read: nat -> Option<(T, nat)>, pos: nat, i: nat,
                                           xs: seq<T>, q: nat, x: T, q2: nat)
    requires ReadMany(read, pos, i) == Some((xs, q))
    requires read(q) == Some((x, q2))
    ensures ReadMany(read, pos, i + 1) == Some((xs + [x], q2))
    decreases i
  {
    if i > 0 {
      var (y, p) := read(pos).value;
      var (ys, _) := ReadMany(read, p, i - 1).value;
      ReadManyStep(read, p, i - 1, ys, q, x, q2);
      assert [y] + (ys + [x]) == ([y] + ys) + [x];
    } else {
      assert ReadMany(read, q, 0) == Some(([], q));
      assert [x] + [] == xs + [x];
    }
  }

  /** A record that fails to read fails every longer read through it. */
  lemma {:induction false} ReadManyStops<T>(read: nat -> Option<(T, nat)>, pos: nat, i: nat, n: nat,
                                            xs: seq<T>, q: nat)
    requires i < n
    requires ReadMany(read, pos, i) == Some((xs, q))
    requires read(q) == None
    ensures ReadMany(read, pos, n) == None
    decreases i
  {
    if i > 0 {
      var (y, p) := read(pos).value;
      var (ys, _) := ReadMany(read, p, i - 1).value;
      ReadManyStops(read, p, i - 1, n - 1, ys, q);
    }
  }

  /** Appending a chunk appends its bytes. */
  lemma {:induction false} FlattenSnoc(chunks: seq<Bytes>, c: Bytes)
    ensures Flatten(chunks + [c]) == Flatten(chunks) + c
    decreases |chunks|
  {
    if chunks == [] {
      assert chunks + [c] == [c];
    } else {
      assert (chunks + [c])[1..] == chunks[1..] + [c];
      FlattenSnoc(chunks[1..], c);
    }
  }

  /** A reader that never moves backwards and whose every record satisfies
      `P` reads tables that end no earlier than they start and hold only
      records satisfying `P`. */
  lemma {:induction false} ReadManyKeeps<T>(read: nat -> Option<(T, nat)>, pos: nat, n: nat, P: T -> bool)
    requires forall p: nat :: read(p).Some? ==> read(p).value.1 >= p && P(read(p).value.0)
    ensures ReadMany(read, pos, n).Some? ==>
              ReadMany(read, pos, n).value.1 >= pos
              && forall i :: 0 <= i < n ==> P(ReadMany(read, pos, n).value.0[i])
    decreases n
  {
    if n > 0 && read(pos).Some? {
      ReadManyKeeps(read, read(pos).value.1, n - 1, P);
    }
  }

  /** ReadManyKeeps for a counted table: it also ends after its count. */
  lemma {:induction false} ReadCountedKeeps<T>(read: nat -> Option<(T, nat)>, s: Bytes, pos: nat, P: T -> bool)
    requires forall p: nat :: read(p).Some? ==> read(p).value.1 >= p && P(read(p).value.0)
    ensures ReadCounted(read, s, pos).Some? ==>
              ReadCounted(read, s, pos).value.1 >= pos + 4
              && forall i :: 0 <= i < |ReadCounted(read, s, pos).value.0| ==> P(ReadCounted(read, s, pos).value.0[i])
  {
    match ReadU32(s, pos)
    case None =>
    case Some((n, p)) => ReadManyKeeps(read, p, n, P);
  }

  /** A reader of fixed-size records ends a table of `n` records `w * n`
      bytes after its start. */
  lemma {:induction false} ReadManyFixed<T>(read: nat -> Option<(T, nat)>, pos: nat, n: nat, w: nat)
    requires forall p: nat :: read(p).Some? ==> read(p).value.1 == p + w
    ensures ReadMany(read, pos, n).Some? ==> ReadMany(read, pos, n).value.1 == pos + w * n
    decreases n
  {
    if n > 0 && read(pos).Some? {
      ReadManyFixed(read, pos + w, n - 1, w);
    }
  }

  /** Appending the next chunk extends the flattened prefix by one chunk. */
  lemma {:induction false} AppendChunk(prefix: Bytes, chunks: seq<Bytes>, i: nat)
    requires i < |chunks|
    ensures prefix + Flatten(chunks[..i]) + chunks[i] == prefix + Flatten(chunks[..i + 1])
  {
    FlattenSnoc(chunks[..i], chunks[i]);
    assert chunks[..i + 1] == chunks[..i] + [chunks[i]];
  }
}

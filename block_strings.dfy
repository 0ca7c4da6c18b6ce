/** Block strings `name[key=value,...]`, as the three importers' parsers
    read them (`parseBlockNameAndStates` in SchemToBCF.hpp and
    McfunctionToBCF.hpp, `parseBlockString` in BlockStateConverter.hpp).
    The three parsers share one shape and differ only in what they do with a
    `key=value` piece. */
module BlockStrings {
  import opened Wrappers
  import opened Text

  type State = (string, string)
  type Block = (string, seq<State>)

  /** What a parser does with the piece `key=value`. */
  datatype PairRule =
    | Verbatim         // McfunctionToBCF: keep the pair as written
    | DropWaterlogged  // SchemToBCF: as written, but drop the "waterlogged" key
    | TrimUnquoted     // BlockStateConverter: unquote the value, trim both

  /** Strips one pair of surrounding double quotes from a value of two or
      more characters. */
  function Unquote(v: string): (r: string)
    ensures |v| >= 2 && v[0] == '"' && v[|v| - 1] == '"' ==> v == "\"" + r + "\""
    ensures !(|v| >= 2 && v[0] == '"' && v[|v| - 1] == '"') ==> r == v
  {
    if |v| >= 2 && v[0] == '"' && v[|v| - 1] == '"' then v[1..|v| - 1] else v
  }

  /** The pair (none or one) a piece contributes: a piece without '=' is
      skipped; the key runs to the first '=', the value is the rest. */
  function PiecePair(piece: string, rule: PairRule): seq<State> {
    match FindChar(piece, '=', 0)
    case None => []
    case Some(e) =>
      var key := piece[..e];
      var value := piece[e + 1..];
      match rule
      case Verbatim => [(key, value)]
      case DropWaterlogged => if key == "waterlogged" then [] else [(key, value)]
      case TrimUnquoted => [(Trim(key), Trim(Unquote(value)))]
  }

  function PairsOf(ps: seq<string>, rule: PairRule): seq<State> {
    if |ps| == 0 then [] else PiecePair(ps[0], rule) + PairsOf(ps[1..], rule)
  }

  /** The states a bracketed list holds, in order. */
  function StatePairs(body: string, rule: PairRule): seq<State> {
    PairsOf(Pieces(body), rule)
  }

  /** The name before the first '['; the states between it and the first
      ']' after it. With no '[' the whole text is the name; with no ']' after
      it there are no states. */
  function ParseBlock(full: string, rule: PairRule): Block {
    match FindChar(full, '[', 0)
    case None => (full, [])
    case Some(b) =>
      match FindChar(full, ']', b + 1)
      case None => (full[..b], [])
      case Some(e) => (full[..b], StatePairs(full[b + 1..e], rule))
  }

  /** The text from `pos` on, "" once `pos` has passed the end. */
  function Rest(s: string, pos: nat): string {
    if pos <= |s| then s[pos..] else ""
  }

  /** One turn of the `pos` loop when no ',' is left: the last piece. */
  lemma {:induction false} LastPiece(body: string, pos: nat, rule: PairRule)
    requires pos < |body| && FindChar(body, ',', pos).None?
    ensures StatePairs(body[pos..], rule) == PiecePair(body[pos..], rule)
  {
    var t := body[pos..];
    FindCharShift(body, ',', pos);
    assert Pieces(t) == [t];
    assert PairsOf([t], rule) == PiecePair(t, rule) + PairsOf([], rule);
  }

  /** One turn of the `pos` loop: the piece up to the next ',', then the
      rest after it. */
  lemma {:induction false} NextPiece(body: string, pos: nat, c: nat, rule: PairRule)
    requires pos < |body| && FindChar(body, ',', pos) == Some(c)
    ensures StatePairs(body[pos..], rule) == PiecePair(body[pos..c], rule) + StatePairs(body[c + 1..], rule)
  {
    var t := body[pos..];
    FindCharShift(body, ',', pos);
    var k := c - pos;
    assert FindChar(t, ',', 0) == Some(k);
    assert Pieces(t) == [t[..k]] + Pieces(t[k + 1..]);
    assert t[..k] == body[pos..c];
    assert t[k + 1..] == body[c + 1..];
  }

  /** The parsers' loop: find '[' and ']', then collect the pairs of the
      text between. */
  method ParseBlockString(full: string, rule: PairRule) returns (r: Block)
    ensures r == ParseBlock(full, rule)
  {
    var bracket := FindChar(full, '[', 0);
    if bracket.None? {
      return (full, []);
    }
    var name := full[..bracket.value];
    var close := FindChar(full, ']', bracket.value + 1);
    if close.None? {
      return (name, []);
    }
    var states := ParseStates(full[bracket.value + 1..close.value], rule);
    return (name, states);
  }

  lemma Regroup<T>(a: seq<T>, b: seq<T>, c: seq<T>, total: seq<T>)
    requires a + (b + c) == total
    ensures a + b + c == total
  {
  }

  /** The `pos` loop: split on ',' and collect the pair of each piece. */
  method ParseStates(body: string, rule: PairRule) returns (states: seq<State>)
    ensures states == StatePairs(body, rule)
  {
    states := [];
    var pos := 0;
    assert body[0..] == body;
    while pos < |body|
      invariant pos <= |body| + 1
      invariant states + StatePairs(Rest(body, pos), rule) == StatePairs(body, rule)
      decreases |body| + 1 - pos
    {
      var comma := FindChar(body, ',', pos);
      assert Rest(body, pos) == body[pos..];
      if comma.None? {
        LastPiece(body, pos, rule);
        var p := PiecePair(body[pos..], rule);
        Regroup(states, p, StatePairs("", rule), StatePairs(body, rule));
        states := states + p;
        pos := |body| + 1;
      } else {
        var c := comma.value;
        NextPiece(body, pos, c, rule);
        var p := PiecePair(body[pos..c], rule);
        assert Rest(body, c + 1) == body[c + 1..];
        Regroup(states, p, StatePairs(body[c + 1..], rule), StatePairs(body, rule));
        states := states + p;
        pos := c + 1;
      }
    }
    assert Rest(body, pos) == "";
  }

  // ---------------------------------------------------------------------------
  // The "waterlogged" filter

  /** The pairs whose key is not `k`, in order. */
  function WithoutKey(ss: seq<State>, k: string): (r: seq<State>)
    ensures |r| <= |ss|
  {
    if |ss| == 0 then []
    else (if ss[0].0 == k then [] else [ss[0]]) + WithoutKey(ss[1..], k)
  }

  /** The pairs kept are exactly those whose key is not `k`. */
  lemma {:induction false} WithoutKeyMembers(ss: seq<State>, k: string)
    ensures forall s :: s in WithoutKey(ss, k) <==> s in ss && s.0 != k
    decreases |ss|
  {
    if |ss| > 0 {
      WithoutKeyMembers(ss[1..], k);
      assert ss == [ss[0]] + ss[1..];
    }
  }

  lemma {:induction false} WithoutKeySnoc(ss: seq<State>, i: nat, k: string)
    requires i < |ss|
    ensures WithoutKey(ss[..i + 1], k) == WithoutKey(ss[..i], k) + (if ss[i].0 == k then [] else [ss[i]])
    decreases i
  {
    var last: seq<State> := if ss[i].0 == k then [] else [ss[i]];
    if i == 0 {
      assert ss[..1][1..] == [];
      assert WithoutKey(ss[..1], k) == last + WithoutKey([], k);
    } else {
      var head: seq<State> := if ss[0].0 == k then [] else [ss[0]];
      var t := ss[1..];
      assert ss[..i + 1][1..] == t[..i];
      assert ss[..i][1..] == t[..i - 1];
      assert t[i - 1] == ss[i];
      WithoutKeySnoc(t, i - 1, k);
      assert WithoutKey(ss[..i + 1], k) == head + WithoutKey(t[..i], k);
      assert WithoutKey(ss[..i], k) == head + WithoutKey(t[..i - 1], k);
      assert head + (WithoutKey(t[..i - 1], k) + last) == (head + WithoutKey(t[..i - 1], k)) + last;
    }
  }


  lemma {:induction false} PairsDropWaterlogged(ps: seq<string>)
    ensures PairsOf(ps, DropWaterlogged) == WithoutKey(PairsOf(ps, Verbatim), "waterlogged")
    decreases |ps|
  {
    if |ps| > 0 {
      PairsDropWaterlogged(ps[1..]);
      var head := PiecePair(ps[0], Verbatim);
      var tail := PairsOf(ps[1..], Verbatim);
      assert PairsOf(ps, Verbatim) == head + tail;
      if |head| == 1 {
        assert (head + tail)[0] == head[0] && (head + tail)[1..] == tail;
      } else {
        assert head + tail == tail;
      }
    }
  }

  /** The Schem parser reads what the mcfunction parser reads, less every
      "waterlogged" pair, in the same order. */
  lemma {:induction false} DropWaterloggedFilters(full: string)
    ensures var v := ParseBlock(full, Verbatim);
            ParseBlock(full, DropWaterlogged) == (v.0, WithoutKey(v.1, "waterlogged"))
  {
    match FindChar(full, '[', 0)
    case None =>
    case Some(b) =>
      match FindChar(full, ']', b + 1)
      case None =>
      case Some(e) => PairsDropWaterlogged(Pieces(full[b + 1..e]));
  }

  // ---------------------------------------------------------------------------
  // Writing block strings

  /** `k=v` as a command writes it, or `k="v"` as `buildBlockString` does. */
  function PieceText(s: State, quoted: bool): string {
    if quoted then s.0 + "=\"" + s.1 + "\"" else s.0 + "=" + s.1
  }

  function PieceTexts(ss: seq<State>, quoted: bool): (r: seq<string>)
    ensures |r| == |ss|
  {
    if |ss| == 0 then [] else [PieceText(ss[0], quoted)] + PieceTexts(ss[1..], quoted)
  }

  /** The name alone when there are no states, else `name[p1,p2,...]`. */
  function BlockText(name: string, ss: seq<State>, quoted: bool): string {
    if |ss| == 0 then name else name + "[" + Join(PieceTexts(ss, quoted)) + "]"
  }

  predicate Lacks(s: string, c: char) {
    forall k :: 0 <= k < |s| ==> s[k] != c
  }

  /** The rule that reads each writing back. */
  function ReaderOf(quoted: bool): PairRule {
    if quoted then TrimUnquoted else Verbatim
  }

  /** What a state must avoid to survive writing and reading back: no '=' in
      the key, no ',' or ']' in either part, and (quoted) no blank at either
      end of either part. */
  predicate Clean(s: State, quoted: bool) {
    && Lacks(s.0, '=') && Lacks(s.0, ',') && Lacks(s.0, ']')
    && Lacks(s.1, ',') && Lacks(s.1, ']')
    && (quoted ==> Trimmed(s.0) && Trimmed(s.1))
  }

  /** The first '=' of `k=w` is the one after a key without '='. */
  lemma {:induction false} SplitAtEquals(k: string, w: string)
    requires Lacks(k, '=')
    ensures var t := k + "=" + w;
            FindChar(t, '=', 0) == Some(|k|) && t[..|k|] == k && t[|k| + 1..] == w
  {
    var t := k + "=" + w;
    forall j | 0 <= j < |k| ensures t[j] != '=' {
      assert t[j] == k[j];
    }
    FindCharIs(t, '=', 0, |k|);
    assert t[..|k|] == k;
    assert t[|k| + 1..] == w;
  }

  lemma {:induction false} PiecePairOfText(s: State, quoted: bool)
    requires Clean(s, quoted)
    ensures PiecePair(PieceText(s, quoted), ReaderOf(quoted)) == [s]
  {
    var w := if quoted then "\"" + s.1 + "\"" else s.1;
    assert PieceText(s, quoted) == s.0 + "=" + w;
    SplitAtEquals(s.0, w);
    if quoted {
      assert Unquote(w) == s.1;
      TrimOfTrimmed(s.0);
      TrimOfTrimmed(s.1);
    }
  }

  lemma {:induction false} PairsOfTexts(ss: seq<State>, quoted: bool)
    requires forall j :: 0 <= j < |ss| ==> Clean(ss[j], quoted)
    ensures PairsOf(PieceTexts(ss, quoted), ReaderOf(quoted)) == ss
    decreases |ss|
  {
    if |ss| > 0 {
      PiecePairOfText(ss[0], quoted);
      PairsOfTexts(ss[1..], quoted);
      assert PieceTexts(ss, quoted)[1..] == PieceTexts(ss[1..], quoted);
    }
  }

  lemma {:induction false} PieceTextsLack(ss: seq<State>, quoted: bool, c: char)
    requires c == ',' || c == ']'
    requires forall j :: 0 <= j < |ss| ==> Clean(ss[j], quoted)
    ensures forall j :: 0 <= j < |ss| ==> Lacks(PieceTexts(ss, quoted)[j], c) && PieceTexts(ss, quoted)[j] != ""
    decreases |ss|
  {
    if |ss| > 0 {
      PieceTextsLack(ss[1..], quoted, c);
      var t := PieceText(ss[0], quoted);
      forall k | 0 <= k < |t| ensures t[k] != c {
        if k < |ss[0].0| {
          assert t[k] == ss[0].0[k];
        } else if quoted && |ss[0].0| + 1 < k < |t| - 1 {
          assert t[k] == ss[0].1[k - |ss[0].0| - 2];
        } else if !quoted && |ss[0].0| < k {
          assert t[k] == ss[0].1[k - |ss[0].0| - 1];
        }
      }
      assert |t| > 0;
    }
  }

  /** Joining texts that lack a character other than ',' lacks it too. */
  lemma {:induction false} JoinLacks(ps: seq<string>, c: char)
    requires c != ','
    requires forall j :: 0 <= j < |ps| ==> Lacks(ps[j], c)
    ensures Lacks(Join(ps), c)
    decreases |ps|
  {
    if |ps| > 1 {
      JoinLacks(ps[1..], c);
      var s := Join(ps);
      var rest := Join(ps[1..]);
      assert s == ps[0] + "," + rest;
      forall k | 0 <= k < |s| ensures s[k] != c {
        if k < |ps[0]| {
          assert s[k] == ps[0][k];
        } else if k > |ps[0]| {
          assert s[k] == rest[k - |ps[0]| - 1];
        }
      }
    }
  }

  /** Reading back a written block string gives its name and states, for a
      name without '[' and clean states. */
  lemma {:induction false} ParseOfBlockText(name: string, ss: seq<State>, quoted: bool)
    requires Lacks(name, '[')
    requires forall j :: 0 <= j < |ss| ==> Clean(ss[j], quoted)
    ensures ParseBlock(BlockText(name, ss, quoted), ReaderOf(quoted)) == (name, ss)
  {
    var text := BlockText(name, ss, quoted);
    if |ss| == 0 {
      assert FindChar(name, '[', 0).None?;
    } else {
      var ps := PieceTexts(ss, quoted);
      var body := Join(ps);
      assert text == name + "[" + body + "]";
      PieceTextsLack(ss, quoted, ',');
      PieceTextsLack(ss, quoted, ']');
      JoinLacks(ps, ']');
      forall k | 0 <= k < |name| ensures text[k] != '[' {
        assert text[k] == name[k];
      }
      FindCharIs(text, '[', 0, |name|);
      forall k | |name| + 1 <= k < |text| - 1 ensures text[k] != ']' {
        assert text[k] == body[k - |name| - 1];
      }
      FindCharIs(text, ']', |name| + 1, |text| - 1);
      assert text[..|name|] == name;
      assert text[|name| + 1..|text| - 1] == body;
      PiecesOfJoin(ps);
      PairsOfTexts(ss, quoted);
    }
  }
}

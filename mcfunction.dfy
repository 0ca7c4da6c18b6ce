/** McfunctionToBCF.hpp: the `.mcfunction` importer. Each line of the file is
    a command; `setblock x y z block` adds one block and `fill x1 y1 z1 x2
    y2 z2 block` adds every cell of a box, both with the block string parsed
    as written. Every other command, every empty line and every comment is
    skipped, and a line that fails to parse is reported and skipped. */
module Mcfunction {
  import opened Wrappers
  import opened Text
  import opened BlockStrings
  import Calls

  type Call = Calls.Call<string>

  // ---------------------------------------------------------------------------
  // Words: what `iss >> s` reads, one string at a time.

  predicate NoSpace(w: string) {
    forall k :: 0 <= k < |w| ==> !Space(w[k])
  }

  /** The end of the run of non-space characters from `i`. */
  function WordEnd(s: string, i: nat): (j: nat)
    requires i <= |s|
    ensures i <= j <= |s|
    ensures forall k :: i <= k < j ==> !Space(s[k])
    ensures j < |s| ==> Space(s[j])
    decreases |s| - i
  {
    if i < |s| && !Space(s[i]) then WordEnd(s, i + 1) else i
  }

  /** The strings repeated `>>` extracts from a line: leading spaces
      skipped, then a maximal run of non-space characters, until only
      spaces are left. */
  function Words(s: string): seq<string>
    decreases |s|
  {
    if |s| == 0 then []
    else if Space(s[0]) then Words(s[1..])
    else
      var j := WordEnd(s, 0);
      [s[..j]] + Words(s[j..])
  }

  /** Every word read is nonempty and holds no space. */
  lemma {:induction false} WordsAreWords(s: string)
    ensures forall k :: 0 <= k < |Words(s)| ==> |Words(s)[k]| > 0 && NoSpace(Words(s)[k])
    decreases |s|
  {
    if |s| > 0 {
      if Space(s[0]) {
        WordsAreWords(s[1..]);
      } else {
        var j := WordEnd(s, 0);
        WordsAreWords(s[j..]);
        assert forall k :: 1 <= k < |Words(s)| ==> Words(s)[k] == Words(s[j..])[k - 1];
      }
    }
  }

  /** Words written out with one blank between each two. */
  function Unwords(ws: seq<string>): string {
    if |ws| == 0 then "" else if |ws| == 1 then ws[0] else ws[0] + " " + Unwords(ws[1..])
  }

  /** A word ends where the first space after it begins. */
  lemma WordEndOf(w: string, t: string)
    requires NoSpace(w) && (|t| == 0 || Space(t[0]))
    ensures WordEnd(w + t, 0) == |w|
  {
    var s := w + t;
    var j := WordEnd(s, 0);
    assert forall k :: 0 <= k < |w| ==> s[k] == w[k];
    if |t| > 0 {
      assert s[|w|] == t[0];
    }
  }

  /** Reading words back from text written word by word gives the words. */
  lemma {:induction false} WordsOfUnwords(ws: seq<string>)
    requires forall k :: 0 <= k < |ws| ==> |ws[k]| > 0 && NoSpace(ws[k])
    ensures Words(Unwords(ws)) == ws
    decreases |ws|
  {
    if |ws| == 1 {
      var w := ws[0];
      WordEndOf(w, "");
      assert w + "" == w && w[..|w|] == w && w[|w|..] == [];
    } else if |ws| > 1 {
      var w := ws[0];
      var t := " " + Unwords(ws[1..]);
      var s := w + t;
      assert Unwords(ws) == s;
      WordEndOf(w, t);
      assert s[..|w|] == w && s[|w|..] == t;
      assert Words(s) == [w] + Words(t);
      assert t[1..] == Unwords(ws[1..]);
      WordsOfUnwords(ws[1..]);
      assert [w] + ws[1..] == ws;
    }
  }

  // ---------------------------------------------------------------------------
  // parseCoord

  /** The text with every '~' and '^' removed. */
  function Strip(s: string): string {
    if |s| == 0 then ""
    else (if s[0] == '~' || s[0] == '^' then "" else [s[0]]) + Strip(s[1..])
  }

  /** `parseCoord`: the marks removed; nothing left reads as 0, anything
      else goes to `std::stoi`. */
  function ParseCoord(s: string): Result<int> {
    var cleaned := Strip(s);
    if |cleaned| == 0 then Ok(0) else Stoi(cleaned)
  }

  lemma {:induction false} StripAppend(a: string, b: string)
    ensures Strip(a + b) == Strip(a) + Strip(b)
    decreases |a|
  {
    if |a| > 0 {
      assert (a + b)[1..] == a[1..] + b;
      StripAppend(a[1..], b);
    } else {
      assert a + b == b;
    }
  }

  lemma {:induction false} StripKeeps(s: string)
    requires forall k :: 0 <= k < |s| ==> s[k] != '~' && s[k] != '^'
    ensures Strip(s) == s
    decreases |s|
  {
    if |s| > 0 {
      StripKeeps(s[1..]);
      assert [s[0]] + s[1..] == s;
    }
  }

  lemma {:induction false} StripMarks(p: string)
    requires forall k :: 0 <= k < |p| ==> p[k] == '~' || p[k] == '^'
    ensures Strip(p) == ""
    decreases |p|
  {
    if |p| > 0 {
      StripMarks(p[1..]);
    }
  }

  /** Marks alone (`~`, `^`, `~~`) read as 0, and marks before a number
      written by `std::to_string` read as that number: a relative or local
      coordinate becomes an absolute one. */
  lemma CoordOfText(p: string, n: int)
    requires forall k :: 0 <= k < |p| ==> p[k] == '~' || p[k] == '^'
    requires -0x8000_0000 <= n < 0x8000_0000
    ensures ParseCoord(p) == Ok(0)
    ensures ParseCoord(p + IntText(n)) == Ok(n)
  {
    StripMarks(p);
    var t := IntText(n);
    IntTextChars(n);
    StripKeeps(t);
    StripAppend(p, t);
    assert Strip(p + t) == t;
    StoiOfIntText(n);
  }

  lemma IntTextChars(n: int)
    ensures |IntText(n)| > 0
    ensures forall k :: 0 <= k < |IntText(n)| ==> IntText(n)[k] != '~' && IntText(n)[k] != '^'
  {
    var a: nat := if n < 0 then -n else n;
    var d := NatText(a);
    assert forall k :: 0 <= k < |d| ==> Digit(d[k]);
    if n < 0 {
      assert IntText(n) == "-" + d;
      assert forall k :: 1 <= k < |IntText(n)| ==> IntText(n)[k] == d[k - 1];
    }
  }

  /** The operands parsed in turn; the first that fails stops the line. */
  function Coords(ops: seq<string>): (r: Result<seq<int>>)
    ensures r.Ok? ==> |r.value| == |ops|
  {
    if |ops| == 0 then Ok([])
    else match ParseCoord(ops[0])
      case Err(m) => Err(m)
      case Ok(v) => Prefixed([v], Coords(ops[1..]))
  }

  /** A result with `vs` put in front of its values. */
  function Prefixed(vs: seq<int>, r: Result<seq<int>>): Result<seq<int>> {
    match r
    case Err(m) => Err(m)
    case Ok(rest) => Ok(vs + rest)
  }

  /** Every operand read is its own coordinate, and a failure is the failure
      of the first operand that does not parse. */
  lemma {:induction false} CoordsMeaning(ops: seq<string>)
    ensures Coords(ops).Ok? ==> forall k :: 0 <= k < |ops| ==> ParseCoord(ops[k]) == Ok(Coords(ops).value[k])
    ensures Coords(ops).Err? ==> exists k :: (0 <= k < |ops| && ParseCoord(ops[k]) == Err(Coords(ops).msg) &&
              forall j :: 0 <= j < k ==> ParseCoord(ops[j]).Ok?)
  {
    if |ops| > 0 && ParseCoord(ops[0]).Ok? {
      var rest := ops[1..];
      CoordsMeaning(rest);
      assert forall k :: 1 <= k < |ops| ==> ops[k] == rest[k - 1];
      if Coords(rest).Err? {
        var k :| 0 <= k < |rest| && ParseCoord(rest[k]) == Err(Coords(rest).msg) &&
                 forall j :: 0 <= j < k ==> ParseCoord(rest[j]).Ok?;
        assert ParseCoord(ops[k + 1]) == Err(Coords(ops).msg);
      }
    }
  }

  lemma CoordsCons(a: string, rest: seq<string>, v: int, vs: seq<int>)
    requires ParseCoord(a) == Ok(v) && Coords(rest) == Ok(vs)
    ensures Coords([a] + rest) == Ok([v] + vs)
  {
    assert ([a] + rest)[1..] == rest;
  }

  lemma CoordsStep(ops: seq<string>, i: nat)
    requires i < |ops|
    ensures Coords(ops[i..]) == match ParseCoord(ops[i])
                                case Err(m) => Err(m)
                                case Ok(v) => Prefixed([v], Coords(ops[i + 1..]))
  {
    assert ops[i..][1..] == ops[i + 1..];
  }

  lemma PrefixedTwice(a: seq<int>, b: seq<int>, r: Result<seq<int>>)
    ensures Prefixed(a, Prefixed(b, r)) == Prefixed(a + b, r)
  {
    if r.Ok? {
      assert a + (b + r.value) == (a + b) + r.value;
    }
  }

  // ---------------------------------------------------------------------------
  // setblock

  /** `parseSetblock` on the operands after the command: fewer than four
      is `runtime_error`; then the three coordinates in turn, and one block
      at that position. Operands past the fourth are ignored. */
  function SetblockCalls(ops: seq<string>): Result<seq<Call>> {
    if |ops| < 4 then Err("runtime_error")
    else match Coords(ops[..3])
      case Err(m) => Err(m)
      case Ok(v) =>
        var b := ParseBlock(ops[3], Verbatim);
        Ok([Calls.AddBlock(v[0], v[1], v[2], b.0, b.1)])
  }

  /** The coordinates of `parseSetblock` and `parseFill`, read in turn. */
  method ReadCoords(ops: seq<string>) returns (r: Result<seq<int>>)
    ensures r == Coords(ops)
  {
    var vs: seq<int> := [];
    var i := 0;
    assert ops[0..] == ops;
    PrefixedTwice([], [], Coords(ops));
    assert Prefixed([], Coords(ops)) == Coords(ops) by {
      if Coords(ops).Ok? {
        assert [] + Coords(ops).value == Coords(ops).value;
      }
    }
    while i < |ops|
      invariant 0 <= i <= |ops|
      invariant Coords(ops) == Prefixed(vs, Coords(ops[i..]))
    {
      CoordsStep(ops, i);
      var v := ParseCoord(ops[i]);
      if v.Err? {
        return Err(v.msg);
      }
      PrefixedTwice(vs, [v.value], Coords(ops[i + 1..]));
      vs := vs + [v.value];
      i := i + 1;
    }
    assert ops[|ops|..] == [];
    assert vs + [] == vs;
    return Ok(vs);
  }

  method ParseSetblock(ops: seq<string>) returns (r: Result<seq<Call>>)
    ensures r == SetblockCalls(ops)
  {
    if |ops| < 4 {
      return Err("runtime_error");
    }
    var xyz := ReadCoords(ops[..3]);
    if xyz.Err? {
      return Err(xyz.msg);
    }
    var block := ParseBlockString(ops[3], Verbatim);
    return Ok([Calls.AddBlock(xyz.value[0], xyz.value[1], xyz.value[2], block.0, block.1)]);
  }

  /** A written `setblock` line adds its block at its position. */
  lemma SetblockOfText(x: int, y: int, z: int, block: string)
    requires -0x8000_0000 <= x < 0x8000_0000 && -0x8000_0000 <= y < 0x8000_0000
    requires -0x8000_0000 <= z < 0x8000_0000
    requires |block| > 0 && NoSpace(block)
    ensures var b := ParseBlock(block, Verbatim);
            LineCalls(Unwords(["setblock", IntText(x), IntText(y), IntText(z), block]))
              == Ok([Calls.AddBlock(x, y, z, b.0, b.1)])
  {
    var ws := ["setblock", IntText(x), IntText(y), IntText(z), block];
    IntTextChars(x);
    IntTextChars(y);
    IntTextChars(z);
    TextNoSpace(x);
    TextNoSpace(y);
    TextNoSpace(z);
    assert NoSpace("setblock");
    WordsOfUnwords(ws);
    CoordsOfTexts(x, y, z);
    assert ws[1..][..3] == [IntText(x), IntText(y), IntText(z)];
  }

  /** Three coordinates written by `std::to_string` read back as themselves. */
  lemma CoordsOfTexts(x: int, y: int, z: int)
    requires -0x8000_0000 <= x < 0x8000_0000 && -0x8000_0000 <= y < 0x8000_0000
    requires -0x8000_0000 <= z < 0x8000_0000
    ensures Coords([IntText(x), IntText(y), IntText(z)]) == Ok([x, y, z])
  {
    ParseIntText(x);
    ParseIntText(y);
    ParseIntText(z);
    var tz, tyz, txyz := [IntText(z)], [IntText(y), IntText(z)], [IntText(x), IntText(y), IntText(z)];
    assert tz == [IntText(z)] + [] && tyz == [IntText(y)] + tz && txyz == [IntText(x)] + tyz;
    CoordsCons(IntText(z), [], z, []);
    assert [z] + [] == [z];
    CoordsCons(IntText(y), tz, y, [z]);
    assert [y] + [z] == [y, z];
    CoordsCons(IntText(x), tyz, x, [y, z]);
    assert [x] + [y, z] == [x, y, z];
  }

  lemma ParseIntText(n: int)
    requires -0x8000_0000 <= n < 0x8000_0000
    ensures ParseCoord(IntText(n)) == Ok(n)
  {
    CoordOfText("", n);
    assert "" + IntText(n) == IntText(n);
  }

  lemma TextNoSpace(n: int)
    ensures NoSpace(IntText(n))
  {
    var a: nat := if n < 0 then -n else n;
    var d := NatText(a);
    assert forall k :: 0 <= k < |d| ==> Digit(d[k]);
    if n < 0 {
      assert forall k :: 1 <= k < |IntText(n)| ==> IntText(n)[k] == d[k - 1];
    }
  }

  // ---------------------------------------------------------------------------
  // fill

  /** `if (a > b) std::swap(a, b)`: the pair in ascending order. */
  function Order(a: int, b: int): (r: (int, int))
    ensures r.0 <= r.1 && (r == (a, b) || r == (b, a))
  {
    if a > b then (b, a) else (a, b)
  }

  /** The calls for cells `x1 .. x - 1` of row (y, z), `x` ascending. */
  function RowCalls(x1: int, x: int, y: int, z: int, b: Block): seq<Call>
    decreases x - x1
  {
    if x <= x1 then [] else RowCalls(x1, x - 1, y, z, b) + [Calls.AddBlock(x - 1, y, z, b.0, b.1)]
  }

  /** The calls for rows `z1 .. z - 1` of layer `y`, `z` ascending. */
  function LayerCalls(x1: int, x2: int, z1: int, z: int, y: int, b: Block): seq<Call>
    decreases z - z1
  {
    if z <= z1 then [] else LayerCalls(x1, x2, z1, z - 1, y, b) + RowCalls(x1, x2 + 1, y, z - 1, b)
  }

  /** The calls for layers `y1 .. y - 1`, `y` ascending. */
  function BoxCalls(x1: int, x2: int, z1: int, z2: int, y1: int, y: int, b: Block): seq<Call>
    decreases y - y1
  {
    if y <= y1 then [] else BoxCalls(x1, x2, z1, z2, y1, y - 1, b) + LayerCalls(x1, x2, z1, z2 + 1, y - 1, b)
  }

  /** `parseFill` on the operands after the command: fewer than seven is
      `runtime_error`; then the six coordinates in turn, each pair put in
      ascending order, and one block per cell of the inclusive box. */
  function FillCalls(ops: seq<string>): Result<seq<Call>> {
    if |ops| < 7 then Err("runtime_error")
    else match Coords(ops[..6])
      case Err(m) => Err(m)
      case Ok(v) =>
        var xs, ys, zs := Order(v[0], v[3]), Order(v[1], v[4]), Order(v[2], v[5]);
        Ok(BoxCalls(xs.0, xs.1, zs.0, zs.1, ys.0, ys.1 + 1, ParseBlock(ops[6], Verbatim)))
  }

  /** The three loops of `parseFill`: `y` outermost, then `z`, then `x`,
      each from its low bound to its high bound inclusive. */
  method EmitFill(x1: int, y1: int, z1: int, x2: int, y2: int, z2: int, b: Block) returns (r: seq<Call>)
    requires x1 <= x2 && y1 <= y2 && z1 <= z2
    ensures r == BoxCalls(x1, x2, z1, z2, y1, y2 + 1, b)
  {
    r := [];
    var y := y1;
    while y <= y2
      invariant y1 <= y <= y2 + 1
      invariant r == BoxCalls(x1, x2, z1, z2, y1, y, b)
    {
      ghost var layerStart := r;
      var z := z1;
      while z <= z2
        invariant z1 <= z <= z2 + 1
        invariant r == layerStart + LayerCalls(x1, x2, z1, z, y, b)
      {
        ghost var rowStart := r;
        var x := x1;
        while x <= x2
          invariant x1 <= x <= x2 + 1
          invariant r == rowStart + RowCalls(x1, x, y, z, b)
        {
          r := r + [Calls.AddBlock(x, y, z, b.0, b.1)];
          x := x + 1;
        }
        z := z + 1;
      }
      y := y + 1;
    }
  }

  method ParseFill(ops: seq<string>) returns (r: Result<seq<Call>>)
    ensures r == FillCalls(ops)
  {
    if |ops| < 7 {
      return Err("runtime_error");
    }
    var v := ReadCoords(ops[..6]);
    if v.Err? {
      return Err(v.msg);
    }
    var x1, y1, z1 := v.value[0], v.value[1], v.value[2];
    var x2, y2, z2 := v.value[3], v.value[4], v.value[5];
    var block := ParseBlockString(ops[6], Verbatim);
    if x1 > x2 { x1, x2 := x2, x1; }
    if y1 > y2 { y1, y2 := y2, y1; }
    if z1 > z2 { z1, z2 := z2, z1; }
    var calls := EmitFill(x1, y1, z1, x2, y2, z2, block);
    return Ok(calls);
  }

  /** What a fill call is: a block `b` at a cell of the box. */
  predicate FillsAt(c: Call, x1: int, x2: int, y1: int, y2: int, z1: int, z2: int, b: Block) {
    && c.AddBlock? && c.blockType == b.0 && c.states == b.1
    && x1 <= c.x <= x2 && y1 <= c.y <= y2 && z1 <= c.z <= z2
  }

  lemma {:induction false} RowHolds(x1: int, x: int, y: int, z: int, b: Block, c: Call)
    ensures c in RowCalls(x1, x, y, z, b) <==> FillsAt(c, x1, x - 1, y, y, z, z, b)
    ensures |RowCalls(x1, x, y, z, b)| == if x <= x1 then 0 else x - x1
    decreases x - x1
  {
    if x > x1 {
      RowHolds(x1, x - 1, y, z, b, c);
    }
  }

  lemma {:induction false} LayerHolds(x1: int, x2: int, z1: int, z: int, y: int, b: Block, c: Call)
    requires x1 <= x2
    ensures c in LayerCalls(x1, x2, z1, z, y, b) <==> FillsAt(c, x1, x2, y, y, z1, z - 1, b)
    ensures |LayerCalls(x1, x2, z1, z, y, b)| == if z <= z1 then 0 else (x2 - x1 + 1) * (z - z1)
    decreases z - z1
  {
    if z > z1 {
      LayerHolds(x1, x2, z1, z - 1, y, b, c);
      RowHolds(x1, x2 + 1, y, z - 1, b, c);
      if z - 1 > z1 {
        assert (x2 - x1 + 1) * (z - z1) == (x2 - x1 + 1) * (z - 1 - z1) + (x2 - x1 + 1);
      }
    }
  }

  lemma {:induction false} BoxHolds(x1: int, x2: int, z1: int, z2: int, y1: int, y: int, b: Block, c: Call)
    requires x1 <= x2 && z1 <= z2
    ensures c in BoxCalls(x1, x2, z1, z2, y1, y, b) <==> FillsAt(c, x1, x2, y1, y - 1, z1, z2, b)
    ensures |BoxCalls(x1, x2, z1, z2, y1, y, b)| == if y <= y1 then 0 else (x2 - x1 + 1) * (z2 - z1 + 1) * (y - y1)
    decreases y - y1
  {
    if y > y1 {
      BoxHolds(x1, x2, z1, z2, y1, y - 1, b, c);
      LayerHolds(x1, x2, z1, z2 + 1, y - 1, b, c);
      var a := (x2 - x1 + 1) * (z2 - z1 + 1);
      if y - 1 > y1 {
        assert a * (y - y1) == a * (y - 1 - y1) + a;
      }
    }
  }

  /** A fill adds exactly the cells of the box its two corners span, each
      with the parsed block, one call per cell. */
  lemma FillSpec(ops: seq<string>, v: seq<int>, c: Call)
    requires |ops| >= 7 && Coords(ops[..6]) == Ok(v)
    ensures FillCalls(ops).Ok?
    ensures var xs, ys, zs := Order(v[0], v[3]), Order(v[1], v[4]), Order(v[2], v[5]);
            && (c in FillCalls(ops).value <==> FillsAt(c, xs.0, xs.1, ys.0, ys.1, zs.0, zs.1, ParseBlock(ops[6], Verbatim)))
            && |FillCalls(ops).value| == (xs.1 - xs.0 + 1) * (zs.1 - zs.0 + 1) * (ys.1 - ys.0 + 1)
  {
    var xs, ys, zs := Order(v[0], v[3]), Order(v[1], v[4]), Order(v[2], v[5]);
    BoxHolds(xs.0, xs.1, zs.0, zs.1, ys.0, ys.1 + 1, ParseBlock(ops[6], Verbatim), c);
  }

  // ---------------------------------------------------------------------------
  // parseLine and the line loop of convert.

  /** `parseLine`: the first word picks the command; `setblock` and `fill`
      are parsed, every other command (and a blank line) adds nothing. */
  function LineCalls(line: string): Result<seq<Call>> {
    var ws := Words(line);
    if |ws| == 0 then Ok([])
    else if ws[0] == "setblock" then SetblockCalls(ws[1..])
    else if ws[0] == "fill" then FillCalls(ws[1..])
    else Ok([])
  }

  method ParseLine(line: string) returns (r: Result<seq<Call>>)
    ensures r == LineCalls(line)
  {
    var ws := Words(line);
    var command := if |ws| > 0 then ws[0] else "";
    if command == "setblock" {
      r := ParseSetblock(ws[1..]);
    } else if command == "fill" {
      r := ParseFill(ws[1..]);
    } else {
      r := Ok([]);
    }
  }

  /** An empty line or a comment line, which `convert` skips. */
  predicate Skipped(line: string) {
    |line| == 0 || line[0] == '#'
  }

  /** What one line gives the loop: nothing for a skipped line, otherwise
      its calls or its failure. */
  function Outcome(line: string): Result<seq<Call>> {
    if Skipped(line) then Ok([]) else LineCalls(line)
  }

  /** A reported failure: the line's number, counted from 1, and the
      exception's message. */
  type Report = (nat, string)

  /** The outcomes of the first `n` lines collected in order: the calls of
      those that parse, and a report for each that fails. */
  function Collect(outs: seq<Result<seq<Call>>>, n: nat): (seq<Call>, seq<Report>)
    requires n <= |outs|
  {
    if n == 0 then ([], [])
    else
      var prev := Collect(outs, n - 1);
      match outs[n - 1]
      case Ok(cs) => (prev.0 + cs, prev.1)
      case Err(m) => (prev.0, prev.1 + [(n, m)])
  }

  /** The outcome of every line of a file. */
  function Outcomes(lines: seq<string>): (outs: seq<Result<seq<Call>>>)
    ensures |outs| == |lines|
  {
    seq(|lines|, i requires 0 <= i < |lines| => Outcome(lines[i]))
  }

  lemma OutcomeAt(lines: seq<string>, i: nat)
    requires i < |lines|
    ensures Outcomes(lines)[i] == Outcome(lines[i])
  {
  }

  /** `convert`: a file that cannot be opened throws before the writer
      exists; otherwise every line in turn, each failure reported and
      skipped, then `finalize`. */
  method Convert(file: Option<seq<string>>) returns (r: Result<(seq<Call>, seq<Report>)>)
    ensures file.None? ==> r == Err("runtime_error")
    ensures file.Some? ==> var done := Collect(Outcomes(file.value), |file.value|);
                           r == Ok((done.0 + [Calls.Finalize], done.1))
  {
    if file.None? {
      return Err("runtime_error");
    }
    var lines := file.value;
    ghost var outs := Outcomes(lines);
    var calls: seq<Call> := [];
    var reports: seq<Report> := [];
    var lineNum := 0;
    while lineNum < |lines|
      invariant 0 <= lineNum <= |lines|
      invariant (calls, reports) == Collect(outs, lineNum)
    {
      var line := lines[lineNum];
      OutcomeAt(lines, lineNum);
      lineNum := lineNum + 1;
      if |line| == 0 || line[0] == '#' {
        assert calls + [] == calls;
        continue;
      }
      var result := ParseLine(line);
      match result {
        case Ok(cs) => calls := calls + cs;
        case Err(m) => reports := reports + [(lineNum, m)];
      }
    }
    return Ok((calls + [Calls.Finalize], reports));
  }

  /** Failures are reported under their own line number and message, and
      only failures are. */
  lemma {:induction false} ReportsExact(outs: seq<Result<seq<Call>>>, n: nat, k: nat, m: string)
    requires n <= |outs|
    ensures (k, m) in Collect(outs, n).1 <==> 1 <= k <= n && outs[k - 1] == Err(m)
  {
    if n > 0 {
      ReportsExact(outs, n - 1, k, m);
    }
  }

  /** A line is reported exactly when it is neither empty nor a comment and
      fails to parse. */
  lemma LineReported(lines: seq<string>, k: nat, m: string)
    ensures (k, m) in Collect(Outcomes(lines), |lines|).1 <==>
              1 <= k <= |lines| && Outcome(lines[k - 1]) == Err(m)
  {
    ReportsExact(Outcomes(lines), |lines|, k, m);
    if 1 <= k <= |lines| {
      OutcomeAt(lines, k - 1);
    }
  }

  /** A line that fails adds no call: the calls are those of the file with
      that line commented out. */
  lemma {:induction false} FailedAddsNothing(outs: seq<Result<seq<Call>>>, i: nat, n: nat)
    requires i < |outs| && n <= |outs| && outs[i].Err?
    ensures Collect(outs[i := Ok([])], n).0 == Collect(outs, n).0
  {
    if n > 0 {
      FailedAddsNothing(outs, i, n - 1);
      if n - 1 == i {
        assert Collect(outs[i := Ok([])], n).0 == Collect(outs[i := Ok([])], n - 1).0 + [];
      }
    }
  }

  lemma FailedLineAddsNothing(lines: seq<string>, i: nat)
    requires i < |lines| && Outcome(lines[i]).Err?
    ensures Collect(Outcomes(lines[i := "#"]), |lines|).0 == Collect(Outcomes(lines), |lines|).0
  {
    assert Outcomes(lines[i := "#"]) == Outcomes(lines)[i := Ok([])];
    FailedAddsNothing(Outcomes(lines), i, |lines|);
  }
}

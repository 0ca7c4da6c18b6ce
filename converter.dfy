/** BlockStateConverter.hpp and BlockStateConverter.cpp: a table from Java
    block strings to Bedrock block strings, loaded from a text file of
    `in :` / `uni:` / `out:` line triples, and the lookup that rewrites a
    block through it. */
module Converter {
  import opened Wrappers
  import opened Text
  import opened BlockStrings

  // ---------------------------------------------------------------------------
  // buildBlockString and convert

  lemma {:induction false} JoinSnoc(ps: seq<string>, p: string)
    ensures Join(ps + [p]) == if |ps| == 0 then p else Join(ps) + "," + p
    decreases |ps|
  {
    if |ps| == 1 {
      assert ps + [p] == [ps[0], p];
      assert Join([ps[0], p]) == ps[0] + "," + Join([p]);
    } else if |ps| > 1 {
      assert (ps + [p])[1..] == ps[1..] + [p];
      JoinSnoc(ps[1..], p);
    } else {
      assert ps + [p] == [p];
    }
  }

  lemma {:induction false} PieceTextsSnoc(ss: seq<State>, i: nat, quoted: bool)
    requires i < |ss|
    ensures PieceTexts(ss[..i + 1], quoted) == PieceTexts(ss[..i], quoted) + [PieceText(ss[i], quoted)]
    decreases i
  {
    if i > 0 {
      PieceTextsSnoc(ss[1..], i - 1, quoted);
      assert ss[1..][..i] == ss[..i + 1][1..];
      assert ss[1..][..i - 1] == ss[..i][1..];
    }
  }

  /** One more piece appended to a partly built block string. */
  lemma BuildStep(head: string, ps: seq<string>, p: string)
    ensures |ps| == 0 ==> head + p == head + Join(ps + [p])
    ensures |ps| > 0 ==> head + Join(ps) + "," + p == head + Join(ps + [p])
  {
    JoinSnoc(ps, p);
    if |ps| > 0 {
      Append3(head, Join(ps), ",", p);
    } else {
      assert Join(ps + [p]) == p;
    }
  }

  lemma Append3(a: string, b: string, c: string, d: string)
    ensures a + b + c + d == a + (b + c + d)
  {
  }

  /** `buildBlockString`: the name alone without states, else
      `name[k1="v1",k2="v2",...]`. */
  method BuildBlockString(name: string, states: seq<State>) returns (r: string)
    ensures r == BlockText(name, states, true)
  {
    if |states| == 0 {
      return name;
    }
    r := name + "[";
    var i := 0;
    while i < |states|
      invariant 0 <= i <= |states|
      invariant r == name + "[" + Join(PieceTexts(states[..i], true))
    {
      var piece := states[i].0 + "=\"" + states[i].1 + "\"";
      assert piece == PieceText(states[i], true);
      PieceTextsSnoc(states, i, true);
      BuildStep(name + "[", PieceTexts(states[..i], true), piece);
      if i > 0 {
        r := r + ",";
      }
      r := r + piece;
      i := i + 1;
    }
    r := r + "]";
    assert states[..|states|] == states;
  }

  /** `convert`: the block rebuilt as text and looked up; a hit is parsed
      back into a block, a miss returns the block unchanged. */
  function Convert(table: map<string, string>, name: string, states: seq<State>): Block {
    var key := BlockText(name, states, true);
    if key in table then ParseBlock(table[key], TrimUnquoted) else (name, states)
  }

  /** A block the table maps to a written block becomes that block; a block
      the table does not know comes back unchanged. */
  lemma {:induction false} ConvertSpec(table: map<string, string>, name: string, states: seq<State>,
                                       name2: string, states2: seq<State>)
    requires Lacks(name2, '[') && forall j :: 0 <= j < |states2| ==> Clean(states2[j], true)
    ensures var key := BlockText(name, states, true);
            && (key in table && table[key] == BlockText(name2, states2, true) ==> Convert(table, name, states) == (name2, states2))
            && (key !in table ==> Convert(table, name, states) == (name, states))
  {
    ParseOfBlockText(name2, states2, true);
  }

  // ---------------------------------------------------------------------------
  // Loading the table

  /** The entries a table file's lines define, in order: an `in :` line, one
      line skipped, then, if the next line is an `out:` line, the trimmed
      texts after the five-character prefixes. An `in :` or `out:` line of
      exactly four characters is `out_of_range` (`substr(5)` throws). A
      triple cut short by the end of the file adds nothing. */
  function TableEntries(lines: seq<string>): Result<seq<State>>
    decreases |lines|
  {
    if |lines| == 0 then Ok([])
    else if !StartsWith(lines[0], "in :") then TableEntries(lines[1..])
    else if |lines[0]| < 5 then Err("out_of_range")
    else if |lines| < 3 then Ok([])
    else if !StartsWith(lines[2], "out:") then TableEntries(lines[3..])
    else if |lines[2]| < 5 then Err("out_of_range")
    else match TableEntries(lines[3..])
         case Err(m) => Err(m)
         case Ok(es) => Ok([(Trim(lines[0][5..]), Trim(lines[2][5..]))] + es)
  }

  /** The entries the loop stores before it stops: all of them, or those
      before the line whose `substr(5)` throws. */
  function Stored(lines: seq<string>): seq<State>
    decreases |lines|
  {
    if |lines| == 0 then []
    else if !StartsWith(lines[0], "in :") then Stored(lines[1..])
    else if |lines[0]| < 5 || |lines| < 3 then []
    else if !StartsWith(lines[2], "out:") then Stored(lines[3..])
    else if |lines[2]| < 5 then []
    else [(Trim(lines[0][5..]), Trim(lines[2][5..]))] + Stored(lines[3..])
  }

  /** Without a throw the stored entries are all the entries of the table. */
  lemma {:induction false} StoredAll(lines: seq<string>)
    requires TableEntries(lines).Ok?
    ensures Stored(lines) == TableEntries(lines).value
    decreases |lines|
  {
    if |lines| == 0 {
    } else if !StartsWith(lines[0], "in :") {
      StoredAll(lines[1..]);
    } else if |lines| >= 3 {
      StoredAll(lines[3..]);
    }
  }

  /** Each entry in turn stored into the table, a later one overwriting. */
  function Apply(table: map<string, string>, es: seq<State>): map<string, string>
    decreases |es|
  {
    if |es| == 0 then table else Apply(table[es[0].0 := es[0].1], es[1..])
  }

  /** The last entry with key `k`. */
  function LastWith(es: seq<State>, k: string): (r: Option<nat>)
    ensures r.Some? ==> r.value < |es| && es[r.value].0 == k && forall i :: r.value < i < |es| ==> es[i].0 != k
    ensures r.None? ==> forall i :: 0 <= i < |es| ==> es[i].0 != k
    decreases |es|
  {
    if |es| == 0 then None
    else match LastWith(es[1..], k)
         case Some(j) => Some(j + 1)
         case None => if es[0].0 == k then Some(0) else None
  }

  /** After loading, a key holds the value of its last entry; a key with no
      entry keeps what the table held before. */
  lemma {:induction false} ApplyLookup(table: map<string, string>, es: seq<State>, k: string)
    ensures var t := Apply(table, es);
            match LastWith(es, k)
            case Some(j) => k in t && t[k] == es[j].1
            case None => (k in t <==> k in table) && (k in table ==> t[k] == table[k])
    decreases |es|
  {
    if |es| > 0 {
      ApplyLookup(table[es[0].0 := es[0].1], es[1..], k);
    }
  }

  /** A table file written entry by entry: `in : k`, any line, `out: v`. */
  function TableText(es: seq<State>, unis: seq<string>): (lines: seq<string>)
    requires |unis| == |es|
    ensures |lines| == 3 * |es|
  {
    if |es| == 0 then []
    else ["in : " + es[0].0, unis[0], "out: " + es[0].1] + TableText(es[1..], unis[1..])
  }

  /** Loading a written table reads back its entries, whatever the middle
      lines hold, when no key or value has a blank at either end. */
  lemma {:induction false} TableEntriesOfText(es: seq<State>, unis: seq<string>)
    requires |unis| == |es|
    requires forall j :: 0 <= j < |es| ==> Trimmed(es[j].0) && Trimmed(es[j].1)
    ensures TableEntries(TableText(es, unis)) == Ok(es)
    decreases |es|
  {
    if |es| > 0 {
      var lines := TableText(es, unis);
      assert lines == ["in : " + es[0].0, unis[0], "out: " + es[0].1] + TableText(es[1..], unis[1..]);
      var a := "in : " + es[0].0;
      var c := "out: " + es[0].1;
      assert lines[0] == a && lines[2] == c;
      assert a[..4] == "in :" && a[5..] == es[0].0;
      assert c[..4] == "out:" && c[5..] == es[0].1;
      assert lines[3..] == TableText(es[1..], unis[1..]);
      TableEntriesOfText(es[1..], unis[1..]);
      TrimOfTrimmed(es[0].0);
      TrimOfTrimmed(es[0].1);
      assert StartsWith(lines[0], "in :") && StartsWith(lines[2], "out:");
      assert Trim(lines[0][5..]) == es[0].0 && Trim(lines[2][5..]) == es[0].1;
      assert [es[0]] + es[1..] == es;
    }
  }

  /** The entries found so far, followed by those of the lines still to come. */
  function Then(done: seq<State>, r: Result<seq<State>>): Result<seq<State>> {
    match r
    case Ok(es) => Ok(done + es)
    case Err(m) => Err(m)
  }

  lemma ThenPrepend(done: seq<State>, e: State, es: seq<State>)
    ensures Then(done + [e], Ok(es)) == Then(done, Ok([e] + es))
  {
    assert done + [e] + es == done + ([e] + es);
  }

  /** The converter object: the table, filled by `loadFromFile` and
      `loadFromStream` and read by `convert`. */
  class BlockStateConverter {
    var table: map<string, string>

    constructor()
      ensures table == map[]
    {
      table := map[];
    }

    /** `loadFromStream`: each entry of the lines stored into the table in
        turn; `true` unless a short prefix line throws. */
    method LoadFromStream(lines: seq<string>) returns (r: Result<bool>)
      modifies this
      ensures TableEntries(lines).Err? <==> r.Err?
      ensures TableEntries(lines).Ok? ==> r == Ok(true) && table == Apply(old(table), TableEntries(lines).value)
      ensures table == Apply(old(table), Stored(lines))
    {
      ghost var done: seq<State> := [];
      var i := 0;
      assert lines[0..] == lines;
      assert [] + Stored(lines) == Stored(lines);
      match TableEntries(lines) {
        case Err(_) =>
        case Ok(es) => assert [] + es == es;
      }
      while i < |lines|
        invariant 0 <= i <= |lines|
        invariant table == Apply(old(table), done)
        invariant Then(done, TableEntries(lines[i..])) == TableEntries(lines)
        invariant Stored(lines) == done + Stored(lines[i..])
      {
        var line := lines[i];
        assert lines[i..][1..] == lines[i + 1..];
        if !StartsWith(line, "in :") {
          i := i + 1;
        } else if |line| < 5 {
          assert done + [] == done;
          return Err("out_of_range");
        } else if i + 3 > |lines| {
          i := |lines|;
        } else {
          var javaBlock := Trim(line[5..]);
          var out := lines[i + 2];
          assert lines[i..][2] == out && lines[i..][3..] == lines[i + 3..];
          if StartsWith(out, "out:") {
            if |out| < 5 {
              assert done + [] == done;
              return Err("out_of_range");
            }
            var bedrockBlock := Trim(out[5..]);
            match TableEntries(lines[i + 3..]) {
              case Err(_) =>
              case Ok(es) => ThenPrepend(done, (javaBlock, bedrockBlock), es);
            }
            assert done + Stored(lines[i..]) == (done + [(javaBlock, bedrockBlock)]) + Stored(lines[i + 3..]);
            ApplySnoc(old(table), done, (javaBlock, bedrockBlock));
            table := table[javaBlock := bedrockBlock];
            done := done + [(javaBlock, bedrockBlock)];
          }
          i := i + 3;
        }
      }
      assert lines[|lines|..] == [];
      assert done + [] == done;
      return Ok(true);
    }

    /** `loadFromFile`: `false` when the file cannot be opened (`None`),
        otherwise the same protocol as `loadFromStream`. */
    method LoadFromFile(file: Option<seq<string>>) returns (r: Result<bool>)
      modifies this
      ensures file.None? ==> r == Ok(false) && table == old(table)
      ensures file.Some? ==> (TableEntries(file.value).Err? <==> r.Err?)
      ensures file.Some? && TableEntries(file.value).Ok? ==>
                r == Ok(true) && table == Apply(old(table), TableEntries(file.value).value)
      ensures file.Some? ==> table == Apply(old(table), Stored(file.value))
    {
      if file.None? {
        return Ok(false);
      }
      r := LoadFromStream(file.value);
    }
  }

  lemma {:induction false} ApplySnoc(table: map<string, string>, es: seq<State>, e: State)
    ensures Apply(table, es + [e]) == Apply(table, es)[e.0 := e.1]
    decreases |es|
  {
    if |es| == 0 {
      assert es + [e] == [e];
    } else {
      assert (es + [e])[1..] == es[1..] + [e];
      ApplySnoc(table[es[0].0 := es[0].1], es[1..], e);
    }
  }
}

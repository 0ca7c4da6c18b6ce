/** txt2inc.py: the script that turns the converter's test output into block
    state templates. The stripped, non-blank lines of the input come in
    triples (an "in", a "uni" and an "out" line, each behind a short label);
    each triple becomes one entry, holding the three parsed state lists,
    appended under the key "base_in||base_uni". The script's built-ins
    (`str.strip`, `str.split`, `re.match`, `dict`, `defaultdict`) are modelled
    here as values. */
module Txt2Inc {
  import opened Wrappers
  import opened Text
  import LittleEndian

  // ---------------------------------------------------------------------------
  // str.strip

  /** The characters `str.isspace` accepts, which `strip()` removes. */
  predicate PyWhite(c: char) {
    || ('\t' <= c <= '\r') || ('\U{1C}' <= c <= ' ') || c == '\U{85}' || c == '\U{A0}'
    || c == '\U{1680}' || ('\U{2000}' <= c <= '\U{200A}') || c == '\U{2028}' || c == '\U{2029}'
    || c == '\U{202F}' || c == '\U{205F}' || c == '\U{3000}'
  }

  /** The one character `strip('"')` removes. */
  predicate IsQuote(c: char) {
    c == '"'
  }

  /** How many characters `drop` accepts at the front of `s`. */
  function Front(s: string, drop: char -> bool): (n: nat)
    ensures n <= |s|
  {
    if |s| > 0 && drop(s[0]) then 1 + Front(s[1..], drop) else 0
  }

  /** How many characters `drop` accepts at the back of `s`. */
  function Back(s: string, drop: char -> bool): (n: nat)
    ensures n <= |s|
  {
    if |s| > 0 && drop(s[|s| - 1]) then 1 + Back(s[..|s| - 1], drop) else 0
  }

  /** `s.strip(chars)`: the characters `drop` accepts cut from both ends. */
  function Strip(s: string, drop: char -> bool): string {
    var t := s[Front(s, drop)..];
    t[..|t| - Back(t, drop)]
  }

  lemma {:induction false} FrontSpec(s: string, drop: char -> bool)
    ensures Front(s, drop) == |s| || !drop(s[Front(s, drop)])
    ensures forall k :: 0 <= k < Front(s, drop) ==> drop(s[k])
    decreases |s|
  {
    if |s| > 0 && drop(s[0]) {
      FrontSpec(s[1..], drop);
    }
  }

  lemma {:induction false} BackSpec(s: string, drop: char -> bool)
    ensures Back(s, drop) == |s| || !drop(s[|s| - Back(s, drop) - 1])
    ensures forall k :: |s| - Back(s, drop) <= k < |s| ==> drop(s[k])
    decreases |s|
  {
    if |s| > 0 && drop(s[|s| - 1]) {
      BackSpec(s[..|s| - 1], drop);
    }
  }

  /** No character `drop` accepts at either end. */
  predicate Clean(s: string, drop: char -> bool) {
    s == [] || (!drop(s[0]) && !drop(s[|s| - 1]))
  }

  /** `r` is `s` less `a` dropped characters before it and only dropped
      characters after it. */
  predicate StrippedAt(s: string, r: string, a: nat, drop: char -> bool) {
    && a + |r| <= |s| && r == s[a..a + |r|]
    && (forall k :: 0 <= k < a ==> drop(s[k]))
    && (forall k :: a + |r| <= k < |s| ==> drop(s[k]))
  }

  /** `strip` cuts only accepted characters, and only from the ends, and
      leaves none at either end. */
  lemma StripSpec(s: string, drop: char -> bool)
    ensures Clean(Strip(s, drop), drop)
    ensures StrippedAt(s, Strip(s, drop), Front(s, drop), drop)
  {
    StripEnds(s, drop);
    StripMiddle(s, drop);
  }

  lemma StripEnds(s: string, drop: char -> bool)
    ensures Clean(Strip(s, drop), drop)
  {
    var t := s[Front(s, drop)..];
    var b := Back(t, drop);
    var r := t[..|t| - b];
    FrontSpec(s, drop);
    BackSpec(t, drop);
    if r != [] {
      assert r[0] == t[0] == s[Front(s, drop)];
      assert r[|r| - 1] == t[|t| - b - 1];
    }
  }

  lemma StripMiddle(s: string, drop: char -> bool)
    ensures StrippedAt(s, Strip(s, drop), Front(s, drop), drop)
  {
    var a := Front(s, drop);
    var t := s[a..];
    var r := t[..|t| - Back(t, drop)];
    assert r == s[a..a + |r|];
    FrontSpec(s, drop);
    BackSpec(t, drop);
    forall k | a + |r| <= k < |s| ensures drop(s[k]) {
      assert s[k] == t[k - a];
    }
  }

  /** Text with nothing to strip at its ends is its own strip. */
  lemma StripClean(s: string, drop: char -> bool)
    requires Clean(s, drop)
    ensures Strip(s, drop) == s
  {
    assert Front(s, drop) == 0;
    assert s[0..] == s;
    assert Back(s, drop) == 0;
  }

  /** Stripping twice strips no more than once. */
  lemma StripTwice(s: string, drop: char -> bool)
    ensures Strip(Strip(s, drop), drop) == Strip(s, drop)
  {
    StripSpec(s, drop);
    StripClean(Strip(s, drop), drop);
  }

  // ---------------------------------------------------------------------------
  // str.split with a separator

  predicate Free(s: string, c: char) {
    forall k :: 0 <= k < |s| ==> s[k] != c
  }

  /** `s.split(sep)`: the text between consecutive separators, so one more
      piece than there are separators; "" splits into [""]. */
  function Split(s: string, sep: char): (ps: seq<string>)
    ensures |ps| > 0
    decreases |s|
  {
    match FindChar(s, sep, 0)
    case None => [s]
    case Some(i) => [s[..i]] + Split(s[i + 1..], sep)
  }

  /** `sep.join(ps)`. */
  function JoinWith(ps: seq<string>, sep: char): string {
    if |ps| == 0 then "" else if |ps| == 1 then ps[0] else ps[0] + [sep] + JoinWith(ps[1..], sep)
  }

  /** No piece of a split holds the separator. */
  lemma {:induction false} SplitFree(s: string, sep: char)
    ensures forall j :: 0 <= j < |Split(s, sep)| ==> Free(Split(s, sep)[j], sep)
    decreases |s|
  {
    FindCharFirst(s, sep, 0);
    match FindChar(s, sep, 0)
    case None =>
    case Some(i) => {
      SplitFree(s[i + 1..], sep);
      assert forall j :: 1 <= j < |Split(s, sep)| ==> Split(s, sep)[j] == Split(s[i + 1..], sep)[j - 1];
    }
  }

  /** Joining the pieces of a split gives the text back. */
  lemma {:induction false} JoinOfSplit(s: string, sep: char)
    ensures JoinWith(Split(s, sep), sep) == s
    decreases |s|
  {
    match FindChar(s, sep, 0)
    case None =>
    case Some(i) => {
      var rest := s[i + 1..];
      JoinOfSplit(rest, sep);
      assert s == s[..i] + [sep] + rest;
    }
  }

  lemma SplitCons(p: string, rest: string, sep: char)
    requires Free(p, sep)
    ensures Split(p + [sep] + rest, sep) == [p] + Split(rest, sep)
  {
    var s := p + [sep] + rest;
    assert s[|p|] == sep;
    forall k | 0 <= k < |p| ensures s[k] != sep {
      assert s[k] == p[k];
    }
    FindCharIs(s, sep, 0, |p|);
    assert s[..|p|] == p;
    assert s[|p| + 1..] == rest;
  }

  /** Splitting what was joined gives the pieces back when none holds the
      separator. */
  lemma {:induction false} SplitOfJoin(ps: seq<string>, sep: char)
    requires |ps| > 0 && forall j :: 0 <= j < |ps| ==> Free(ps[j], sep)
    ensures Split(JoinWith(ps, sep), sep) == ps
    decreases |ps|
  {
    if |ps| == 1 {
      FindCharFirst(ps[0], sep, 0);
    } else {
      SplitCons(ps[0], JoinWith(ps[1..], sep), sep);
      SplitOfJoin(ps[1..], sep);
    }
  }

  // ---------------------------------------------------------------------------
  // re.match(r'.*?\[(.*)\]', line)

  /** The last position holding `c`. */
  function LastChar(s: string, c: char): (r: Option<nat>)
    ensures r.Some? ==> r.value < |s| && s[r.value] == c
  {
    if |s| == 0 then None else if s[|s| - 1] == c then Some(|s| - 1) else LastChar(s[..|s| - 1], c)
  }

  lemma {:induction false} LastCharLast(s: string, c: char)
    ensures LastChar(s, c).Some? ==> forall k :: LastChar(s, c).value < k < |s| ==> s[k] != c
    ensures LastChar(s, c).None? ==> Free(s, c)
  {
    if |s| > 0 && s[|s| - 1] != c {
      LastCharLast(s[..|s| - 1], c);
    }
  }

  /** The text up to the first line break: `.` matches anything else. */
  function FirstLine(s: string): (r: string)
    ensures Free(r, '\n') && |r| <= |s| && r == s[..|r|]
  {
    FindCharFirst(s, '\n', 0);
    match FindChar(s, '\n', 0)
    case None => s
    case Some(i) => s[..i]
  }

  /** The group the pattern captures: the lazy `.*?` stops at the first
      '[' and the greedy `(.*)` runs to the last ']' after it, neither
      crossing a line break; no match when there is no such pair. */
  function BracketGroup(s: string): Option<string> {
    var seg := FirstLine(s);
    match FindChar(seg, '[', 0)
    case None => None
    case Some(a) =>
      match LastChar(seg, ']')
      case None => None
      case Some(z) => if a < z then Some(seg[a + 1..z]) else None
  }

  /** The pattern matches exactly when the first line holds a '[' with a ']'
      after it. */
  lemma BracketGroupFound(s: string)
    ensures BracketGroup(s).Some? <==>
              exists a, z :: 0 <= a < z < |FirstLine(s)| && FirstLine(s)[a] == '[' && FirstLine(s)[z] == ']'
  {
    var seg := FirstLine(s);
    FindCharFirst(seg, '[', 0);
    LastCharLast(seg, ']');
    if BracketGroup(s).Some? {
      var a, z := FindChar(seg, '[', 0).value, LastChar(seg, ']').value;
      assert seg[a] == '[' && seg[z] == ']';
    }
  }

  /** The group runs from just after the first '[' to just before the last
      ']'. */
  lemma BracketGroupIs(s: string)
    requires BracketGroup(s).Some?
    ensures exists a, z :: && 0 <= a < z < |FirstLine(s)| && FirstLine(s)[a] == '[' && FirstLine(s)[z] == ']'
                           && Free(FirstLine(s)[..a], '[') && Free(FirstLine(s)[z + 1..], ']')
                           && BracketGroup(s).value == FirstLine(s)[a + 1..z]
  {
    var seg := FirstLine(s);
    FindCharFirst(seg, '[', 0);
    LastCharLast(seg, ']');
    var a, z := FindChar(seg, '[', 0).value, LastChar(seg, ']').value;
    assert forall k :: 0 <= k < a ==> seg[..a][k] == seg[k];
    var tail := seg[z + 1..];
    forall k | 0 <= k < |tail| ensures tail[k] != ']' {
      assert tail[k] == seg[z + 1 + k];
    }
  }

  /** A written block line: a name, then the state list in brackets. */
  lemma BracketGroupOfBlock(name: string, body: string)
    requires Free(name, '[') && Free(name, '\n') && Free(body, '\n')
    ensures BracketGroup(name + "[" + body + "]") == Some(body)
  {
    var s := name + "[" + body + "]";
    assert Free(s, '\n') by {
      assert forall k :: 0 <= k < |s| ==> s[k] == if k < |name| then name[k] else if k == |name| then '[' else if k < |s| - 1 then body[k - |name| - 1] else ']';
    }
    FindCharFirst(s, '\n', 0);
    assert FirstLine(s) == s;
    forall k | 0 <= k < |name| ensures s[k] != '[' {
      assert s[k] == name[k];
    }
    FindCharIs(s, '[', 0, |name|);
    assert LastChar(s, ']') == Some(|s| - 1);
    assert s[|name| + 1..|s| - 1] == body;
  }

  // ---------------------------------------------------------------------------
  // dict: keys in first-insertion order, assignment replaces in place

  type Dict<V> = seq<(string, V)>

  /** `d.get(k)`. */
  function Get<V>(d: Dict<V>, k: string): Option<V> {
    if |d| == 0 then None else if d[0].0 == k then Some(d[0].1) else Get(d[1..], k)
  }

  /** `d[k] = v`: an existing key keeps its place, a new one goes last. */
  function Put<V>(d: Dict<V>, k: string, v: V): Dict<V> {
    if |d| == 0 then [(k, v)] else if d[0].0 == k then [(k, v)] + d[1..] else [d[0]] + Put(d[1..], k, v)
  }

  /** The keys in iteration order. */
  function Keys<V>(d: Dict<V>): seq<string> {
    if |d| == 0 then [] else [d[0].0] + Keys(d[1..])
  }

  predicate Distinct(ks: seq<string>) {
    forall i, j :: 0 <= i < j < |ks| ==> ks[i] != ks[j]
  }

  /** After `d[k] = v`, `k` maps to `v` and every other key as before. */
  lemma {:induction false} GetPut<V>(d: Dict<V>, k: string, v: V, j: string)
    ensures Get(Put(d, k, v), j) == if j == k then Some(v) else Get(d, j)
  {
    if |d| > 0 && d[0].0 != k {
      GetPut(d[1..], k, v, j);
    }
  }

  /** A key is present exactly when it is among the keys. */
  lemma {:induction false} GetKeys<V>(d: Dict<V>, k: string)
    ensures Get(d, k).Some? <==> k in Keys(d)
  {
    if |d| > 0 {
      GetKeys(d[1..], k);
    }
  }

  /** `d[k] = v` keeps the key order and adds a new key at the end. */
  lemma {:induction false} KeysPut<V>(d: Dict<V>, k: string, v: V)
    ensures Keys(Put(d, k, v)) == if k in Keys(d) then Keys(d) else Keys(d) + [k]
  {
    if |d| > 0 {
      KeysPut(d[1..], k, v);
      if d[0].0 != k {
        assert k in Keys(d) <==> k in Keys(d[1..]);
        if k !in Keys(d) {
          assert [d[0].0] + (Keys(d[1..]) + [k]) == Keys(d) + [k];
        }
      }
    }
  }

  /** The keys stay distinct under `d[k] = v`. */
  lemma DistinctPut<V>(d: Dict<V>, k: string, v: V)
    requires Distinct(Keys(d))
    ensures Distinct(Keys(Put(d, k, v)))
  {
    KeysPut(d, k, v);
  }

  /** A new key goes at the end. */
  lemma {:induction false} PutNew<V>(d: Dict<V>, k: string, v: V)
    requires Get(d, k).None?
    ensures Put(d, k, v) == d + [(k, v)]
  {
    if |d| > 0 {
      PutNew(d[1..], k, v);
      assert [d[0]] + (d[1..] + [(k, v)]) == d + [(k, v)];
    }
  }

  // ---------------------------------------------------------------------------
  // parse_state

  /** One piece of a state list: `k, v = p.split("=")` unpacks only when
      there is exactly one '='; the key is stripped, the value stripped and
      its surrounding '"' removed. */
  function PairOf(p: string): Result<(string, string)> {
    var parts := Split(p, '=');
    if |parts| != 2 then Err("ValueError")
    else Ok((Strip(parts[0], PyWhite), Strip(Strip(parts[1], PyWhite), IsQuote)))
  }

  /** The dictionary after the first `n` pieces, or the first failure. */
  function StatesAfter(pairs: seq<string>, n: nat): Result<Dict<string>>
    requires n <= |pairs|
  {
    if n == 0 then Ok([])
    else match StatesAfter(pairs, n - 1)
      case Err(m) => Err(m)
      case Ok(d) =>
        match PairOf(pairs[n - 1])
        case Err(m) => Err(m)
        case Ok(kv) => Ok(Put(d, kv.0, kv.1))
  }

  /** `parse_state`: {} when the pattern does not match; otherwise every
      comma-separated piece of the group in turn. */
  function StateOf(line: string): Result<Dict<string>> {
    match BracketGroup(line)
    case None => Ok([])
    case Some(g) => StatesAfter(Split(g, ','), |Split(g, ',')|)
  }

  method ParseState(line: string) returns (r: Result<Dict<string>>)
    ensures r == StateOf(line)
  {
    var m := BracketGroup(line);
    if m.None? {
      return Ok([]);
    }
    var pairs := Split(m.value, ',');
    var d: Dict<string> := [];
    for i := 0 to |pairs|
      invariant StatesAfter(pairs, i) == Ok(d)
    {
      var kv := PairOf(pairs[i]);
      if kv.Err? {
        StatesFail(pairs, i + 1, |pairs|);
        return Err(kv.msg);
      }
      d := Put(d, kv.value.0, kv.value.1);
    }
    return Ok(d);
  }

  /** A failure ends the parse: later pieces are not looked at. */
  lemma {:induction false} StatesFail(pairs: seq<string>, n: nat, m: nat)
    requires n <= m <= |pairs| && StatesAfter(pairs, n).Err?
    ensures StatesAfter(pairs, m) == StatesAfter(pairs, n)
    decreases m - n
  {
    if n < m {
      StatesFail(pairs, n, m - 1);
    }
  }

  /** The parse fails exactly when some piece does not hold exactly one
      '='. */
  lemma {:induction false} StatesAfterErr(pairs: seq<string>, n: nat)
    requires n <= |pairs|
    ensures StatesAfter(pairs, n).Err? <==> exists j :: 0 <= j < n && PairOf(pairs[j]).Err?
  {
    if n > 0 {
      StatesAfterErr(pairs, n - 1);
      if PairOf(pairs[n - 1]).Err? {
        assert StatesAfter(pairs, n).Err?;
      } else if StatesAfter(pairs, n - 1).Err? {
        var j :| 0 <= j < n - 1 && PairOf(pairs[j]).Err?;
        assert StatesAfter(pairs, n).Err? && 0 <= j < n;
      } else {
        assert StatesAfter(pairs, n).Ok?;
        assert !exists j :: 0 <= j < n - 1 && PairOf(pairs[j]).Err?;
        forall j | 0 <= j < n
          ensures !PairOf(pairs[j]).Err?
        {
          if j < n - 1 {
            assert !(0 <= j < n - 1 && PairOf(pairs[j]).Err?);
          }
        }
      }
    }
  }

  /** The value of the last of the first `n` pieces whose key is `k`. */
  function LastFor(pairs: seq<string>, n: nat, k: string): Option<string>
    requires n <= |pairs|
  {
    if n == 0 then None
    else if PairOf(pairs[n - 1]).Ok? && PairOf(pairs[n - 1]).value.0 == k then Some(PairOf(pairs[n - 1]).value.1)
    else LastFor(pairs, n - 1, k)
  }

  /** A parsed state list maps each key to the value of its last piece
      (later pieces overwrite earlier ones), and holds each key once. */
  lemma {:induction false} StatesAfterGet(pairs: seq<string>, n: nat, k: string)
    requires n <= |pairs| && StatesAfter(pairs, n).Ok?
    ensures Get(StatesAfter(pairs, n).value, k) == LastFor(pairs, n, k)
    ensures Distinct(Keys(StatesAfter(pairs, n).value))
  {
    if n > 0 {
      StatesAfterGet(pairs, n - 1, k);
      var kv := PairOf(pairs[n - 1]).value;
      GetPut(StatesAfter(pairs, n - 1).value, kv.0, kv.1, k);
      DistinctPut(StatesAfter(pairs, n - 1).value, kv.0, kv.1);
    }
  }

  /** A line without a bracketed part has no states. */
  lemma StateOfPlain(line: string)
    requires Free(line, '[')
    ensures StateOf(line) == Ok([])
  {
    BracketGroupFound(line);
    assert forall k :: 0 <= k < |FirstLine(line)| ==> FirstLine(line)[k] == line[k];
  }

  /** Empty brackets do not parse: "".split(",") is [""], and "" holds no
      '=' to unpack. */
  lemma EmptyBracketsFail(name: string)
    requires Free(name, '[') && Free(name, '\n')
    ensures StateOf(name + "[]").Err?
  {
    BracketGroupOfBlock(name, "");
    assert name + "[" + "" + "]" == name + "[]";
    FindCharFirst("", ',', 0);
    FindCharFirst("", '=', 0);
  }

  // ---------------------------------------------------------------------------
  // A block line as the converter's test output writes it

  /** "k=v" pieces joined with ','. */
  function Render(d: Dict<string>): string {
    JoinWith(Assignments(d), ',')
  }

  function Assignments(d: Dict<string>): (ps: seq<string>)
    ensures |ps| == |d|
  {
    seq(|d|, i requires 0 <= i < |d| => d[i].0 + "=" + d[i].1)
  }

  /** A key or value that reads back as itself: no separator, no bracket
      that could end the list, no line break, nothing strippable at either
      end. */
  predicate Plain(s: string) {
    Free(s, ',') && Free(s, '=') && Free(s, '\n') && Clean(s, PyWhite)
  }

  predicate PlainValue(s: string) {
    Plain(s) && Clean(s, IsQuote)
  }

  predicate Renderable(d: Dict<string>) {
    && |d| > 0 && Distinct(Keys(d))
    && forall i :: 0 <= i < |d| ==> Plain(d[i].0) && PlainValue(d[i].1)
  }

  lemma PairOfAssignment(k: string, v: string)
    requires Plain(k) && PlainValue(v)
    ensures PairOf(k + "=" + v) == Ok((k, v))
  {
    SplitCons(k, v, '=');
    assert k + "=" + v == k + ['='] + v;
    FindCharFirst(v, '=', 0);
    StripClean(k, PyWhite);
    StripClean(v, PyWhite);
    StripClean(v, IsQuote);
  }

  lemma AssignmentFree(k: string, v: string)
    requires Free(k, ',') && Free(v, ',') && Free(k, '\n') && Free(v, '\n')
    ensures Free(k + "=" + v, ',') && Free(k + "=" + v, '\n')
  {
    var s := k + "=" + v;
    forall j | 0 <= j < |s| ensures s[j] != ',' && s[j] != '\n' {
      if j < |k| {
        assert s[j] == k[j];
      } else if j > |k| {
        assert s[j] == v[j - |k| - 1];
      }
    }
  }

  lemma {:induction false} JoinFree(ps: seq<string>, sep: char, c: char)
    requires c != sep && forall j :: 0 <= j < |ps| ==> Free(ps[j], c)
    ensures Free(JoinWith(ps, sep), c)
    decreases |ps|
  {
    if |ps| > 1 {
      JoinFree(ps[1..], sep, c);
      var s := JoinWith(ps, sep);
      var t := JoinWith(ps[1..], sep);
      forall j | 0 <= j < |s| ensures s[j] != c {
        if j < |ps[0]| {
          assert s[j] == ps[0][j];
        } else if j > |ps[0]| {
          assert s[j] == t[j - |ps[0]| - 1];
        }
      }
    }
  }

  /** Pieces that each parse, to distinct keys, give their pairs in order. */
  lemma {:induction false} StatesOfPieces(pairs: seq<string>, kvs: Dict<string>, n: nat)
    requires n <= |pairs| == |kvs| && Distinct(Keys(kvs))
    requires forall i :: 0 <= i < |pairs| ==> PairOf(pairs[i]) == Ok(kvs[i])
    ensures StatesAfter(pairs, n) == Ok(kvs[..n])
  {
    if n > 0 {
      StatesOfPieces(pairs, kvs, n - 1);
      assert PairOf(pairs[n - 1]) == Ok(kvs[n - 1]);
      NewKey(kvs, n - 1);
      PutNew(kvs[..n - 1], kvs[n - 1].0, kvs[n - 1].1);
      LittleEndian.TakeNext(kvs, n - 1);
    }
  }

  /** With distinct keys, no key is among those before it. */
  lemma NewKey(d: Dict<string>, i: nat)
    requires i < |d| && Distinct(Keys(d))
    ensures Get(d[..i], d[i].0).None?
  {
    KeysAt(d);
    KeysAt(d[..i]);
    GetKeys(d[..i], d[i].0);
  }

  lemma {:induction false} KeysAt(d: Dict<string>)
    ensures |Keys(d)| == |d| && forall i :: 0 <= i < |d| ==> Keys(d)[i] == d[i].0
  {
    if |d| > 0 {
      KeysAt(d[1..]);
    }
  }

  /** `parse_state` reads a written state list back: the pieces, in order,
      with their keys and values. */
  lemma StateOfBlock(name: string, d: Dict<string>)
    requires Free(name, '[') && Free(name, '\n') && Renderable(d)
    ensures StateOf(name + "[" + Render(d) + "]") == Ok(d)
  {
    var ps := Assignments(d);
    forall j | 0 <= j < |ps| ensures Free(ps[j], ',') && Free(ps[j], '\n') {
      AssignmentFree(d[j].0, d[j].1);
    }
    JoinFree(ps, ',', '\n');
    BracketGroupOfBlock(name, Render(d));
    SplitOfJoin(ps, ',');
    forall i | 0 <= i < |ps| ensures PairOf(ps[i]) == Ok(d[i]) {
      PairOfAssignment(d[i].0, d[i].1);
    }
    StatesOfPieces(ps, d, |d|);
    LittleEndian.TakeAll(d);
  }

  // ---------------------------------------------------------------------------
  // parse_block_name

  /** `parse_block_name`: the unstripped text before the first '[', or the
      whole line stripped when there is none. */
  function BlockName(line: string): (r: string)
    ensures Free(r, '[')
  {
    FindCharFirst(line, '[', 0);
    match FindChar(line, '[', 0)
    case Some(i) => line[..i]
    case None => StripTextFree(line); Strip(line, PyWhite)
  }

  lemma StripTextFree(s: string)
    requires Free(s, '[')
    ensures Free(Strip(s, PyWhite), '[')
  {
    StripMiddle(s, PyWhite);
    var r := Strip(s, PyWhite);
    var a := Front(s, PyWhite);
    forall k | 0 <= k < |r| ensures r[k] != '[' {
      assert r[k] == s[a + k];
    }
  }

  /** A written block line names its block. */
  lemma BlockNameOfBlock(name: string, body: string)
    requires Free(name, '[')
    ensures BlockName(name + "[" + body + "]") == name
  {
    var s := name + "[" + body + "]";
    forall k | 0 <= k < |name| ensures s[k] != '[' {
      assert s[k] == name[k];
    }
    FindCharIs(s, '[', 0, |name|);
    assert s[..|name|] == name;
  }

  /** A line without brackets names itself, stripped. */
  lemma BlockNameOfPlain(line: string)
    requires Free(line, '[')
    ensures BlockName(line) == Strip(line, PyWhite)
  {
    FindCharFirst(line, '[', 0);
  }

  // ---------------------------------------------------------------------------
  // The script: non-blank lines, taken three at a time

  /** `[l.strip() for l in f if l.strip()]`. */
  function NonBlank(file: seq<string>): seq<string> {
    if |file| == 0 then []
    else
      var l := Strip(file[0], PyWhite);
      (if l == "" then [] else [l]) + NonBlank(file[1..])
  }

  /** Every line kept is non-empty and already stripped. */
  lemma {:induction false} NonBlankLines(file: seq<string>)
    ensures forall k :: 0 <= k < |NonBlank(file)| ==>
              NonBlank(file)[k] != "" && Strip(NonBlank(file)[k], PyWhite) == NonBlank(file)[k]
  {
    if |file| > 0 {
      NonBlankLines(file[1..]);
      var l := Strip(file[0], PyWhite);
      StripTwice(file[0], PyWhite);
      var head: seq<string> := if l == "" then [] else [l];
      assert forall k :: |head| <= k < |NonBlank(file)| ==> NonBlank(file)[k] == NonBlank(file[1..])[k - |head|];
    }
  }

  /** `s[n:]`: empty when `s` is shorter. */
  function Drop(s: string, n: nat): (r: string)
    ensures |s| >= n ==> s == s[..n] + r
  {
    if |s| <= n then "" else s[n..]
  }

  /** One template entry: the three parsed state lists. */
  datatype Entry = Entry(inState: Dict<string>, uniState: Dict<string>, outState: Dict<string>)

  type Templates = Dict<seq<Entry>>

  /** The key and entry of one triple: the labels cut off (five characters of
      the "in" line, four of the others), each line stripped, the key built
      from the two base names, then the three state lists parsed in turn. */
  function TripleOf(a: string, b: string, c: string): Result<(string, Entry)> {
    var inLine := Strip(Drop(a, 5), PyWhite);
    var uniLine := Strip(Drop(b, 4), PyWhite);
    var outLine := Strip(Drop(c, 4), PyWhite);
    var key := BlockName(inLine) + "||" + BlockName(uniLine);
    match StateOf(inLine)
    case Err(m) => Err(m)
    case Ok(i) =>
      match StateOf(uniLine)
      case Err(m) => Err(m)
      case Ok(u) =>
        match StateOf(outLine)
        case Err(m) => Err(m)
        case Ok(o) => Ok((key, Entry(i, u, o)))
  }

  /** One pass of the loop over `lines[i]`, `lines[i + 1]` and
      `lines[i + 2]`. */
  method Pass(a: string, b: string, c: string) returns (r: Result<(string, Entry)>)
    ensures r == TripleOf(a, b, c)
  {
    var inLine := Strip(Drop(a, 5), PyWhite);
    var uniLine := Strip(Drop(b, 4), PyWhite);
    var outLine := Strip(Drop(c, 4), PyWhite);
    var baseIn := BlockName(inLine);
    var baseUni := BlockName(uniLine);
    var inState := ParseState(inLine);
    if inState.Err? {
      return Err(inState.msg);
    }
    var uniState := ParseState(uniLine);
    if uniState.Err? {
      return Err(uniState.msg);
    }
    var outState := ParseState(outLine);
    if outState.Err? {
      return Err(outState.msg);
    }
    var key := baseIn + "||" + baseUni;
    return Ok((key, Entry(inState.value, uniState.value, outState.value)));
  }

  /** The outcome of pass `t`: its triple, or the `IndexError` of a pass
      without three lines left. */
  function PassOutcome(lines: seq<string>, t: nat): Result<(string, Entry)> {
    if 3 * t + 2 < |lines| then TripleOf(lines[3 * t], lines[3 * t + 1], lines[3 * t + 2])
    else Err("IndexError")
  }

  /** The number of passes `range(0, len(lines), 3)` makes. */
  function Passes(lines: seq<string>): nat {
    (|lines| + 2) / 3
  }

  /** The outcome of every pass. */
  function Outcomes(lines: seq<string>): (outs: seq<Result<(string, Entry)>>)
    ensures |outs| == Passes(lines)
  {
    seq(Passes(lines), t requires 0 <= t < Passes(lines) => PassOutcome(lines, t))
  }

  lemma OutcomeAt(lines: seq<string>, t: nat)
    requires t < Passes(lines)
    ensures Outcomes(lines)[t] == PassOutcome(lines, t)
  {
  }

  lemma PassAt(lines: seq<string>, t: nat, i: nat)
    requires i == 3 * t && i + 2 < |lines|
    ensures t < |Outcomes(lines)|
    ensures Outcomes(lines)[t] == TripleOf(lines[i], lines[i + 1], lines[i + 2])
  {
    OutcomeAt(lines, t);
  }

  lemma IndexErrorAt(lines: seq<string>, t: nat, i: nat)
    requires i == 3 * t && i < |lines| <= i + 2
    ensures t + 1 == |Outcomes(lines)|
    ensures Outcomes(lines)[t] == Err("IndexError")
  {
    OutcomeAt(lines, t);
  }

  /** `templates[k]`, a fresh [] when the key is new. */
  function ListAt(tm: Templates, k: string): seq<Entry> {
    match Get(tm, k)
    case None => []
    case Some(es) => es
  }

  /** `templates[k].append(e)` on the defaultdict. */
  function AppendTo(tm: Templates, k: string, e: Entry): Templates {
    Put(tm, k, ListAt(tm, k) + [e])
  }

  /** The templates after the first `n` passes, or the exception that
      stopped the loop. */
  function Build(outs: seq<Result<(string, Entry)>>, n: nat): Result<Templates>
    requires n <= |outs|
  {
    if n == 0 then Ok([])
    else match Build(outs, n - 1)
      case Err(m) => Err(m)
      case Ok(tm) =>
        match outs[n - 1]
        case Err(m) => Err(m)
        case Ok(ke) => Ok(AppendTo(tm, ke.0, ke.1))
  }

  /** What the script builds from the lines of its input file. */
  function TemplatesOf(file: seq<string>): Result<Templates> {
    var outs := Outcomes(NonBlank(file));
    Build(outs, |outs|)
  }

  /** The script: read the lines, then one pass per triple. An exception
      (an index past the end, a piece that does not unpack) ends it before
      anything is written. */
  method Run(file: seq<string>) returns (r: Result<Templates>)
    ensures r == TemplatesOf(file)
  {
    var lines := NonBlank(file);
    r := Loop(lines);
  }

  /** `for i in range(0, len(lines), 3)`, pass `t` starting at line
      `i = 3 * t`. */
  method Loop(lines: seq<string>) returns (r: Result<Templates>)
    ensures r == Build(Outcomes(lines), Passes(lines))
  {
    ghost var outs := Outcomes(lines);
    var templates: Templates := [];
    for t := 0 to (|lines| + 2) / 3
      invariant Build(outs, t) == Ok(templates)
    {
      PassStarts(t, |lines|);
      var ke := NextPass(lines, 3 * t, t);
      BuildNext(outs, t);
      if ke.Err? {
        BuildFail(outs, t + 1, |outs|);
        return Err(ke.msg);
      }
      templates := AppendTo(templates, ke.value.0, ke.value.1);
    }
    return Ok(templates);
  }

  /** Every pass starts on a line of the input. */
  lemma PassStarts(t: nat, n: nat)
    requires t < (n + 2) / 3
    ensures 3 * t < n
  {
  }

  lemma BuildNext(outs: seq<Result<(string, Entry)>>, n: nat)
    requires n < |outs| && Build(outs, n).Ok?
    ensures Build(outs, n + 1) == match outs[n]
                                  case Err(m) => Err(m)
                                  case Ok(ke) => Ok(AppendTo(Build(outs, n).value, ke.0, ke.1))
  {
  }

  /** The pass at line `i`: an index past the end when fewer than three
      lines are left. */
  method NextPass(lines: seq<string>, i: nat, ghost t: nat) returns (r: Result<(string, Entry)>)
    requires i == 3 * t && i < |lines|
    ensures t < |Outcomes(lines)| && r == Outcomes(lines)[t]
  {
    if i + 2 >= |lines| {
      IndexErrorAt(lines, t, i);
      return Err("IndexError");
    }
    PassAt(lines, t, i);
    r := Pass(lines[i], lines[i + 1], lines[i + 2]);
  }

  /** An exception ends the loop: later passes do not happen. */
  lemma {:induction false} BuildFail(outs: seq<Result<(string, Entry)>>, n: nat, m: nat)
    requires n <= m <= |outs| && Build(outs, n).Err?
    ensures Build(outs, m) == Build(outs, n)
    decreases m - n
  {
    if n < m {
      BuildFail(outs, n, m - 1);
    }
  }

  /** The loop completes exactly when every pass succeeds. */
  lemma {:induction false} BuildOk(outs: seq<Result<(string, Entry)>>, n: nat)
    requires n <= |outs|
    ensures Build(outs, n).Ok? <==> forall u :: 0 <= u < n ==> outs[u].Ok?
  {
    if n > 0 {
      BuildOk(outs, n - 1);
    }
  }

  /** Every pass succeeds exactly when the lines come in whole triples and
      every triple parses. */
  lemma PassesOk(lines: seq<string>)
    ensures (forall u :: 0 <= u < Passes(lines) ==> PassOutcome(lines, u).Ok?) <==>
              |lines| % 3 == 0 && forall u :: 0 <= u < |lines| / 3 ==> PassOutcome(lines, u).Ok?
  {
    var n := Passes(lines);
    if |lines| % 3 != 0 {
      assert 3 * (n - 1) + 2 >= |lines|;
      assert PassOutcome(lines, n - 1).Err?;
    }
  }

  /** The script succeeds exactly when the non-blank lines come in whole
      triples and every triple parses. */
  lemma TemplatesOfOk(file: seq<string>)
    ensures TemplatesOf(file).Ok? <==>
              |NonBlank(file)| % 3 == 0 &&
              forall u :: 0 <= u < |NonBlank(file)| / 3 ==> PassOutcome(NonBlank(file), u).Ok?
  {
    var lines := NonBlank(file);
    var outs := Outcomes(lines);
    BuildOk(outs, |outs|);
    forall u | 0 <= u < |outs| ensures outs[u] == PassOutcome(lines, u) {
      OutcomeAt(lines, u);
    }
    PassesOk(lines);
  }

  /** The entries of the first `n` passes whose key is `k`, in order. */
  function EntriesFor(outs: seq<Result<(string, Entry)>>, n: nat, k: string): seq<Entry>
    requires n <= |outs|
  {
    if n == 0 then []
    else EntriesFor(outs, n - 1, k) + match outs[n - 1]
                                      case Err(_) => []
                                      case Ok(ke) => if ke.0 == k then [ke.1] else []
  }

  /** Each key holds the entries of its triples in input order, and every key
      appears once. */
  lemma {:induction false} BuildGroups(outs: seq<Result<(string, Entry)>>, n: nat, k: string)
    requires n <= |outs| && Build(outs, n).Ok?
    ensures ListAt(Build(outs, n).value, k) == EntriesFor(outs, n, k)
    ensures Distinct(Keys(Build(outs, n).value))
  {
    if n > 0 {
      BuildGroups(outs, n - 1, k);
      var tm := Build(outs, n - 1).value;
      var ke := outs[n - 1].value;
      GetPut(tm, ke.0, ListAt(tm, ke.0) + [ke.1], k);
      DistinctPut(tm, ke.0, ListAt(tm, ke.0) + [ke.1]);
      if ke.0 == k {
        assert EntriesFor(outs, n, k) == EntriesFor(outs, n - 1, k) + [ke.1];
      } else {
        assert EntriesFor(outs, n, k) == EntriesFor(outs, n - 1, k) + [];
      }
    }
  }

  /** The number of entries under all keys. */
  function Total(tm: Templates): nat {
    if |tm| == 0 then 0 else |tm[0].1| + Total(tm[1..])
  }

  lemma {:induction false} TotalPut(tm: Templates, k: string, es: seq<Entry>)
    ensures Total(Put(tm, k, es)) == Total(tm) - |ListAt(tm, k)| + |es|
  {
    if |tm| > 0 && tm[0].0 != k {
      TotalPut(tm[1..], k, es);
    }
  }

  /** Every pass adds exactly one entry. */
  lemma {:induction false} BuildTotal(outs: seq<Result<(string, Entry)>>, n: nat)
    requires n <= |outs| && Build(outs, n).Ok?
    ensures Total(Build(outs, n).value) == n
  {
    if n > 0 {
      BuildTotal(outs, n - 1);
      var tm := Build(outs, n - 1).value;
      var ke := outs[n - 1].value;
      TotalPut(tm, ke.0, ListAt(tm, ke.0) + [ke.1]);
    }
  }

  /** A file the script converts yields one entry per triple of non-blank
      lines. */
  lemma TemplatesTotal(file: seq<string>)
    requires TemplatesOf(file).Ok?
    ensures Total(TemplatesOf(file).value) * 3 == |NonBlank(file)|
  {
    var outs := Outcomes(NonBlank(file));
    TemplatesOfOk(file);
    BuildTotal(outs, |outs|);
  }
}

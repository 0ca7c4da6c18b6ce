/** The string operations the importers are written with: `find`,
    `substr`, prefix and substring tests, the converter's `trim`, the comma
    split of a state list and `std::stoi`. Text is `string`, one `char` per
    byte of the original `std::string`. */
module Text {
  import opened Wrappers

  /** `s.find(c, from)`: the first position at or after `from` holding `c`. */
  function FindChar(s: string, c: char, from: nat): (r: Option<nat>)
    ensures r.Some? ==> from <= r.value < |s| && s[r.value] == c
    decreases |s| - from
  {
    if from >= |s| then None
    else if s[from] == c then Some(from)
    else FindChar(s, c, from + 1)
  }

  /** Nothing before the position found holds `c`; nothing at all when none
      is found. */
  lemma {:induction false} FindCharFirst(s: string, c: char, from: nat)
    ensures FindChar(s, c, from).Some? ==> forall k :: from <= k < FindChar(s, c, from).value ==> s[k] != c
    ensures FindChar(s, c, from).None? ==> forall k :: from <= k < |s| ==> s[k] != c
    decreases |s| - from
  {
    if from < |s| && s[from] != c {
      FindCharFirst(s, c, from + 1);
    }
  }

  /** The first occurrence is the one position that satisfies the ensures. */
  lemma {:induction false} FindCharIs(s: string, c: char, from: nat, k: nat)
    requires from <= k < |s| && s[k] == c && forall j :: from <= j < k ==> s[j] != c
    ensures FindChar(s, c, from) == Some(k)
  {
    FindCharFirst(s, c, from);
  }

  /** Searching from `from` is searching the rest of the string. */
  lemma {:induction false} FindCharShift(s: string, c: char, from: nat)
    requires from <= |s|
    ensures FindChar(s, c, from) == match FindChar(s[from..], c, 0)
                                    case None => None
                                    case Some(k) => Some(from + k)
  {
    var t := s[from..];
    FindCharFirst(t, c, 0);
    FindCharFirst(s, c, from);
    match FindChar(t, c, 0)
    case None => {
      forall k | from <= k < |s| ensures s[k] != c {
        assert s[k] == t[k - from];
      }
    }
    case Some(k) => {
      assert s[from + k] == t[k];
      forall j | from <= j < from + k ensures s[j] != c {
        assert s[j] == t[j - from];
      }
      FindCharIs(s, c, from, from + k);
    }
  }

  /** `s.find(p) == 0`. */
  predicate StartsWith(s: string, p: string) {
    |p| <= |s| && s[..|p|] == p
  }

  /** `s.find(sub) != npos`. */
  predicate Contains(s: string, sub: string) {
    exists k: nat | k <= |s| :: OccursAt(s, sub, k)
  }

  predicate OccursAt(s: string, sub: string, k: nat) {
    k + |sub| <= |s| && s[k..k + |sub|] == sub
  }

  /** The characters `trim` removes: ' ', '\t', '\r' and '\n'. */
  predicate Blank(c: char) {
    c == ' ' || c == '\t' || c == '\r' || c == '\n'
  }

  /** `find_first_not_of`: how many blanks the text starts with. */
  function LeadingBlanks(s: string): (n: nat)
    ensures n <= |s| && (n == |s| || !Blank(s[n]))
    ensures forall k :: 0 <= k < n ==> Blank(s[k])
  {
    if |s| > 0 && Blank(s[0]) then 1 + LeadingBlanks(s[1..]) else 0
  }

  /** `find_last_not_of`: how many blanks the text ends with. */
  function TrailingBlanks(s: string): (n: nat)
    ensures n <= |s| && (n == |s| || !Blank(s[|s| - n - 1]))
    ensures forall k :: |s| - n <= k < |s| ==> Blank(s[k])
  {
    if |s| > 0 && Blank(s[|s| - 1]) then 1 + TrailingBlanks(s[..|s| - 1]) else 0
  }

  /** `trim`: from the first to the last character that is not blank; ""
      when every character is. */
  function Trim(s: string): string {
    var a := LeadingBlanks(s);
    if a == |s| then "" else s[a..|s| - TrailingBlanks(s)]
  }

  /** No blank at either end. */
  predicate Trimmed(s: string) {
    s == [] || (!Blank(s[0]) && !Blank(s[|s| - 1]))
  }

  /** `trim` returns the middle of its input, with only blanks cut away on
      either side, and nothing blank left at its ends. */
  lemma {:induction false} TrimSpec(s: string)
    ensures var r := Trim(s);
            && Trimmed(r)
            && exists a: nat :: TrimmedAt(s, r, a)
  {
    var a := LeadingBlanks(s);
    if a == |s| {
      assert TrimmedAt(s, "", a);
    } else {
      assert TrimmedAt(s, Trim(s), a);
    }
  }

  /** `r` is `s` less `a` blanks before it and only blanks after it. */
  predicate TrimmedAt(s: string, r: string, a: nat) {
    && a + |r| <= |s| && r == s[a..a + |r|]
    && (forall k :: 0 <= k < a ==> Blank(s[k]))
    && (forall k :: a + |r| <= k < |s| ==> Blank(s[k]))
  }

  /** A string with nothing blank at its ends is its own trim. */
  lemma {:induction false} TrimOfTrimmed(s: string)
    requires Trimmed(s)
    ensures Trim(s) == s
  {
  }

  /** `trim` is idempotent. */
  lemma {:induction false} TrimTwice(s: string)
    ensures Trim(Trim(s)) == Trim(s)
  {
    TrimSpec(s);
    TrimOfTrimmed(Trim(s));
  }

  // ---------------------------------------------------------------------------
  // The comma split of the state parsers

  /** The pieces the parsers' `pos` loop visits: the text up to each ',',
      the last piece running to the end; a trailing ',' adds no piece and
      "" has none. */
  function Pieces(s: string): seq<string>
    decreases |s|
  {
    if |s| == 0 then []
    else match FindChar(s, ',', 0)
         case None => [s]
         case Some(c) => [s[..c]] + Pieces(s[c + 1..])
  }

  /** The pieces joined with ',' between them. */
  function Join(ps: seq<string>): string {
    if |ps| == 0 then "" else if |ps| == 1 then ps[0] else ps[0] + "," + Join(ps[1..])
  }

  predicate NoComma(p: string) {
    forall k :: 0 <= k < |p| ==> p[k] != ','
  }

  /** A first piece without ',' is split off at the ',' after it. */
  lemma {:induction false} PiecesCons(p: string, rest: string)
    requires NoComma(p)
    ensures Pieces(p + "," + rest) == [p] + Pieces(rest)
  {
    var s := p + "," + rest;
    assert s[|p|] == ',';
    forall k | 0 <= k < |p| ensures s[k] != ',' {
      assert s[k] == p[k];
    }
    FindCharIs(s, ',', 0, |p|);
    assert s[..|p|] == p;
    assert s[|p| + 1..] == rest;
  }

  /** Splitting what was joined gives the pieces back when none holds a ','
      and the last is not empty. */
  lemma {:induction false} PiecesOfJoin(ps: seq<string>)
    requires forall j :: 0 <= j < |ps| ==> NoComma(ps[j])
    requires |ps| > 0 ==> ps[|ps| - 1] != ""
    ensures Pieces(Join(ps)) == ps
    decreases |ps|
  {
    if |ps| == 1 {
      assert FindChar(ps[0], ',', 0).None?;
    } else if |ps| > 1 {
      PiecesCons(ps[0], Join(ps[1..]));
      PiecesOfJoin(ps[1..]);
    }
  }

  /** Joining the pieces gives the text back, but for a trailing ','. */
  lemma {:induction false} JoinOfPieces(s: string)
    requires |s| == 0 || s[|s| - 1] != ','
    ensures Join(Pieces(s)) == s
    decreases |s|
  {
    if |s| > 0 {
      match FindChar(s, ',', 0)
      case None =>
      case Some(c) => {
        var rest := s[c + 1..];
        assert |rest| > 0 && rest[|rest| - 1] == s[|s| - 1];
        JoinOfPieces(rest);
        assert s == s[..c] + "," + rest;
      }
    }
  }

  // ---------------------------------------------------------------------------
  // std::stoi

  /** The characters `isspace` accepts in the C locale. */
  predicate Space(c: char) {
    c == ' ' || c == '\t' || c == '\n' || c == '\U{B}' || c == '\U{C}' || c == '\r'
  }

  predicate Digit(c: char) {
    '0' <= c <= '9'
  }

  /** The leading decimal digits of `s`, as a number, and how many there are. */
  function Digits(s: string, acc: nat, i: nat): (r: (nat, nat))
    requires i <= |s|
    ensures i <= r.1 <= |s|
    decreases |s| - i
  {
    if i < |s| && Digit(s[i]) then Digits(s, acc * 10 + (s[i] - '0') as int, i + 1) else (acc, i)
  }

  /** `std::stoi` on base 10: leading spaces, an optional sign, then at least
      one digit, the rest ignored; no digit is `invalid_argument`, a value
      outside `int` is `out_of_range`. */
  function Stoi(s: string): (r: Result<int>)
    ensures r.Ok? ==> -0x8000_0000 <= r.value < 0x8000_0000
  {
    var i := TrimSpaces(s, 0);
    var neg := i < |s| && s[i] == '-';
    var j := if i < |s| && (s[i] == '-' || s[i] == '+') then i + 1 else i;
    var (mag, k) := Digits(s, 0, j);
    if k == j then Err("invalid_argument")
    else
      var v := if neg then -(mag as int) else mag as int;
      if -0x8000_0000 <= v < 0x8000_0000 then Ok(v) else Err("out_of_range")
  }

  function TrimSpaces(s: string, i: nat): (j: nat)
    requires i <= |s|
    ensures i <= j <= |s|
    decreases |s| - i
  {
    if i < |s| && Space(s[i]) then TrimSpaces(s, i + 1) else i
  }

  /** `std::to_string` of a natural number. */
  function NatText(n: nat): (r: string)
    ensures |r| > 0 && forall k :: 0 <= k < |r| ==> Digit(r[k])
  {
    if n < 10 then [('0' as int + n) as char] else NatText(n / 10) + [('0' as int + n % 10) as char]
  }

  /** `std::to_string` of an integer. */
  function IntText(n: int): string {
    if n < 0 then "-" + NatText(-n) else NatText(n)
  }

  function Pow10(n: nat): (r: nat)
    ensures r >= 1
  {
    if n == 0 then 1 else 10 * Pow10(n - 1)
  }

  /** The number a string of decimal digits spells, most significant first. */
  function Value(d: string): int {
    if |d| == 0 then 0 else (d[0] as int - '0' as int) * Pow10(|d| - 1) + Value(d[1..])
  }

  lemma {:induction false} ValueSnoc(h: string, c: char)
    ensures Value(h + [c]) == Value(h) * 10 + (c as int - '0' as int)
    decreases |h|
  {
    if |h| > 0 {
      assert (h + [c])[1..] == h[1..] + [c];
      ValueSnoc(h[1..], c);
    }
  }

  lemma {:induction false} ValueOfNatText(n: nat)
    ensures Value(NatText(n)) == n
  {
    if n >= 10 {
      ValueOfNatText(n / 10);
      ValueSnoc(NatText(n / 10), ('0' as int + n % 10) as char);
    }
  }

  /** Reading a run of `m` digits ending at a non-digit (or the end). */
  lemma {:induction false} DigitsOver(t: string, acc: nat, i: nat, m: nat)
    requires i + m <= |t| && forall k :: i <= k < i + m ==> Digit(t[k])
    requires i + m == |t| || !Digit(t[i + m])
    ensures Digits(t, acc, i) == (acc * Pow10(m) + Value(t[i..i + m]), i + m)
    decreases m
  {
    if m > 0 {
      var d := t[i] as int - '0' as int;
      var acc' := acc * 10 + d;
      assert Digits(t, acc, i) == Digits(t, acc', i + 1);
      DigitsOver(t, acc', i + 1, m - 1);
      var w := t[i..i + m];
      assert w[0] == t[i] && w[1..] == t[i + 1..i + m];
      assert Value(w) == d * Pow10(m - 1) + Value(t[i + 1..i + m]);
      Distribute(acc, d, Pow10(m - 1));
    }
  }

  lemma Distribute(a: int, d: int, p: int)
    ensures (a * 10 + d) * p == a * (10 * p) + d * p
  {
  }

  /** `std::stoi` reads back what `std::to_string` wrote, for every `int`. */
  lemma {:induction false} StoiOfIntText(n: int)
    requires -0x8000_0000 <= n < 0x8000_0000
    ensures Stoi(IntText(n)) == Ok(n)
  {
    var s := IntText(n);
    var a: nat := if n < 0 then -n else n;
    var d := NatText(a);
    var j := if n < 0 then 1 else 0;
    assert s[j..] == d && |s| == j + |d|;
    assert s[0] == '-' || Digit(s[0]);
    assert TrimSpaces(s, 0) == 0;
    forall k | j <= k < |s| ensures Digit(s[k]) {
      assert s[k] == d[k - j];
    }
    DigitsOver(s, 0, j, |d|);
    assert s[j..j + |d|] == d;
    ValueOfNatText(a);
  }
}

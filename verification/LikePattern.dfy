/**
 The keyword filter of the affiliate ledger (controller/affiliate.go).

 A keyword is escaped by three successive replacements, wrapped in `%`, and handed to
 SQL as `LIKE ? ESCAPE '!'`.  The matcher below is the LIKE predicate of section 8.5 of
 ISO/IEC 9075-2, written without reference to the escaping.  Comparison of characters goes
 through an arbitrary `fold`, so that the result covers case-insensitive collations too.
 */
module LikePattern {
  import opened Wrappers

  const ESCAPE := '!'

  /** `strings.ReplaceAll` for a one-character needle. */
  function ReplaceAll(s: string, needle: char, with: string): string {
    if s == [] then [] else (if s[0] == needle then with else [s[0]]) + ReplaceAll(s[1..], needle, with)
  }

  /** `escapeAffiliateLedgerLikePattern`: the replacements in the order the source makes them. */
  function Escape(input: string): string {
    ReplaceAll(ReplaceAll(ReplaceAll(input, '!', "!!"), '%', "!%"), '_', "!_")
  }

  /** The pattern bound to the query for a keyword. */
  function KeywordPattern(keyword: string): string {
    "%" + Escape(keyword) + "%"
  }

  // ----- the LIKE predicate -----

  datatype Token = Literal(c: char) | AnyChar | AnyString

  /** Reads a pattern; an escape character must be followed by `%`, `_` or itself. */
  ghost function Parse(p: string): Option<seq<Token>> {
    if p == [] then Some([])
    else if p[0] == ESCAPE then
      if |p| >= 2 && p[1] in {'%', '_', ESCAPE} then Prepend(Literal(p[1]), Parse(p[2..])) else None
    else if p[0] == '%' then Prepend(AnyString, Parse(p[1..]))
    else if p[0] == '_' then Prepend(AnyChar, Parse(p[1..]))
    else Prepend(Literal(p[0]), Parse(p[1..]))
  }

  ghost function Prepend(t: Token, rest: Option<seq<Token>>): Option<seq<Token>> {
    match rest
    case None => None
    case Some(ts) => Some([t] + ts)
  }

  ghost predicate Matches(ts: seq<Token>, x: string, fold: char -> char)
    decreases |ts|
  {
    if ts == [] then x == []
    else match ts[0]
      case Literal(c) => x != [] && fold(x[0]) == fold(c) && Matches(ts[1..], x[1..], fold)
      case AnyChar => x != [] && Matches(ts[1..], x[1..], fold)
      case AnyString => exists k :: 0 <= k <= |x| && Matches(ts[1..], x[k..], fold)
  }

  /** `x LIKE pattern ESCAPE '!'`; `None` is the invalid-escape-sequence exception. */
  ghost function Like(x: string, pattern: string, fold: char -> char): Option<bool> {
    match Parse(pattern)
    case None => None
    case Some(ts) => Some(Matches(ts, x, fold))
  }

  /** What the filter is for: the keyword occurs somewhere in the column. */
  ghost predicate Contains(x: string, s: string, fold: char -> char) {
    exists i :: 0 <= i <= |x| - |s| && OccursAt(x, s, i, fold)
  }

  ghost predicate OccursAt(x: string, s: string, i: nat, fold: char -> char)
    requires i <= |x| - |s|
  {
    forall j :: 0 <= j < |s| ==> fold(x[i + j]) == fold(s[j])
  }

  // ----- the three replacements amount to one per-character escape -----

  predicate Special(c: char) {
    c == '!' || c == '%' || c == '_'
  }

  function EscapeChar(c: char): string {
    if Special(c) then [ESCAPE, c] else [c]
  }

  function EscapeEach(s: string): string {
    if s == [] then [] else EscapeChar(s[0]) + EscapeEach(s[1..])
  }

  lemma {:induction false} ReplaceAllConcat(a: string, b: string, needle: char, with: string)
    ensures ReplaceAll(a + b, needle, with) == ReplaceAll(a, needle, with) + ReplaceAll(b, needle, with)
  {
    if a == [] {
      assert a + b == b;
    } else {
      var first := if a[0] == needle then with else [a[0]];
      var ra, rb := ReplaceAll(a[1..], needle, with), ReplaceAll(b, needle, with);
      assert (a + b)[0] == a[0] && (a + b)[1..] == a[1..] + b;
      ReplaceAllConcat(a[1..], b, needle, with);
      assert first + (ra + rb) == (first + ra) + rb;
    }
  }

  lemma EscapeConcat(a: string, b: string)
    ensures Escape(a + b) == Escape(a) + Escape(b)
  {
    ReplaceAllConcat(a, b, '!', "!!");
    var a1, b1 := ReplaceAll(a, '!', "!!"), ReplaceAll(b, '!', "!!");
    ReplaceAllConcat(a1, b1, '%', "!%");
    ReplaceAllConcat(ReplaceAll(a1, '%', "!%"), ReplaceAll(b1, '%', "!%"), '_', "!_");
  }

  lemma ReplaceOne(c: char, needle: char, with: string)
    ensures ReplaceAll([c], needle, with) == if c == needle then with else [c]
  {
    assert [c][1..] == [];
  }

  lemma ReplaceTwo(c: char, d: char, needle: char, with: string)
    ensures ReplaceAll([c, d], needle, with) == (if c == needle then with else [c]) + (if d == needle then with else [d])
  {
    assert [c, d] == [c] + [d];
    ReplaceAllConcat([c], [d], needle, with);
    ReplaceOne(c, needle, with);
    ReplaceOne(d, needle, with);
  }

  lemma EscapeOne(c: char)
    ensures Escape([c]) == EscapeChar(c)
  {
    ReplaceOne(c, '!', "!!");
    ReplaceOne(c, '%', "!%");
    ReplaceOne(c, '_', "!_");
    ReplaceTwo('!', '!', '%', "!%");
    ReplaceTwo('!', '!', '_', "!_");
    ReplaceTwo('!', '%', '_', "!_");
  }

  /** No replacement disturbs what an earlier one produced. */
  lemma {:induction false} EscapeIsPerCharacter(s: string)
    ensures Escape(s) == EscapeEach(s)
  {
    if s != [] {
      assert s == [s[0]] + s[1..];
      EscapeConcat([s[0]], s[1..]);
      EscapeOne(s[0]);
      EscapeIsPerCharacter(s[1..]);
    }
  }

  // ----- reading the escaped keyword back -----

  function Literals(s: string): (ts: seq<Token>)
    ensures |ts| == |s|
  {
    if s == [] then [] else [Literal(s[0])] + Literals(s[1..])
  }

  lemma ParseEscapedChar(c: char, q: string)
    ensures Parse(EscapeChar(c) + q) == Prepend(Literal(c), Parse(q))
  {
    var p := EscapeChar(c) + q;
    if Special(c) {
      assert p[2..] == q;
    } else {
      assert p[1..] == q;
    }
  }

  /** Round trip: parsing an escaped keyword followed by any `rest` yields the keyword itself, literally. */
  lemma {:induction false} ParseEscaped(s: string, rest: string)
    requires Parse(rest).Some?
    ensures Parse(EscapeEach(s) + rest) == Some(Literals(s) + Parse(rest).value)
  {
    var ts := Parse(rest).value;
    if s == [] {
      assert EscapeEach(s) + rest == rest;
      assert Literals(s) + ts == ts;
    } else {
      var q := EscapeEach(s[1..]) + rest;
      assert EscapeEach(s) + rest == EscapeChar(s[0]) + q;
      ParseEscapedChar(s[0], q);
      ParseEscaped(s[1..], rest);
      assert [Literal(s[0])] + (Literals(s[1..]) + ts) == Literals(s) + ts;
    }
  }

  /** The bound pattern is always well formed and has no wildcard but the two outer ones. */
  lemma ParseKeywordPattern(s: string)
    ensures Parse(KeywordPattern(s)) == Some([AnyString] + (Literals(s) + [AnyString]))
  {
    EscapeIsPerCharacter(s);
    assert "%"[1..] == "";
    assert Parse("%") == Some([AnyString] + []) && [AnyString] + [] == [AnyString];
    ParseEscaped(s, "%");
    var p := KeywordPattern(s);
    assert p[1..] == EscapeEach(s) + "%";
  }

  lemma MatchesTrailingAny(x: string, fold: char -> char)
    ensures Matches([AnyString], x, fold)
  {
    assert [AnyString][1..] == [];
    assert x[|x|..] == [];
    assert Matches([AnyString][1..], x[|x|..], fold);
  }

  lemma {:induction false} MatchesLiteralPrefix(s: string, x: string, fold: char -> char)
    ensures Matches(Literals(s) + [AnyString], x, fold) <==> |s| <= |x| && OccursAt(x, s, 0, fold)
  {
    if s == [] {
      assert Literals(s) + [AnyString] == [AnyString];
      MatchesTrailingAny(x, fold);
    } else if x != [] {
      var ts := Literals(s) + [AnyString];
      assert ts[0] == Literal(s[0]) && ts[1..] == Literals(s[1..]) + [AnyString];
      MatchesLiteralPrefix(s[1..], x[1..], fold);
      if |s| <= |x| && fold(x[0]) == fold(s[0]) && OccursAt(x[1..], s[1..], 0, fold) {
        forall j | 0 <= j < |s| ensures fold(x[0 + j]) == fold(s[j]) {
          if j > 0 {
            assert fold(x[1..][0 + (j - 1)]) == fold(s[1..][j - 1]);
          }
        }
      }
      if |s| <= |x| && OccursAt(x, s, 0, fold) {
        assert fold(x[0 + 0]) == fold(s[0]);
        forall j | 0 <= j < |s[1..]| ensures fold(x[1..][0 + j]) == fold(s[1..][j]) {
          assert fold(x[0 + (j + 1)]) == fold(s[j + 1]);
        }
      }
    } else {
      var ts := Literals(s) + [AnyString];
      assert ts[0] == Literal(s[0]);
    }
  }

  lemma OccursAtShift(x: string, s: string, k: nat, fold: char -> char)
    requires k <= |x| - |s|
    ensures OccursAt(x[k..], s, 0, fold) <==> OccursAt(x, s, k, fold)
  {
    if OccursAt(x[k..], s, 0, fold) {
      forall j | 0 <= j < |s| ensures fold(x[k + j]) == fold(s[j]) {
        assert fold(x[k..][0 + j]) == fold(s[j]);
      }
    }
    if OccursAt(x, s, k, fold) {
      forall j | 0 <= j < |s| ensures fold(x[k..][0 + j]) == fold(s[j]) {
        assert fold(x[k + j]) == fold(s[j]);
      }
    }
  }

  /**
   Meaning is preserved: whatever the keyword, wildcards and escape characters included, the
   query never raises an invalid-escape exception and selects exactly the rows whose column
   contains the keyword.
   */
  lemma KeywordFilterMeansContains(x: string, s: string, fold: char -> char)
    ensures Like(x, KeywordPattern(s), fold) == Some(Contains(x, s, fold))
  {
    ParseKeywordPattern(s);
    var tail := Literals(s) + [AnyString];
    var ts := [AnyString] + tail;
    assert ts[1..] == tail;
    if Matches(ts, x, fold) {
      var k :| 0 <= k <= |x| && Matches(tail, x[k..], fold);
      MatchesLiteralPrefix(s, x[k..], fold);
      OccursAtShift(x, s, k, fold);
      assert Contains(x, s, fold);
    }
    if Contains(x, s, fold) {
      var i :| 0 <= i <= |x| - |s| && OccursAt(x, s, i, fold);
      OccursAtShift(x, s, i, fold);
      MatchesLiteralPrefix(s, x[i..], fold);
      assert Matches(ts[1..], x[i..], fold);
    }
  }
}

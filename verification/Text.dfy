/** The few string operations of Go's `strings` package that the modelled code relies on. */
module Text {

  /** `unicode.IsSpace` */
  predicate IsSpace(c: char) {
    || '\t' <= c <= '\r' || c == ' ' || c == '\U{0085}' || c == '\U{00A0}'
    || c == '\U{1680}' || '\U{2000}' <= c <= '\U{200A}' || c == '\U{2028}' || c == '\U{2029}'
    || c == '\U{202F}' || c == '\U{205F}' || c == '\U{3000}'
  }

  function TrimLeft(s: string, cut: char -> bool): string {
    if s != "" && cut(s[0]) then TrimLeft(s[1..], cut) else s
  }

  function TrimRight(s: string, cut: char -> bool): string {
    if s != "" && cut(s[|s| - 1]) then TrimRight(s[..|s| - 1], cut) else s
  }

  function Trim(s: string, cut: char -> bool): string {
    TrimRight(TrimLeft(s, cut), cut)
  }

  function TrimSpace(s: string): string {
    Trim(s, IsSpace)
  }

  /** `strings.Trim(s, sep)` for a one-character cut set. */
  function TrimSep(s: string, sep: char): string {
    Trim(s, c => c == sep)
  }

  function Join(parts: seq<string>, sep: char): string {
    if parts == [] then ""
    else if |parts| == 1 then parts[0]
    else parts[0] + [sep] + Join(parts[1..], sep)
  }

  function IndexOf(s: string, c: char): (i: nat)
    ensures i <= |s|
    ensures c !in s[..i]
    ensures i < |s| ==> s[i] == c
  {
    if s == "" || s[0] == c then 0
    else
      var i := IndexOf(s[1..], c);
      assert s[..i + 1] == [s[0]] + s[1..][..i];
      i + 1
  }

  /** `strings.Split` */
  function Split(s: string, sep: char): (parts: seq<string>)
    ensures parts != []
    ensures forall p :: p in parts ==> sep !in p
  {
    var i := IndexOf(s, sep);
    if i == |s| then assert s[..i] == s; [s] else [s[..i]] + Split(s[i + 1..], sep)
  }

  /** `HasPrefix` */
  predicate HasPrefix(s: string, prefix: string) {
    prefix <= s
  }

  // ----- trimming -----

  /** Neither end is to be cut. */
  predicate Tight(s: string, cut: char -> bool) {
    s != "" ==> !cut(s[0]) && !cut(s[|s| - 1])
  }

  lemma {:induction false} TrimLeftEnds(s: string, cut: char -> bool)
    ensures var t := TrimLeft(s, cut); t != "" ==> !cut(t[0])
  {
    if s != "" && cut(s[0]) {
      TrimLeftEnds(s[1..], cut);
    }
  }

  lemma {:induction false} TrimRightEnds(s: string, cut: char -> bool)
    requires s != "" ==> !cut(s[0])
    ensures Tight(TrimRight(s, cut), cut)
  {
    if s != "" && cut(s[|s| - 1]) {
      TrimRightEnds(s[..|s| - 1], cut);
    }
  }

  lemma TrimIsTight(s: string, cut: char -> bool)
    ensures Tight(Trim(s, cut), cut)
  {
    TrimLeftEnds(s, cut);
    TrimRightEnds(TrimLeft(s, cut), cut);
  }

  /** Trimming takes off characters of the cut set at both ends, and nothing else. */
  lemma TrimMeaning(s: string, cut: char -> bool) returns (front: string, back: string)
    ensures s == front + Trim(s, cut) + back && Tight(Trim(s, cut), cut)
    ensures (forall i :: 0 <= i < |front| ==> cut(front[i])) && (forall i :: 0 <= i < |back| ==> cut(back[i]))
  {
    front := TrimmedLeft(s, cut);
    back := TrimmedRight(TrimLeft(s, cut), cut);
    assert front + (Trim(s, cut) + back) == front + Trim(s, cut) + back;
    TrimIsTight(s, cut);
  }

  lemma {:induction false} TrimmedLeft(s: string, cut: char -> bool) returns (front: string)
    ensures s == front + TrimLeft(s, cut) && forall i :: 0 <= i < |front| ==> cut(front[i])
  {
    front := "";
    if s != "" && cut(s[0]) {
      var rest := TrimmedLeft(s[1..], cut);
      front := [s[0]] + rest;
    }
  }

  lemma {:induction false} TrimmedRight(s: string, cut: char -> bool) returns (back: string)
    ensures s == TrimRight(s, cut) + back && forall i :: 0 <= i < |back| ==> cut(back[i])
  {
    back := "";
    if s != "" && cut(s[|s| - 1]) {
      var rest := TrimmedRight(s[..|s| - 1], cut);
      back := rest + [s[|s| - 1]];
    }
  }

  lemma TrimOfTight(s: string, cut: char -> bool)
    requires Tight(s, cut)
    ensures Trim(s, cut) == s
  {
  }

  // ----- splitting what was joined -----

  ghost predicate Fields(parts: seq<string>, sep: char) {
    forall p :: p in parts ==> p != "" && sep !in p
  }

  lemma IndexOfFirst(a: string, sep: char, b: string)
    requires sep !in a
    ensures IndexOf(a + [sep] + b, sep) == |a|
  {
    var s := a + [sep] + b;
    assert s[|a|] == sep;
  }

  lemma SplitAtSep(a: string, sep: char, b: string)
    requires sep !in a
    ensures Split(a + [sep] + b, sep) == [a] + Split(b, sep)
  {
    var s := a + [sep] + b;
    IndexOfFirst(a, sep, b);
    assert s[..|a|] == a && s[|a| + 1..] == b;
  }

  lemma SplitWithoutSep(a: string, sep: char)
    requires sep !in a
    ensures Split(a, sep) == [a]
  {
  }

  lemma {:induction false} SplitOfJoin(parts: seq<string>, sep: char)
    requires parts != [] && forall p :: p in parts ==> sep !in p
    ensures Split(Join(parts, sep), sep) == parts
  {
    if |parts| == 1 {
      SplitWithoutSep(parts[0], sep);
    } else {
      SplitAtSep(parts[0], sep, Join(parts[1..], sep));
      SplitOfJoin(parts[1..], sep);
    }
  }

  /** Splitting loses nothing: the parts, joined, are the text again. */
  lemma {:induction false} JoinOfSplit(s: string, sep: char)
    ensures Join(Split(s, sep), sep) == s
  {
    var i := IndexOf(s, sep);
    if i < |s| {
      JoinOfSplit(s[i + 1..], sep);
      assert s == s[..i] + [sep] + s[i + 1..];
      assert Split(s, sep)[1..] == Split(s[i + 1..], sep);
    }
  }

  lemma {:induction false} JoinEnds(parts: seq<string>, sep: char)
    requires parts != [] && Fields(parts, sep)
    ensures var s := Join(parts, sep); s != "" && s[0] != sep && s[|s| - 1] != sep
  {
    assert parts[0] in parts;
    if |parts| > 1 {
      assert forall p :: p in parts[1..] ==> p in parts;
      JoinEnds(parts[1..], sep);
    }
  }

  /** Reading a joined list back, with the trimming that the getters do first. */
  lemma ReadBack(parts: seq<string>, sep: char)
    requires parts != [] && Fields(parts, sep)
    ensures Join(parts, sep) != "" && Split(TrimSep(Join(parts, sep), sep), sep) == parts
  {
    JoinEnds(parts, sep);
    TrimOfTight(Join(parts, sep), c => c == sep);
    SplitOfJoin(parts, sep);
  }
}

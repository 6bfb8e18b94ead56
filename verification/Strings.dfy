/** The string operations of Go's standard library that the parser relies on, over Unicode code points. */
module Strings {
  const NEWLINE: char := '\n'

  /** unicode.IsSpace, the class that strings.TrimSpace strips. */
  predicate IsSpace(c: char) {
    || c in {'\t', '\n', '\U{0B}', '\U{0C}', '\r', ' ', '\U{85}', '\U{A0}', '\U{1680}'}
    || '\U{2000}' <= c <= '\U{200A}'
    || c in {'\U{2028}', '\U{2029}', '\U{202F}', '\U{205F}', '\U{3000}'}
  }

  predicate IsPadding(c: char) {
    c == ' ' || c == '\r'
  }

  predicate IsBlank(c: char) {
    c == ' '
  }

  /** The number of leading characters satisfying p. */
  function Lead(s: string, p: char -> bool): (n: nat)
    ensures n <= |s|
    ensures forall i | 0 <= i < n :: p(s[i])
    ensures n < |s| ==> !p(s[n])
  {
    if s == [] || !p(s[0]) then 0 else 1 + Lead(s[1..], p)
  }

  /** The length of s once its trailing characters satisfying p are gone. */
  function Keep(s: string, p: char -> bool): (n: nat)
    ensures n <= |s|
    ensures forall i | n <= i < |s| :: p(s[i])
    ensures n > 0 ==> !p(s[n - 1])
  {
    if s == [] || !p(s[|s| - 1]) then |s| else Keep(s[..|s| - 1], p)
  }

  function TrimLeft(s: string, p: char -> bool): (t: string)
    ensures |t| <= |s|
  {
    if s == [] || !p(s[0]) then s else TrimLeft(s[1..], p)
  }

  lemma {:induction false} TrimLeftDrops(s: string, p: char -> bool)
    ensures TrimLeft(s, p) == s[Lead(s, p)..]
  {
    if s != [] && p(s[0]) {
      TrimLeftDrops(s[1..], p);
      assert s[1..][Lead(s[1..], p)..] == s[1 + Lead(s[1..], p)..];
    }
  }

  lemma TrimLeftKeeps(s: string, p: char -> bool)
    ensures forall c | c in TrimLeft(s, p) :: c in s
  {
    TrimLeftDrops(s, p);
  }

  function TrimRight(s: string, p: char -> bool): (t: string)
    ensures |t| <= |s|
  {
    s[..Keep(s, p)]
  }

  function TrimSpace(s: string): (t: string)
    ensures |t| <= |s|
  {
    TrimRight(TrimLeft(s, IsSpace), IsSpace)
  }

  /** strings.IndexByte: the first position of c, or -1. */
  function Index(s: string, c: char): (i: int)
    ensures -1 <= i < |s|
    ensures i >= 0 ==> s[i] == c && forall j | 0 <= j < i :: s[j] != c
    ensures i < 0 ==> c !in s
  {
    if s == [] then -1
    else if s[0] == c then 0
    else
      var k := Index(s[1..], c);
      if k < 0 then -1 else k + 1
  }

  /** strings.LastIndexByte: the last position of c, or -1. */
  function LastIndex(s: string, c: char): (i: int)
    ensures -1 <= i < |s|
    ensures i >= 0 ==> s[i] == c && forall j | i < j < |s| :: s[j] != c
    ensures i < 0 ==> c !in s
  {
    if s == [] then -1
    else if s[|s| - 1] == c then |s| - 1
    else LastIndex(s[..|s| - 1], c)
  }

  /** strings.Index(s, " #"): where a trailing comment starts, or -1. */
  function CommentAt(s: string): (i: int)
    ensures -1 <= i < |s|
    ensures i >= 0 ==> i + 1 < |s| && s[i] == ' ' && s[i + 1] == '#'
    ensures forall j | 0 <= j < |s| - 1 && (i < 0 || j < i) :: !(s[j] == ' ' && s[j + 1] == '#')
  {
    if |s| < 2 then -1
    else if s[0] == ' ' && s[1] == '#' then 0
    else
      var k := CommentAt(s[1..]);
      assert forall j | 0 < j < |s| - 1 && (k < 0 || j < k + 1) ::
        !(s[1..][j - 1] == ' ' && s[1..][j] == '#');
      if k < 0 then -1 else k + 1
  }

  predicate HasPrefix(s: string, p: string) {
    p <= s
  }

  /** A string with nothing to trim at either end. */
  predicate Trimmed(s: string) {
    s != "" && !IsSpace(s[0]) && !IsSpace(s[|s| - 1])
  }

  /** strings.TrimSpace leaves nothing to trim, and only drops space at the ends. */
  lemma TrimSpaceTrims(s: string)
    ensures TrimSpace(s) != "" ==> Trimmed(TrimSpace(s))
    ensures TrimSpace(s) == "" <==> forall c | c in s :: IsSpace(c)
    ensures forall c | c in TrimSpace(s) :: c in s
  {
    var u := TrimLeft(s, IsSpace);
    TrimLeftDrops(s, IsSpace);
    assert u == "" <==> Lead(s, IsSpace) == |s|;
    assert TrimSpace(s) == "" <==> u == "";
  }

  lemma TrimSpaceFixes(s: string)
    requires Trimmed(s)
    ensures TrimSpace(s) == s
  {
  }

  /** One blank in front of trimmed text, as printed after a colon or a dash. */
  lemma TrimSpaceDropsBlank(s: string)
    requires Trimmed(s)
    ensures TrimSpace(" " + s) == s
  {
    var t := " " + s;
    assert t[0] == ' ' && t[1] == s[0];
    assert t[1..] == s;
    assert TrimLeft(t, IsSpace) == TrimLeft(s, IsSpace) == s;
  }

  lemma KeepExact(s: string, p: char -> bool, n: nat)
    requires n <= |s|
    requires forall i | n <= i < |s| :: p(s[i])
    requires n > 0 ==> !p(s[n - 1])
    ensures Keep(s, p) == n
  {
  }

  lemma LeadExact(s: string, p: char -> bool, n: nat)
    requires n <= |s|
    requires forall i | 0 <= i < n :: p(s[i])
    requires n < |s| ==> !p(s[n])
    ensures Lead(s, p) == n
  {
  }

  predicate AllSpace(s: string) {
    forall i | 0 <= i < |s| :: IsSpace(s[i])
  }

  lemma {:induction false} LeadIsSpace(s: string) returns (before: string)
    ensures s == before + TrimLeft(s, IsSpace) && AllSpace(before)
    decreases |s|
  {
    if s == "" || !IsSpace(s[0]) {
      before := "";
    } else {
      var more := LeadIsSpace(s[1..]);
      before := [s[0]] + more;
      assert s == [s[0]] + s[1..];
    }
  }

  lemma RestIsSpace(u: string) returns (after: string)
    ensures u == TrimRight(u, IsSpace) + after && AllSpace(after)
  {
    after := u[Keep(u, IsSpace)..];
  }

  /** What strings.TrimSpace strips at both ends. */
  lemma TrimIsMiddle(s: string) returns (before: string, after: string)
    ensures s == before + (TrimSpace(s) + after) && AllSpace(before) && AllSpace(after)
  {
    before := LeadIsSpace(s);
    after := RestIsSpace(TrimLeft(s, IsSpace));
  }

  /** The text without space around it, stated on the characters. */
  ghost predicate TrimsTo(s: string, t: string) {
    && (t == "" || Trimmed(t))
    && exists before, after :: AllSpace(before) && AllSpace(after) && s == before + (t + after)
  }

  lemma {:induction false} SpaceTrims(before: string, rest: string)
    requires AllSpace(before)
    ensures TrimLeft(before + rest, IsSpace) == TrimLeft(rest, IsSpace)
    decreases |before|
  {
    if before == "" {
      assert before + rest == rest;
    } else {
      assert (before + rest)[0] == before[0] && (before + rest)[1..] == before[1..] + rest;
      SpaceTrims(before[1..], rest);
    }
  }

  lemma TrimsBack(t: string, after: string)
    requires Trimmed(t) && AllSpace(after)
    ensures TrimRight(t + after, IsSpace) == t && TrimLeft(t + after, IsSpace) == t + after
  {
    KeepExact(t + after, IsSpace, |t|);
    assert (t + after)[..|t|] == t;
  }

  lemma TrimSpaceExactly(s: string, t: string)
    ensures TrimSpace(s) == t <==> TrimsTo(s, t)
  {
    if TrimSpace(s) == t {
      TrimSpaceTrims(s);
      var before, after := TrimIsMiddle(s);
    }
    if TrimsTo(s, t) {
      var before, after :| AllSpace(before) && AllSpace(after) && s == before + (t + after);
      SpaceTrims(before, t + after);
      if t == "" {
        TrimSpaceTrims(s);
        assert forall c | c in s :: IsSpace(c);
      } else {
        TrimsBack(t, after);
      }
    }
  }

  function JoinLines(ls: seq<string>): string
    requires ls != []
  {
    if |ls| == 1 then ls[0] else ls[0] + [NEWLINE] + JoinLines(ls[1..])
  }

  /** strings.Split(text, "\n"): at least one line, none holding a newline. */
  function SplitLines(text: string): (ls: seq<string>)
    ensures ls != []
    ensures forall l | l in ls :: NEWLINE !in l
    ensures JoinLines(ls) == text
  {
    var i := Index(text, NEWLINE);
    if i < 0 then [text]
    else
      var tail := SplitLines(text[i + 1..]);
      assert text == text[..i] + [NEWLINE] + text[i + 1..];
      [text[..i]] + tail
  }

  /** A separator that is not in the text before it splits there. */
  lemma FirstOf(head: string, c: char, tail: string)
    requires c !in head
    ensures var text := head + [c] + tail;
      && Index(text, c) == |head|
      && text[..|head|] == head
      && text[|head| + 1..] == tail
  {
    var text := head + [c] + tail;
    assert text[|head|] == c;
    assert forall i | 0 <= i < |head| :: text[i] == head[i];
  }

  lemma {:induction false} SplitUndoesJoin(ls: seq<string>)
    requires ls != []
    requires forall l | l in ls :: NEWLINE !in l
    ensures SplitLines(JoinLines(ls)) == ls
  {
    if |ls| > 1 {
      var tail := JoinLines(ls[1..]);
      FirstOf(ls[0], NEWLINE, tail);
      SplitUndoesJoin(ls[1..]);
      assert SplitLines(JoinLines(ls)) == [ls[0]] + SplitLines(tail);
      assert ls == [ls[0]] + ls[1..];
    } else {
      assert NEWLINE !in ls[0];
      assert ls == [ls[0]];
    }
  }

  /** k blanks. */
  function Blanks(k: nat): (s: string)
    ensures |s| == k && forall c | c in s :: c == ' '
  {
    seq(k, _ => ' ')
  }
}

/**
 The lexer, line by line and as a whole, stated on the characters of the lines: which lines it drops, which
 it takes for a document marker, and what it keeps of the others.
 */
module YamlLex {
  import opened Strings
  import opened Yaml

  predicate PaddingFrom(s: string, from: nat) {
    forall i | from <= i < |s| :: s[i] == ' ' || s[i] == '\r'
  }

  predicate BlankTo(s: string, to: nat)
    requires to <= |s|
  {
    forall i | 0 <= i < to :: s[i] == ' '
  }

  /** A comment that has the line to itself. */
  ghost predicate IsComment(raw: string) {
    exists k | 0 <= k < |raw| :: raw[k] == '#' && BlankTo(raw, k)
  }

  /** The line says nothing. */
  ghost predicate IsSilent(raw: string) {
    PaddingFrom(raw, 0) || IsComment(raw)
  }

  /** The line is the text, so many columns in, with nothing but padding behind it. */
  predicate Shows(raw: string, indent: nat, text: string) {
    && text != "" && text[0] != ' ' && text[|text| - 1] != ' ' && text[|text| - 1] != '\r'
    && indent + |text| <= |raw|
    && BlankTo(raw, indent)
    && raw[indent..indent + |text|] == text
    && PaddingFrom(raw, indent + |text|)
  }

  ghost predicate IsMarker(raw: string) {
    exists k: nat :: Shows(raw, k, "---")
  }

  predicate ShowsContent(raw: string, indent: nat, text: string) {
    Shows(raw, indent, text) && text[0] != '#' && text != "---"
  }

  // ---------------------------------------------------------------- one line

  /** Where the padding begins and the indentation ends. */
  predicate Bounds(raw: string, a: nat, n: nat) {
    && a <= n <= |raw| && PaddingFrom(raw, n) && BlankTo(raw, a)
    && (n > 0 ==> raw[n - 1] != ' ' && raw[n - 1] != '\r')
    && (a < n ==> raw[a] != ' ')
  }

  lemma Trimmings(raw: string) returns (a: nat, n: nat)
    ensures Bounds(raw, a, n)
    ensures TrimRight(raw, IsPadding) == raw[..n] && TrimLeft(raw[..n], IsBlank) == raw[a..n]
  {
    n := Keep(raw, IsPadding);
    a := Lead(raw[..n], IsBlank);
    TrimLeftDrops(raw[..n], IsBlank);
    assert raw[..n][a..] == raw[a..n];
    assert forall i | 0 <= i < n :: raw[..n][i] == raw[i];
  }

  lemma SilentExactly(raw: string, a: nat, n: nat)
    requires Bounds(raw, a, n)
    ensures IsSilent(raw) <==> a == n || raw[a] == '#'
  {
  }

  lemma ShowsExactly(raw: string, a: nat, n: nat, indent: nat, text: string)
    requires Bounds(raw, a, n)
    ensures Shows(raw, indent, text) <==> a < n && indent == a && text == raw[a..n]
  {
    if Shows(raw, indent, text) {
      assert raw[indent..indent + |text|][0] == raw[indent];
      assert raw[indent..indent + |text|][|text| - 1] == raw[indent + |text| - 1];
    }
  }

  lemma PrefixHasNoTab(raw: string, a: nat, n: nat)
    requires Bounds(raw, a, n)
    ensures '\t' !in raw[..n][..a]
  {
  }

  /**
   A line is dropped exactly if it is blank or a comment of its own, taken for a marker exactly if it shows
   three dashes, and otherwise kept as the text it shows, at its column.
   */
  lemma LexLineExactly(raw: string, indent: nat, text: string)
    ensures LexLine(raw).Skip? <==> IsSilent(raw)
    ensures LexLine(raw).Marker? <==> IsMarker(raw)
    ensures LexLine(raw) == Content(indent, text, false) <==> ShowsContent(raw, indent, text)
    ensures LexLine(raw).Content? ==> !LexLine(raw).tabbed
  {
    var a, n := Trimmings(raw);
    SilentExactly(raw, a, n);
    PrefixHasNoTab(raw, a, n);
    ShowsExactly(raw, a, n, indent, text);
    ShowsExactly(raw, a, n, a, "---");
    forall k: nat | Shows(raw, k, "---") ensures k == a {
      ShowsExactly(raw, a, n, k, "---");
    }
  }

  // ---------------------------------------------------------------- the whole text

  /** The line has something to say to the parser. */
  ghost predicate HasContent(raw: string) {
    !IsSilent(raw) && !IsMarker(raw)
  }

  /** The lexed line is what its raw line shows. */
  predicate Tells(raws: seq<string>, line: Line) {
    1 <= line.lineNo <= |raws| && ShowsContent(raws[line.lineNo - 1], line.indent, line.content)
  }

  ghost predicate IsListed(ls: seq<Line>, lineNo: nat) {
    exists i | 0 <= i < |ls| :: ls[i].lineNo == lineNo
  }

  /** The lines are those with content, each at its number, in order. */
  ghost predicate Lists(ls: seq<Line>, raws: seq<string>) {
    && (forall i | 0 <= i < |ls| :: Tells(raws, ls[i]))
    && (forall i, j | 0 <= i < j < |ls| :: ls[i].lineNo < ls[j].lineNo)
    && (forall k | 0 <= k < |raws| && HasContent(raws[k]) :: IsListed(ls, k + 1))
  }

  /** A marker behind a line with content would start a second document. */
  ghost predicate MarkedAt(raws: seq<string>, k: nat) {
    k < |raws| && IsMarker(raws[k]) && exists j | 0 <= j < k :: HasContent(raws[j])
  }

  ghost predicate OneDocument(raws: seq<string>) {
    forall k | 0 <= k < |raws| :: !MarkedAt(raws, k)
  }

  /** What one more raw line adds to the outcome. */
  function Added(r: Outcome<seq<Line>>, raw: string, lineNo: nat): Outcome<seq<Line>> {
    var ls :- r;
    match LexLine(raw)
    case Skip => Ok(ls)
    case Marker => if ls != [] then Err(lineNo, MultiDocument) else Ok(ls)
    case Content(indent, text, tabbed) =>
      if tabbed then Err(lineNo, TabIndent) else Ok(ls + [Line(indent, text, lineNo)])
  }

  lemma {:induction false} LexSnoc(raws: seq<string>, raw: string, n: nat, acc: seq<Line>)
    ensures LexFrom(raws + [raw], n, acc) == Added(LexFrom(raws, n, acc), raw, n + |raws| + 1)
    decreases |raws|
  {
    if raws == [] {
      assert raws + [raw] == [raw] && [raw][1..] == [];
    } else {
      assert (raws + [raw])[0] == raws[0] && (raws + [raw])[1..] == raws[1..] + [raw];
      var l := LexLine(raws[0]);
      if l.Content? && !l.tabbed {
        LexSnoc(raws[1..], raw, n + 1, acc + [Line(l.indent, l.text, n + 1)]);
      } else if l.Skip? || (l.Marker? && acc == []) {
        LexSnoc(raws[1..], raw, n + 1, acc);
      }
    }
  }

  /** What the outcome says about the raw lines. */
  ghost predicate Accounts(r: Outcome<seq<Line>>, raws: seq<string>) {
    match r
    case Ok(ls) => OneDocument(raws) && Lists(ls, raws)
    case Err(n, f) => f == MultiDocument && n > 0 && MarkedAt(raws, n - 1) && OneDocument(raws[..n - 1])
    case Crash => false
  }

  lemma ListedContent(ls: seq<Line>, raws: seq<string>)
    requires Lists(ls, raws)
    ensures ls != [] <==> exists j | 0 <= j < |raws| :: HasContent(raws[j])
  {
    if ls != [] {
      var j := ls[0].lineNo - 1;
      assert Tells(raws, ls[0]);
      LexLineExactly(raws[j], ls[0].indent, ls[0].content);
      assert HasContent(raws[j]);
    }
  }

  lemma ListsMore(ls: seq<Line>, raws: seq<string>, raw: string)
    requires Lists(ls, raws)
    ensures LexLine(raw).Content? ==>
      Lists(ls + [Line(LexLine(raw).indent, LexLine(raw).text, |raws| + 1)], raws + [raw])
    ensures !LexLine(raw).Content? ==> Lists(ls, raws + [raw])
  {
    var more, l := raws + [raw], LexLine(raw);
    forall i | 0 <= i < |ls| ensures Tells(more, ls[i]) {
      assert Tells(raws, ls[i]);
    }
    LexLineExactly(raw, if l.Content? then l.indent else 0, if l.Content? then l.text else "");
    var longer := if l.Content? then ls + [Line(l.indent, l.text, |raws| + 1)] else ls;
    forall k | 0 <= k < |more| && HasContent(more[k]) ensures IsListed(longer, k + 1) {
      if k < |raws| {
        assert HasContent(raws[k]);
        var i :| 0 <= i < |ls| && ls[i].lineNo == k + 1;
        assert longer[i].lineNo == k + 1;
      } else {
        assert longer[|ls|].lineNo == k + 1;
      }
    }
  }

  lemma MarkedMore(raws: seq<string>, raw: string, k: nat)
    requires k < |raws|
    ensures MarkedAt(raws + [raw], k) <==> MarkedAt(raws, k)
  {
    assert forall j | 0 <= j <= k :: (raws + [raw])[j] == raws[j];
  }

  lemma MarkedLast(raws: seq<string>, raw: string)
    ensures MarkedAt(raws + [raw], |raws|) <==> IsMarker(raw) && exists j | 0 <= j < |raws| :: HasContent(raws[j])
  {
    assert forall j | 0 <= j < |raws| :: (raws + [raw])[j] == raws[j];
  }

  lemma OneDocumentMore(raws: seq<string>, raw: string)
    ensures OneDocument(raws + [raw]) <==> OneDocument(raws) && !MarkedAt(raws + [raw], |raws|)
  {
    forall k: nat | k < |raws| ensures MarkedAt(raws + [raw], k) <==> MarkedAt(raws, k) {
      MarkedMore(raws, raw, k);
    }
  }

  lemma AccountsMore(r: Outcome<seq<Line>>, raws: seq<string>, raw: string)
    requires Accounts(r, raws)
    ensures Accounts(Added(r, raw, |raws| + 1), raws + [raw])
  {
    LexLineExactly(raw, 0, "");
    if r.Ok? {
      ListsMore(r.value, raws, raw);
      ListedContent(r.value, raws);
      MarkedLast(raws, raw);
      OneDocumentMore(raws, raw);
      assert (raws + [raw])[..|raws|] == raws;
    } else {
      MarkedMore(raws, raw, r.line - 1);
      assert (raws + [raw])[..r.line - 1] == raws[..r.line - 1];
    }
  }

  lemma AccountsAdded(r: Outcome<seq<Line>>, more: Outcome<seq<Line>>, raws: seq<string>, raw: string)
    requires Accounts(r, raws) && more == Added(r, raw, |raws| + 1)
    ensures Accounts(more, raws + [raw])
  {
    AccountsMore(r, raws, raw);
  }

  lemma NothingToLex()
    ensures Accounts(LexFrom([], 0, []), [])
  {
  }

  lemma AccountsForNext(raws: seq<string>, raw: string)
    requires Accounts(LexFrom(raws, 0, []), raws)
    ensures Accounts(LexFrom(raws + [raw], 0, []), raws + [raw])
  {
    LexSnoc(raws, raw, 0, []);
    AccountsAdded(LexFrom(raws, 0, []), LexFrom(raws + [raw], 0, []), raws, raw);
  }

  /**
   The lexer keeps exactly the lines with content, in order and numbered as they stand, unless a marker
   follows one of them; then it fails, at the first such marker.
   */
  lemma {:induction false} LexExactly(raws: seq<string>)
    ensures Accounts(LexFrom(raws, 0, []), raws)
    decreases |raws|
  {
    if raws == [] {
      NothingToLex();
    } else {
      var init, last := raws[..|raws| - 1], raws[|raws| - 1];
      LexExactly(init);
      AccountsForNext(init, last);
      assert raws == init + [last];
    }
  }
}

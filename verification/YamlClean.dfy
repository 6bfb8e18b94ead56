/** Printed text, lexed: the lines come back as they were printed, numbered. */
module YamlClean {
  import opened Strings
  import opened Yaml
  import opened YamlLayout
  import opened YamlPrint
  import opened YamlSteps

  /** Content the lexer takes as it stands: not a comment, not a marker, no blanks to strip. */
  predicate Clean(c: string) {
    && c != "" && c[0] != ' ' && c[0] != '#' && c != "---"
    && !IsPadding(c[|c| - 1])
    && NEWLINE !in c
  }

  ghost predicate AllClean(ls: seq<Line>) {
    forall i | 0 <= i < |ls| :: Clean(ls[i].content)
  }

  lemma InlineHasNoNewline(value: Layout)
    requires Printable(value)
    ensures NEWLINE !in Inline(value)
  {
  }

  lemma EntryClean(style: Style, key: string, value: Layout)
    requires KeyOk(style, key) && Printable(value)
    ensures Clean(Styled(style, key) + ":" + AfterColon(value))
  {
    EntryIsNoDash(style, key, AfterColon(value));
    InlineIsTrimmed(value);
    InlineHasNoNewline(value);
    var s := Styled(style, key) + ":" + AfterColon(value);
    StyledIsTrimmed(style, key);
    if Inline(value) != "" {
      assert s[|s| - 1] == Inline(value)[|Inline(value)| - 1];
    }
  }

  lemma DashClean(body: string)
    requires body != "" && !IsPadding(body[|body| - 1]) && NEWLINE !in body
    ensures Clean("- " + body)
  {
    var s := "- " + body;
    assert s[1] == ' ' && s[|s| - 1] == body[|body| - 1];
  }

  lemma {:induction false} PrintClean(l: Layout, indent: nat)
    requires Printable(l)
    ensures AllClean(Print(l, indent))
    decreases l, 2
  {
    match l
    case Mapping(es) => EntriesClean(es, indent);
    case Sequence(items) => ItemsClean(items, indent);
    case _ =>
  }

  lemma {:induction false} EntriesClean(es: Entries, indent: nat)
    requires PrintableEntries(es)
    ensures AllClean(PrintEntries(es, indent))
    decreases es, 2
  {
    if es.Entry? {
      EntryClean(es.style, es.key, es.value);
      PrintClean(es.value, indent + es.gap);
      EntriesClean(es.more, indent);
    }
  }

  lemma {:induction false} ItemsClean(items: Items, indent: nat)
    requires PrintableItems(items)
    ensures AllClean(PrintItems(items, indent))
    decreases items, 1
  {
    if items.Item? {
      var v := items.value;
      if !IsBlock(v) {
        InlineIsTrimmed(v);
        InlineHasNoNewline(v);
        DashClean(Inline(v));
      } else if items.onDashLine {
        PrintClean(v, indent + 2);
        BlockHead(v, indent + 2);
        DashClean(Print(v, indent + 2)[0].content);
      } else {
        PrintClean(v, indent + 2 + items.gap);
      }
      ItemsClean(items.more, indent);
    }
  }

  lemma CleanLexes(line: Line)
    requires Clean(line.content)
    ensures LexLine(RawLine(line)) == Content(line.indent, line.content, false)
  {
    var c := line.content;
    KeepExact(c, IsPadding, |c|);
    LeadExact(c, IsBlank, 0);
    assert c[..|c|] == c && c[0..] == c && c[..0] == "";
    IndentShifts(c, line.indent);
  }

  /** The lines as the lexer numbers them, n lines into the document. */
  function Numbered(ls: seq<Line>, n: nat): (r: seq<Line>)
    ensures Shifted(ls, r, 0)
  {
    if ls == [] then [] else [Line(ls[0].indent, ls[0].content, n + 1)] + Numbered(ls[1..], n + 1)
  }

  /** Clean lines lex back to themselves, numbered. */
  lemma {:induction false} CleanLinesLex(ls: seq<Line>, raws: seq<string>, n: nat, acc: seq<Line>)
    requires AllClean(ls)
    requires |raws| == |ls| && forall i | 0 <= i < |ls| :: raws[i] == RawLine(ls[i])
    ensures LexFrom(raws, n, acc) == Ok(acc + Numbered(ls, n))
    decreases |ls|
  {
    if ls == [] {
      assert acc + Numbered(ls, n) == acc;
    } else {
      CleanLexes(ls[0]);
      var head := Line(ls[0].indent, ls[0].content, n + 1);
      CleanLinesLex(ls[1..], raws[1..], n + 1, acc + [head]);
      Regroup(acc, [head], Numbered(ls[1..], n + 1));
    }
  }

  lemma BlanksHaveNoNewline(line: Line)
    requires Clean(line.content)
    ensures NEWLINE !in RawLine(line)
  {
    assert NEWLINE !in Blanks(line.indent);
  }

  lemma CleanTextLexes(ls: seq<Line>)
    requires ls != [] && AllClean(ls)
    ensures Lex(JoinLines(RawLines(ls))) == Ok(Numbered(ls, 0))
  {
    forall r | r in RawLines(ls) ensures NEWLINE !in r {
      var i :| 0 <= i < |ls| && r == RawLine(ls[i]);
      BlanksHaveNoNewline(ls[i]);
    }
    SplitUndoesJoin(RawLines(ls));
    CleanLinesLex(ls, RawLines(ls), 0, []);
    assert [] + Numbered(ls, 0) == Numbered(ls, 0);
  }

  lemma PrintedLexes(l: Layout, indent: nat)
    requires IsBlock(l) && Printable(l)
    ensures Lex(PrintText(l, indent)).Ok? && Shifted(Print(l, indent), Lex(PrintText(l, indent)).value, 0)
  {
    BlockHead(l, indent);
    PrintClean(l, indent);
    CleanTextLexes(Print(l, indent));
  }
}

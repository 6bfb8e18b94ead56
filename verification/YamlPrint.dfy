/**
 Printing trees as block YAML. A Layout is a tree together with every choice its block layout leaves
 open: the order of the keys, quoting, how deep children stand, and whether the items of a sequence
 open on the dash line.
 */
module YamlPrint {
  import opened Strings
  import opened Yaml
  import opened YamlLayout
  import opened YamlSteps

  datatype Style = Quoted(quote: char) | Plain

  datatype Layout =
    | Null                                // `key:` with nothing after it
    | Text(style: Style, text: string)
    | EmptyMap                            // {}
    | EmptySeq                            // []
    | OnLine(text: string, tree: Node)    // any other text that the scalar reader takes for this tree
    | Mapping(entries: Entries)
    | Sequence(items: Items)

  datatype Entries = NoEntry | Entry(key: string, style: Style, gap: nat, value: Layout, more: Entries)

  datatype Items = NoItem | Item(onDashLine: bool, gap: nat, value: Layout, more: Items)

  // ---------------------------------------------------------------- the tree of a layout

  function Tree(l: Layout): Node {
    match l
    case Null => Str("")
    case Text(_, text) => Str(text)
    case EmptyMap => Map(map[])
    case EmptySeq => Seq([])
    case OnLine(_, tree) => tree
    case Mapping(es) => Map(TreeEntries(es))
    case Sequence(items) => Seq(TreeItems(items))
  }

  function TreeEntries(es: Entries): map<string, Node> {
    match es
    case NoEntry => map[]
    case Entry(key, _, _, value, more) => TreeEntries(more)[key := Tree(value)]
  }

  function TreeItems(items: Items): seq<Node> {
    match items
    case NoItem => []
    case Item(_, _, value, more) => [Tree(value)] + TreeItems(more)
  }

  // ---------------------------------------------------------------- printing

  predicate IsBlock(l: Layout) {
    l.Mapping? || l.Sequence?
  }

  function Styled(style: Style, text: string): string {
    if style.Quoted? then [style.quote] + text + [style.quote] else text
  }

  /** The text of a value that stands on the line of its key or dash. */
  function Inline(l: Layout): string {
    match l
    case Text(style, text) => Styled(style, text)
    case EmptyMap => "{}"
    case EmptySeq => "[]"
    case OnLine(text, _) => text
    case _ => ""
  }

  function AfterColon(l: Layout): string {
    if Inline(l) == "" then "" else " " + Inline(l)
  }

  function EntryLine(key: string, style: Style, value: Layout, indent: nat): Line {
    Line(indent, Styled(style, key) + ":" + AfterColon(value), 0)
  }

  function Print(l: Layout, indent: nat): seq<Line>
    decreases l, 2
  {
    match l
    case Mapping(es) => PrintEntries(es, indent)
    case Sequence(items) => PrintItems(items, indent)
    case _ => []
  }

  function PrintEntries(es: Entries, indent: nat): seq<Line>
    decreases es, 2
  {
    match es
    case NoEntry => []
    case Entry(key, style, gap, value, more) =>
      [EntryLine(key, style, value, indent)] + Print(value, indent + gap) + PrintEntries(more, indent)
  }

  function PrintItem(items: Items, indent: nat): seq<Line>
    requires items.Item?
    decreases items, 0
  {
    var v := items.value;
    if !IsBlock(v) then [Line(indent, "- " + Inline(v), 0)]
    else if items.onDashLine then OnDash(Print(v, indent + 2), indent)
    else [Line(indent, "-", 0)] + Print(v, indent + 2 + items.gap)
  }

  function PrintItems(items: Items, indent: nat): seq<Line>
    decreases items, 1
  {
    if items.NoItem? then [] else PrintItem(items, indent) + PrintItems(items.more, indent)
  }

  function RawLine(line: Line): string {
    Blanks(line.indent) + line.content
  }

  function RawLines(ls: seq<Line>): seq<string> {
    seq(|ls|, i requires 0 <= i < |ls| => RawLine(ls[i]))
  }

  function PrintText(l: Layout, indent: nat): string {
    var ls := Print(l, indent);
    if ls == [] then "" else JoinLines(RawLines(ls))
  }

  // ---------------------------------------------------------------- what can be printed

  /** A value that needs no quotes after `key: `. */
  predicate PlainValue(t: string) {
    && Trimmed(t)
    && NEWLINE !in t
    && t[0] !in {'{', '[', '&', '*', '|', '>', '"', '\''}
    && CommentAt(t) < 0
  }

  /** One kind of quote is free to enclose the text. */
  predicate Quotable(text: string) {
    '"' !in text || '\'' !in text
  }

  /** The text can stand on a line, in quotes or plain. */
  predicate Writable(text: string) {
    NEWLINE !in text && (Quotable(text) || PlainValue(text))
  }

  predicate TextOk(style: Style, text: string) {
    if style.Quoted? then IsQuote(style.quote) && style.quote !in text && NEWLINE !in text else PlainValue(text)
  }

  /** Keys hold no colon, since the first colon of a line always ends its key. */
  predicate KeyOk(style: Style, key: string) {
    && key != "" && ':' !in key && NEWLINE !in key
    && if style.Quoted? then IsQuote(style.quote)
       else Trimmed(key) && key[0] !in {'#', '-', '"', '\'', '[', '{'}
  }

  function Keys(es: Entries): set<string> {
    match es
    case NoEntry => {}
    case Entry(key, _, _, _, more) => {key} + Keys(more)
  }

  ghost predicate Printable(l: Layout) {
    match l
    case Text(style, text) => TextOk(style, text)
    case OnLine(text, tree) => Trimmed(text) && NEWLINE !in text && ReadsAs(text, tree)
    case Mapping(es) => es.Entry? && PrintableEntries(es)
    case Sequence(items) => items.Item? && PrintableItems(items)
    case _ => true
  }

  ghost predicate PrintableEntries(es: Entries) {
    match es
    case NoEntry => true
    case Entry(key, style, gap, value, more) =>
      && KeyOk(style, key) && key !in Keys(more)
      && Printable(value)
      && (value.Mapping? ==> gap > 0)
      && PrintableEntries(more)
  }

  ghost predicate PrintableItems(items: Items) {
    match items
    case NoItem => true
    case Item(onDashLine, gap, value, more) =>
      && Printable(value) && !value.Null?
      && (value.Text? && value.style.Plain? ==> ':' !in value.text)
      && (value.OnLine? ==> !OpensMapping(value.text))
      && (IsBlock(value) && onDashLine ==> value.Mapping? && value.entries.style.Plain?)
      && PrintableItems(more)
  }

  // ---------------------------------------------------------------- one line

  lemma QuotedIsTrimmed(q: char, text: string)
    requires IsQuote(q)
    ensures Trimmed([q] + text + [q])
  {
    var s := [q] + text + [q];
    assert s[0] == q && s[|s| - 1] == q;
  }

  lemma StyledIsTrimmed(style: Style, text: string)
    requires TextOk(style, text) || KeyOk(style, text)
    ensures Trimmed(Styled(style, text))
  {
    if style.Quoted? {
      QuotedIsTrimmed(style.quote, text);
    }
  }

  lemma UnquoteStyled(style: Style, key: string)
    requires KeyOk(style, key)
    ensures Unquote(TrimSpace(Styled(style, key))) == key
  {
    StyledIsTrimmed(style, key);
    TrimSpaceFixes(Styled(style, key));
    if style.Quoted? {
      var s := Styled(style, key);
      assert s[0] == style.quote && s[|s| - 1] == style.quote;
      assert s[1..|s| - 1] == key;
    }
  }

  lemma ColonSplits(s: string, head: string, tail: string, key: string, rest: string, n: nat)
    requires Index(s, ':') == |head| && s[..|head|] == head && s[|head| + 1..] == tail
    requires tail == "" || tail[0] == ' '
    requires Unquote(TrimSpace(head)) == key && key != "" && TrimSpace(tail) == rest
    ensures SplitKeyValue(s, n) == Ok((key, rest))
  {
  }

  lemma InlineIsTrimmed(value: Layout)
    requires Printable(value)
    ensures Inline(value) == "" || Trimmed(Inline(value))
    ensures !IsBlock(value) && !value.Null? ==> Inline(value) != ""
  {
    if value.Text? {
      StyledIsTrimmed(value.style, value.text);
    }
  }

  /** The first colon of a printed entry is the one after its key. */
  lemma EntrySplits(style: Style, key: string, value: Layout, n: nat)
    requires KeyOk(style, key) && Printable(value)
    ensures SplitKeyValue(Styled(style, key) + ":" + AfterColon(value), n) == Ok((key, Inline(value)))
  {
    var k, tail := Styled(style, key), AfterColon(value);
    FirstOf(k, ':', tail);
    UnquoteStyled(style, key);
    InlineIsTrimmed(value);
    if tail != "" {
      TrimSpaceDropsBlank(Inline(value));
    }
    ColonSplits(k + ":" + tail, k, tail, key, Inline(value), n);
  }

  lemma QuotedReads(text: string, q: char, n: nat)
    requires IsQuote(q) && q !in text
    ensures ParseQuoted([q] + text + [q], n) == Ok(Str(text))
  {
    var s := [q] + text + [q];
    FirstOf(text, q, "");
    assert s[1..] == text + [q] + "";
    assert s[1..1 + |text|] == text && s[2 + |text|..] == "";
  }

  lemma EmptyBody(open: char, close: char, n: nat)
    requires open != close && !IsSpace(open) && !IsSpace(close)
    ensures TrimSpace([open, close]) == [open, close]
    ensures FlowInner([open, close], open, close, n) == Ok("")
  {
    var s := [open, close];
    TrimSpaceFixes(s);
    assert LastIndex(s, close) == 1;
    assert s[1..1] == "" && s[2..] == "";
  }

  lemma NoParts(n: nat, m: map<string, Node>, acc: seq<Node>)
    ensures ParseFlowMap(SplitFlowParts(""), n, m) == Ok(Map(m))
    ensures ParseFlowSeq(SplitFlowParts(""), n, acc) == Ok(Seq(acc))
  {
    assert SplitFlowParts("") == [""];
    assert [""][1..] == [];
  }

  lemma EmptyReads(value: Layout, n: nat)
    requires value.EmptyMap? || value.EmptySeq?
    ensures ParseScalar(Inline(value), n) == Ok(Tree(value))
  {
    NoParts(n, map[], []);
    if value.EmptyMap? {
      EmptyBody('{', '}', n);
      assert Inline(value) == ['{', '}'];
    } else {
      EmptyBody('[', ']', n);
      assert Inline(value) == ['[', ']'];
    }
  }

  lemma TextReads(style: Style, text: string, n: nat)
    requires TextOk(style, text)
    ensures ParseScalar(Styled(style, text), n) == Ok(Str(text))
  {
    var s := Styled(style, text);
    StyledIsTrimmed(style, text);
    TrimSpaceFixes(s);
    if style.Quoted? {
      QuotedReads(text, style.quote, n);
    }
  }

  lemma InlineReads(value: Layout, n: nat)
    requires Printable(value) && !IsBlock(value) && !value.Null?
    ensures ParseScalar(Inline(value), n) == Ok(Tree(value))
  {
    if value.Text? {
      TextReads(value.style, value.text, n);
    } else if value.EmptyMap? || value.EmptySeq? {
      EmptyReads(value, n);
    }
  }

  /** The body after the dash of an item on one line is read as a scalar. */
  lemma ItemIsScalar(value: Layout)
    requires Printable(value) && !IsBlock(value) && !value.Null?
    requires value.Text? && value.style.Plain? ==> ':' !in value.text
    requires value.OnLine? ==> !OpensMapping(value.text)
    ensures Inline(value) != "" && !OpensMapping(Inline(value))
  {
    InlineIsTrimmed(value);
  }

  lemma EntryIsNoDash(style: Style, key: string, tail: string)
    requires KeyOk(style, key)
    ensures var s := Styled(style, key) + ":" + tail;
      && s != "" && s[0] == Styled(style, key)[0] && ':' in s
      && s[0] != '-' && !IsDash(s)
  {
    StyledIsTrimmed(style, key);
    var s := Styled(style, key) + ":" + tail;
    assert s[0] == Styled(style, key)[0];
    assert s[|Styled(style, key)|] == ':';
  }

  // ---------------------------------------------------------------- first lines

  lemma EntriesHead(es: Entries, indent: nat)
    requires es.Entry? && PrintableEntries(es)
    ensures var ls := PrintEntries(es, indent);
      ls != [] && ls[0].indent == indent && !IsDash(ls[0].content)
  {
    EntryIsNoDash(es.style, es.key, AfterColon(es.value));
  }

  lemma ItemHead(items: Items, indent: nat)
    requires items.Item? && PrintableItems(items)
    ensures var ls := PrintItem(items, indent);
      ls != [] && ls[0].indent == indent && IsDash(ls[0].content)
  {
    var l := items.value;
    if !IsBlock(l) {
      DashPrefix(Inline(l));
    } else if items.onDashLine {
      EntriesHead(l.entries, indent + 2);
      DashPrefix(Print(l, indent + 2)[0].content);
    }
  }

  lemma ItemsHead(items: Items, indent: nat)
    requires items.Item? && PrintableItems(items)
    ensures var ls := PrintItems(items, indent);
      ls != [] && ls[0].indent == indent && IsDash(ls[0].content)
  {
    ItemHead(items, indent);
  }

  lemma BlockHead(l: Layout, indent: nat)
    requires IsBlock(l) && Printable(l)
    ensures var ls := Print(l, indent);
      ls != [] && ls[0].indent == indent && (IsDash(ls[0].content) <==> l.Sequence?)
  {
    if l.Mapping? {
      EntriesHead(l.entries, indent);
    } else {
      ItemsHead(l.items, indent);
    }
  }
}

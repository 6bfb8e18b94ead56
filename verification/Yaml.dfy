/**
 What the kubeconfig parser computes: the indentation lexer, the scalar and flow readers, and the
 recursive descent over blocks, as functions on the lines not yet consumed. The parser object of
 YamlParser, with its cursor and its in-place rewrite, is proved to compute these functions.
 */
module Yaml {
  import opened Strings

  /** One meaningful line: its indentation, its content without it, and where it came from. */
  datatype Line = Line(indent: nat, content: string, lineNo: nat)

  /** A parsed value. */
  datatype Node = Str(text: string) | Seq(items: seq<Node>) | Map(entries: map<string, Node>)

  datatype Fault =
    | TabIndent | MultiDocument | Unexpected | EmptyItem | NoColon | NoSpaceAfterColon | EmptyKey
    | DuplicateKey | Unsupported | UnterminatedString | TrailingContent | UnterminatedFlow

  /** Crash is the index-out-of-range panic of reading the first byte of a blank scalar. */
  datatype Outcome<+T> = Ok(value: T) | Err(line: nat, fault: Fault) | Crash {
    predicate IsFailure() {
      !Ok?
    }

    function PropagateFailure<U>(): Outcome<U>
      requires !Ok?
    {
      match this
      case Err(n, f) => Err(n, f)
      case Crash => Crash
    }

    function Extract(): T
      requires Ok?
    {
      value
    }
  }

  // ---------------------------------------------------------------- lexing

  /** One raw line: skipped when it is blank or a full-line comment, a document marker, or content. */
  datatype Lexed = Skip | Marker | Content(indent: nat, text: string, tabbed: bool)

  function LexLine(raw: string): Lexed {
    var line := TrimRight(raw, IsPadding);
    var trimmed := TrimLeft(line, IsBlank);
    if trimmed == "" || trimmed[0] == '#' then Skip
    else
      var indent := |line| - |trimmed|;
      if '\t' in line[..indent] then Content(indent, trimmed, true)
      else if trimmed == "---" then Marker
      else Content(indent, trimmed, false)
  }

  /** The loop over the raw lines, n lines into the document. */
  function LexFrom(raws: seq<string>, n: nat, acc: seq<Line>): Outcome<seq<Line>> {
    if raws == [] then Ok(acc)
    else
      match LexLine(raws[0])
      case Skip => LexFrom(raws[1..], n + 1, acc)
      case Marker => if acc != [] then Err(n + 1, MultiDocument) else LexFrom(raws[1..], n + 1, acc)
      case Content(indent, text, tabbed) =>
        if tabbed then Err(n + 1, TabIndent)
        else LexFrom(raws[1..], n + 1, acc + [Line(indent, text, n + 1)])
  }

  function Lex(text: string): Outcome<seq<Line>> {
    LexFrom(SplitLines(text), 0, [])
  }

  // ---------------------------------------------------------------- scalars and flow collections

  function Unquote(s: string): string {
    if |s| >= 2 && (s[0] == '"' || s[0] == '\'') && s[|s| - 1] == s[0] then s[1..|s| - 1] else s
  }

  function SplitKeyValue(s: string, n: nat): (r: Outcome<(string, string)>)
    ensures r.Ok? ==> |r.value.1| < |s|
  {
    var i := Index(s, ':');
    if i < 0 then Err(n, NoColon)
    else if i + 1 < |s| && s[i + 1] != ' ' then Err(n, NoSpaceAfterColon)
    else
      var key := Unquote(TrimSpace(s[..i]));
      if key == "" then Err(n, EmptyKey) else Ok((key, TrimSpace(s[i + 1..])))
  }

  predicate IsFlowOrQuoted(s: string)
    requires s != ""
  {
    s[0] == '"' || s[0] == '\'' || s[0] == '[' || s[0] == '{'
  }

  const NO_QUOTE: char := '\0'

  predicate IsQuote(c: char) {
    c == '"' || c == '\''
  }

  /** The quote state after reading c. */
  function NextQuote(quote: char, c: char): char {
    if quote != NO_QUOTE then (if c == quote then NO_QUOTE else quote)
    else if IsQuote(c) then c
    else NO_QUOTE
  }

  /** Characters in the parts, counting one separator each. */
  function Size(parts: seq<string>): nat {
    if parts == [] then 0 else |parts[0]| + 1 + Size(parts[1..])
  }

  function SplitFlowFrom(s: string, quote: char, cur: string): (parts: seq<string>)
    ensures Size(parts) == |cur| + |s| + 1
    decreases s
  {
    if s == "" then [cur]
    else if quote == NO_QUOTE && s[0] == ',' then [cur] + SplitFlowFrom(s[1..], NO_QUOTE, "")
    else SplitFlowFrom(s[1..], NextQuote(quote, s[0]), cur + [s[0]])
  }

  function SplitFlowParts(s: string): (parts: seq<string>)
    ensures Size(parts) == |s| + 1
  {
    SplitFlowFrom(s, NO_QUOTE, "")
  }

  function FlowInner(s: string, open: char, close: char, n: nat): (r: Outcome<string>)
    requires s != "" && open != close
    ensures r.Ok? ==> |r.value| + 2 <= |s|
  {
    var i := LastIndex(s, close);
    if s[0] != open || i < 0 then Err(n, UnterminatedFlow)
    else
      var rest := TrimSpace(s[i + 1..]);
      if rest != "" && rest[0] != '#' then Err(n, TrailingContent) else Ok(s[1..i])
  }

  function ParseQuoted(s: string, n: nat): Outcome<Node>
    requires s != ""
  {
    var end := Index(s[1..], s[0]);
    if end < 0 then Err(n, UnterminatedString)
    else
      var rest := TrimSpace(s[2 + end..]);
      if rest != "" && rest[0] != '#' then Err(n, TrailingContent) else Ok(Str(s[1..1 + end]))
  }

  function PlainText(s: string): string {
    var i := CommentAt(s);
    if i >= 0 then TrimSpace(s[..i]) else s
  }

  function ParseScalar(raw: string, n: nat): Outcome<Node>
    decreases |raw|, 1
  {
    var s := TrimSpace(raw);
    if s == "" then Crash
    else if s[0] == '{' then
      var inner :- FlowInner(s, '{', '}', n);
      ParseFlowMap(SplitFlowParts(inner), n, map[])
    else if s[0] == '[' then
      var inner :- FlowInner(s, '[', ']', n);
      ParseFlowSeq(SplitFlowParts(inner), n, [])
    else if s[0] in {'&', '*', '|', '>'} then Err(n, Unsupported)
    else if IsQuote(s[0]) then ParseQuoted(s, n)
    else Ok(Str(PlainText(s)))
  }

  /** The loop of parseFlowMap: a repeated key overwrites. */
  function ParseFlowMap(parts: seq<string>, n: nat, m: map<string, Node>): Outcome<Node>
    decreases Size(parts), 0
  {
    if parts == [] then Ok(Map(m))
    else
      var part := TrimSpace(parts[0]);
      if part == "" then ParseFlowMap(parts[1..], n, m)
      else
        var kv :- SplitKeyValue(part, n);
        var val :- ParseScalar(kv.1, n);
        ParseFlowMap(parts[1..], n, m[kv.0 := val])
  }

  /** The loop of parseFlowSeq. */
  function ParseFlowSeq(parts: seq<string>, n: nat, acc: seq<Node>): Outcome<Node>
    decreases Size(parts), 0
  {
    if parts == [] then Ok(Seq(acc))
    else
      var part := TrimSpace(parts[0]);
      if part == "" then ParseFlowSeq(parts[1..], n, acc)
      else
        var val :- ParseScalar(part, n);
        ParseFlowSeq(parts[1..], n, acc + [val])
  }

  // ---------------------------------------------------------------- blocks

  predicate IsDash(content: string) {
    HasPrefix(content, "- ") || content == "-"
  }

  /** The body of a sequence item: the content without its dash and one blank. */
  function AfterDash(content: string): (rest: string)
    requires IsDash(content)
    ensures |rest| < |content|
  {
    if content == "-" then "" else content[2..]
  }

  /** An item body that opens a mapping, rather than holding a scalar. */
  predicate OpensMapping(rest: string)
    requires rest != ""
  {
    ':' in rest && !IsFlowOrQuoted(rest)
  }

  /** The termination measure: the text left in the unconsumed lines. */
  function Weight(ls: seq<Line>): nat {
    if ls == [] then 0 else |ls[0].content| + 1 + Weight(ls[1..])
  }

  /** What a block yields: its value and the lines it leaves. */
  type Parsed = Outcome<(Node, seq<Line>)>

  function ParseBlock(ls: seq<Line>, indent: nat): (r: Parsed)
    requires ls != []
    ensures r.Ok? ==> Weight(r.value.1) <= Weight(ls)
    decreases Weight(ls), 2
  {
    if IsDash(ls[0].content) then ParseSequence(ls, indent, []) else ParseMapping(ls, indent, map[])
  }

  /** The lines once `- key: ...` has been rewritten to a virtual line two columns deeper. */
  function Rewritten(ls: seq<Line>, indent: nat): (r: seq<Line>)
    requires ls != [] && IsDash(ls[0].content)
    ensures |r| == |ls| && r[1..] == ls[1..]
    ensures Weight(r) < Weight(ls)
  {
    [Line(indent + 2, AfterDash(ls[0].content), ls[0].lineNo)] + ls[1..]
  }

  predicate AtItem(ls: seq<Line>, indent: nat) {
    ls != [] && ls[0].indent == indent && IsDash(ls[0].content)
  }

  /** The loop of parseSequence. */
  function ParseSequence(ls: seq<Line>, indent: nat, acc: seq<Node>): (r: Parsed)
    ensures r.Ok? ==> Weight(r.value.1) <= Weight(ls)
    decreases Weight(ls), 1
  {
    if !AtItem(ls, indent) then Ok((Seq(acc), ls))
    else
      var item :- ParseItem(ls, indent);
      ParseSequence(item.1, indent, acc + [item.0])
  }

  /** One iteration of it: a bare dash, a scalar, or a mapping that starts on the dash line. */
  function ParseItem(ls: seq<Line>, indent: nat): (r: Parsed)
    requires ls != [] && IsDash(ls[0].content)
    ensures r.Ok? ==> Weight(r.value.1) < Weight(ls)
    decreases Weight(ls), 0
  {
    var rest := AfterDash(ls[0].content);
    if rest == "" then
      if |ls| == 1 || ls[1].indent < indent + 2 then Err(ls[0].lineNo, EmptyItem)
      else ParseBlock(ls[1..], ls[1].indent)
    else if !OpensMapping(rest) then
      var val :- ParseScalar(rest, ls[0].lineNo);
      Ok((val, ls[1..]))
    else
      ParseMapping(Rewritten(ls, indent), indent + 2, map[])
  }

  /** Whether the lines after a bare key hold its value. */
  predicate StartsChild(ls: seq<Line>, indent: nat) {
    ls != [] && (ls[0].indent > indent || (ls[0].indent == indent && IsDash(ls[0].content)))
  }

  predicate AtEntry(ls: seq<Line>, indent: nat) {
    ls != [] && ls[0].indent == indent && !IsDash(ls[0].content)
  }

  /** The loop of parseMapping. */
  function ParseMapping(ls: seq<Line>, indent: nat, m: map<string, Node>): (r: Parsed)
    ensures r.Ok? ==> Weight(r.value.1) <= Weight(ls)
    decreases Weight(ls), 1
  {
    if !AtEntry(ls, indent) then Ok((Map(m), ls))
    else
      var kv :- SplitKeyValue(ls[0].content, ls[0].lineNo);
      if kv.0 in m then Err(ls[0].lineNo, DuplicateKey)
      else
        var val :- ParseValue(ls, kv.1, indent);
        ParseMapping(val.1, indent, m[kv.0 := val.0])
  }

  /** The value of the key on the first line: inline text, a deeper block, or null. */
  function ParseValue(ls: seq<Line>, rest: string, indent: nat): (r: Parsed)
    requires ls != []
    ensures r.Ok? ==> Weight(r.value.1) < Weight(ls)
    decreases Weight(ls), 0
  {
    if rest != "" then
      var val :- ParseScalar(rest, ls[0].lineNo);
      Ok((val, ls[1..]))
    else if StartsChild(ls[1..], indent) then ParseBlock(ls[1..], ls[1].indent)
    else Ok((Str(""), ls[1..]))
  }

  /** The tree of a list of lines, all of which must be consumed. */
  function ParseLines(ls: seq<Line>): Outcome<Node> {
    if ls == [] then Ok(Map(map[]))
    else
      var root :- ParseBlock(ls, ls[0].indent);
      if root.1 != [] then Err(root.1[0].lineNo, Unexpected) else Ok(root.0)
  }

  function ParseTree(text: string): Outcome<Node> {
    var ls :- Lex(text);
    ParseLines(ls)
  }
}

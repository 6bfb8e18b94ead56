/**
 Which trees the parser can yield: those with a block root, keys that are not empty and hold neither a colon
 nor a newline, strings that can be written down, in quotes or as they are, and sequences whose items can
 stand one below the other or side by side on one line.
 */
module YamlRange {
  import opened Strings
  import opened Yaml
  import opened YamlFlow
  import opened YamlFlowSeq
  import opened YamlLayout
  import opened YamlPrint
  import opened YamlRoundTrip

  predicate WellKeyed(key: string) {
    key != "" && ':' !in key && NEWLINE !in key
  }

  ghost predicate WellFormed(n: Node) {
    match n
    case Str(text) => Writable(text)
    case Seq(items) => forall i | 0 <= i < |items| :: WellFormed(items[i])
    case Map(m) => forall k | k in m :: WellKeyed(k) && WellFormed(m[k])
  }

  /** As a block item, text that cannot be quoted must hold no colon, or it would open a mapping. */
  predicate ItemOk(n: Node) {
    n.Str? ==> Quotable(n.text) || ':' !in n.text
  }

  /** What a value anywhere in a document can be. */
  ghost predicate Reachable(n: Node) {
    match n
    case Str(text) => Writable(text)
    case Seq(items) =>
      (forall i | 0 <= i < |items| :: ItemOk(items[i]) && Reachable(items[i])) || OnOneLine(items)
    case Map(m) => forall k | k in m :: WellKeyed(k) && Reachable(m[k])
  }

  ghost predicate BlockItems(items: seq<Node>) {
    forall i | 0 <= i < |items| :: ItemOk(items[i]) && Reachable(items[i])
  }

  /** A document is a mapping or a non-empty block sequence. */
  ghost predicate IsRoot(n: Node) {
    n.Map? || (n.Seq? && n.items != [] && BlockItems(n.items))
  }

  // ---------------------------------------------------------------- every such tree is reached

  lemma OnLineReads(items: seq<Node>) returns (text: string)
    requires OnOneLine(items)
    ensures Printable(OnLine(text, Seq(items))) && !OpensMapping(text)
  {
    text := LineHolds(items);
    forall n ensures ParseScalar(text, n) == Ok(Seq(items)) {
      ScalarIgnoresLine(text, n, 0);
    }
  }

  ghost predicate HoldsItems(l: Layout, items: seq<Node>) {
    l.OnLine? && l.tree == Seq(items) && Printable(l) && !OpensMapping(l.text)
  }

  ghost function LineOf(items: seq<Node>): (l: Layout)
    requires OnOneLine(items)
    ensures HoldsItems(l, items)
  {
    assert exists l :: HoldsItems(l, items) by {
      var text := OnLineReads(items);
      assert HoldsItems(OnLine(text, Seq(items)), items);
    }
    var l :| HoldsItems(l, items);
    l
  }

  ghost function LayoutOf(n: Node): (l: Layout)
    requires Reachable(n)
    ensures Printable(l) && !l.Null? && Tree(l) == n
    ensures n.Map? && n.entries != map[] ==> l.Mapping?
    ensures n.Seq? && n.items != [] && BlockItems(n.items) ==> l.Sequence?
    ensures l.Text? && l.style.Plain? ==> n.Str? && l.text == n.text && !Quotable(n.text)
    ensures l.OnLine? ==> !OpensMapping(l.text)
    decreases n, 2
  {
    match n
    case Str(text) =>
      if '"' !in text then Text(Quoted('"'), text)
      else if '\'' !in text then Text(Quoted('\''), text)
      else Text(Plain, text)
    case Seq(items) =>
      if items == [] then EmptySeq
      else if BlockItems(items) then Sequence(ItemsOf(n, items))
      else LineOf(items)
    case Map(m) => if m == map[] then EmptyMap else Mapping(EntriesOf(n, m))
  }

  ghost function ItemsOf(parent: Node, items: seq<Node>): (r: Items)
    requires forall i | 0 <= i < |items| :: items[i] < parent && ItemOk(items[i]) && Reachable(items[i])
    ensures PrintableItems(r) && TreeItems(r) == items
    ensures items != [] ==> r.Item?
    decreases parent, 1, |items|
  {
    if items == [] then NoItem
    else
      var value, more := LayoutOf(items[0]), ItemsOf(parent, items[1..]);
      assert ItemOk(items[0]) && Printable(value);
      assert items == [items[0]] + items[1..];
      Item(false, 0, value, more)
  }

  lemma Without(m: map<string, Node>, key: string)
    requires key in m
    ensures var less := m - {key};
      && key !in less && m.Keys == less.Keys + {key} && m == less[key := m[key]] && |less| < |m|
      && forall k | k in less :: k in m && less[k] == m[k]
  {
    var less := m - {key};
    assert m.Keys == less.Keys + {key};
    assert |m.Keys| == |less.Keys| + 1;
  }

  ghost function EntriesOf(parent: Node, m: map<string, Node>): (r: Entries)
    requires forall k | k in m :: m[k] < parent && WellKeyed(k) && Reachable(m[k])
    ensures PrintableEntries(r) && TreeEntries(r) == m && Keys(r) == m.Keys
    ensures m != map[] ==> r.Entry?
    decreases parent, 1, |m|
  {
    if m == map[] then NoEntry
    else
      var key :| key in m;
      var less := m - {key};
      Without(m, key);
      assert WellKeyed(key);
      var value, rest := LayoutOf(m[key]), EntriesOf(parent, less);
      assert KeyOk(Quoted('"'), key) && key !in Keys(rest);
      Entry(key, Quoted('"'), 1, value, rest)
  }

  /** Every such tree is the parse of some text. */
  lemma Reached(n: Node) returns (text: string)
    requires Reachable(n) && IsRoot(n)
    ensures ParseTree(text) == Ok(n)
  {
    if n == Map(map[]) {
      text := "";
      assert SplitLines(text) == [""] && [""][1..] == [];
      assert LexLine("") == Skip;
    } else {
      var l := LayoutOf(n);
      text := PrintText(l, 0);
      RoundTrip(l, 0);
    }
  }

  // ---------------------------------------------------------------- nothing else is

  ghost predicate Good(n: Node) {
    WellFormed(n) && Reachable(n)
  }

  ghost predicate GoodOutcome(r: Outcome<Node>) {
    r.Ok? ==> Good(r.value)
  }

  lemma TrimKeepsOut(s: string)
    requires NEWLINE !in s
    ensures NEWLINE !in TrimSpace(s)
  {
    TrimSpaceTrims(s);
  }

  lemma KeyValueIsWell(s: string, n: nat)
    requires NEWLINE !in s
    ensures var kv := SplitKeyValue(s, n);
      kv.Ok? ==> WellKeyed(kv.value.0) && NEWLINE !in kv.value.1
  {
    var i := Index(s, ':');
    if i >= 0 {
      assert ':' !in s[..i] && NEWLINE !in s[..i];
      TrimSpaceTrims(s[..i]);
      assert ':' !in TrimSpace(s[..i]);
      TrimSpaceTrims(s[i + 1..]);
    }
  }

  lemma {:induction false} PartsHaveNoNewline(s: string, quote: char, cur: string)
    requires NEWLINE !in s && NEWLINE !in cur
    ensures NoNewlines(SplitFlowFrom(s, quote, cur))
    decreases |s|
  {
    if s != "" {
      if quote == NO_QUOTE && s[0] == ',' {
        PartsHaveNoNewline(s[1..], NO_QUOTE, "");
      } else {
        PartsHaveNoNewline(s[1..], NextQuote(quote, s[0]), cur + [s[0]]);
      }
    }
  }

  lemma PrefixIsPlain(s: string, i: nat)
    requires Trimmed(s) && NEWLINE !in s && s[0] !in {'{', '[', '&', '*', '|', '>', '"', '\''} && CommentAt(s) == i
    ensures PlainValue(TrimSpace(s[..i]))
  {
    var u := s[..i];
    assert u != "" && u[0] == s[0] && u[0] in u;
    TrimSpaceTrims(u);
    var k := Keep(u, IsSpace);
    var t := u[..k];
    assert TrimLeft(u, IsSpace) == u && TrimSpace(u) == t;
    assert t[0] == s[0] && t[|t| - 1] == u[k - 1];
    assert forall j | 0 <= j < |t| :: t[j] == s[j];
  }

  /** What is left of a plain scalar without its comment is plain. */
  lemma PlainIsWritable(s: string)
    requires Trimmed(s) && NEWLINE !in s && s[0] !in {'{', '[', '&', '*', '|', '>', '"', '\''}
    ensures Writable(PlainText(s))
  {
    var i := CommentAt(s);
    if i >= 0 {
      PrefixIsPlain(s, i);
    }
  }

  lemma AnyLine(parts: seq<string>, items: seq<Node>, n: nat)
    requires PartsRead(parts, items, n)
    ensures PartsRead(parts, items, 0)
  {
    forall i | 0 <= i < |items| ensures ParseScalar(parts[i], 0) == Ok(items[i]) {
      ScalarIgnoresLine(parts[i], n, 0);
    }
  }

  /** The items of a flow sequence stand on its line. */
  lemma FlowSeqIsReachable(parts: seq<string>, n: nat)
    requires IsSplit(parts) && NoNewlines(parts) && ParseFlowSeq(parts, n, []).Ok?
    ensures Reachable(ParseFlowSeq(parts, n, []).value)
  {
    var items := FlowSeqItems(parts, n, []);
    assert [] + items == items;
    if items != [] {
      KeptIsSplit(parts);
      KeptHasNoNewline(parts);
      AnyLine(Kept(parts), items, n);
    }
  }

  lemma StringIsWell(s: string, n: nat)
    requires Trimmed(s) && NEWLINE !in s && s[0] !in {'{', '[', '&', '*', '|', '>'}
    ensures GoodOutcome(if IsQuote(s[0]) then ParseQuoted(s, n) else Ok(Str(PlainText(s))))
  {
    if !IsQuote(s[0]) {
      PlainIsWritable(s);
    } else if ParseQuoted(s, n).Ok? {
      QuotedIsQuotable(s, n);
    }
  }

  lemma {:induction false} FlowIsWell(s: string, n: nat)
    requires s != "" && NEWLINE !in s
    ensures s[0] == '{' && FlowInner(s, '{', '}', n).Ok? ==>
      GoodOutcome(ParseFlowMap(SplitFlowParts(FlowInner(s, '{', '}', n).value), n, map[]))
    ensures s[0] == '[' && FlowInner(s, '[', ']', n).Ok? ==>
      GoodOutcome(ParseFlowSeq(SplitFlowParts(FlowInner(s, '[', ']', n).value), n, []))
    decreases |s|, 0
  {
    if s[0] == '{' && FlowInner(s, '{', '}', n).Ok? {
      var inner := FlowInner(s, '{', '}', n).value;
      PartsHaveNoNewline(inner, NO_QUOTE, "");
      FlowMapIsWell(SplitFlowParts(inner), n, map[]);
    } else if s[0] == '[' && FlowInner(s, '[', ']', n).Ok? {
      var inner := FlowInner(s, '[', ']', n).value;
      PartsHaveNoNewline(inner, NO_QUOTE, "");
      FlowSeqIsWell(SplitFlowParts(inner), n, []);
      SplitFromIsSplit(inner, NO_QUOTE, "");
      if ParseFlowSeq(SplitFlowParts(inner), n, []).Ok? {
        FlowSeqIsReachable(SplitFlowParts(inner), n);
      }
    }
  }

  lemma {:induction false} ScalarIsWell(raw: string, n: nat)
    requires NEWLINE !in raw
    ensures GoodOutcome(ParseScalar(raw, n))
    decreases |raw|, 1
  {
    var s := TrimSpace(raw);
    TrimKeepsOut(raw);
    TrimSpaceTrims(raw);
    if s != "" {
      if s[0] == '{' || s[0] == '[' {
        FlowIsWell(s, n);
      } else if s[0] !in {'&', '*', '|', '>'} {
        StringIsWell(s, n);
      }
    }
  }

  lemma {:induction false} FlowMapIsWell(parts: seq<string>, n: nat, m: map<string, Node>)
    requires NoNewlines(parts) && Good(Map(m))
    ensures GoodOutcome(ParseFlowMap(parts, n, m))
    decreases Size(parts), 0
  {
    if parts != [] {
      var part := TrimSpace(parts[0]);
      TrimKeepsOut(parts[0]);
      if part == "" {
        FlowMapIsWell(parts[1..], n, m);
      } else {
        var kv := SplitKeyValue(part, n);
        KeyValueIsWell(part, n);
        if kv.Ok? {
          ScalarIsWell(kv.value.1, n);
          var val := ParseScalar(kv.value.1, n);
          if val.Ok? {
            FlowMapIsWell(parts[1..], n, m[kv.value.0 := val.value]);
          }
        }
      }
    }
  }

  lemma {:induction false} FlowSeqIsWell(parts: seq<string>, n: nat, acc: seq<Node>)
    requires NoNewlines(parts) && WellFormed(Seq(acc))
    ensures var r := ParseFlowSeq(parts, n, acc); r.Ok? ==> WellFormed(r.value)
    decreases Size(parts), 0
  {
    if parts != [] {
      var part := TrimSpace(parts[0]);
      TrimKeepsOut(parts[0]);
      if part == "" {
        FlowSeqIsWell(parts[1..], n, acc);
      } else {
        ScalarIsWell(part, n);
        var val := ParseScalar(part, n);
        if val.Ok? {
          FlowSeqIsWell(parts[1..], n, acc + [val.value]);
        }
      }
    }
  }

  ghost predicate PlainLines(ls: seq<Line>) {
    forall i | 0 <= i < |ls| :: NEWLINE !in ls[i].content
  }

  ghost predicate GoodParse(r: Parsed) {
    r.Ok? ==> Good(r.value.0) && PlainLines(r.value.1)
  }

  lemma {:induction false} BlockIsWell(ls: seq<Line>, indent: nat)
    requires ls != [] && PlainLines(ls)
    ensures GoodParse(ParseBlock(ls, indent))
    ensures ParseBlock(ls, indent).Ok? ==> !ParseBlock(ls, indent).value.0.Str?
    decreases Weight(ls), 2
  {
    if IsDash(ls[0].content) {
      SequenceIsWell(ls, indent, []);
    } else {
      MappingIsWell(ls, indent, map[]);
    }
  }

  lemma {:induction false} SequenceIsWell(ls: seq<Line>, indent: nat, acc: seq<Node>)
    requires PlainLines(ls) && WellFormed(Seq(acc)) && BlockItems(acc)
    ensures GoodParse(ParseSequence(ls, indent, acc))
    ensures var r := ParseSequence(ls, indent, acc);
      r.Ok? ==>
        && r.value.0.Seq? && BlockItems(r.value.0.items)
        && (acc != [] || AtItem(ls, indent) ==> r.value.0.items != [])
    decreases Weight(ls), 1
  {
    if AtItem(ls, indent) {
      ItemIsWell(ls, indent);
      var item := ParseItem(ls, indent);
      if item.Ok? {
        SequenceIsWell(item.value.1, indent, acc + [item.value.0]);
      }
    }
  }

  lemma RewrittenIsPlain(ls: seq<Line>, indent: nat)
    requires PlainLines(ls) && ls != [] && IsDash(ls[0].content)
    ensures PlainLines(Rewritten(ls, indent))
  {
    var r := Rewritten(ls, indent);
    forall i | 0 <= i < |r| ensures NEWLINE !in r[i].content {
      if i > 0 {
        assert r[i] == r[1..][i - 1] == ls[i];
      }
    }
  }

  lemma FirstStays(s: string)
    requires s != "" && !IsSpace(s[0])
    ensures TrimSpace(s) != "" && TrimSpace(s)[0] == s[0]
  {
    assert TrimLeft(s, IsSpace) == s;
    assert s[0] in s;
    TrimSpaceTrims(s);
  }

  lemma PlainHasNoColon(s: string)
    requires ':' !in s
    ensures ':' !in PlainText(s)
  {
    var i := CommentAt(s);
    if i >= 0 {
      TrimSpaceTrims(s[..i]);
    }
  }

  /** The body of an item that opens no mapping is no string that would open one. */
  lemma ItemScalarIsOk(rest: string, n: nat)
    requires rest != "" && !OpensMapping(rest) && ParseScalar(rest, n).Ok?
    ensures ItemOk(ParseScalar(rest, n).value)
  {
    var val := ParseScalar(rest, n).value;
    if val.Str? {
      StringScalar(rest, val.text, n);
      var s := TrimSpace(rest);
      TrimSpaceTrims(rest);
      if IsQuote(s[0]) {
        QuotedIsQuotable(s, n);
      } else {
        if IsFlowOrQuoted(rest) {
          FirstStays(rest);
        }
        PlainHasNoColon(s);
      }
    }
  }

  lemma {:induction false} ItemIsWell(ls: seq<Line>, indent: nat)
    requires PlainLines(ls) && ls != [] && IsDash(ls[0].content)
    ensures GoodParse(ParseItem(ls, indent))
    ensures ParseItem(ls, indent).Ok? ==> ItemOk(ParseItem(ls, indent).value.0)
    decreases Weight(ls), 0
  {
    var rest := AfterDash(ls[0].content);
    assert NEWLINE !in rest;
    if rest == "" {
      if |ls| > 1 && ls[1].indent >= indent + 2 {
        BlockIsWell(ls[1..], ls[1].indent);
      }
    } else if !OpensMapping(rest) {
      ScalarIsWell(rest, ls[0].lineNo);
      if ParseScalar(rest, ls[0].lineNo).Ok? {
        ItemScalarIsOk(rest, ls[0].lineNo);
      }
    } else {
      RewrittenIsPlain(ls, indent);
      MappingIsWell(Rewritten(ls, indent), indent + 2, map[]);
    }
  }

  lemma {:induction false} MappingIsWell(ls: seq<Line>, indent: nat, m: map<string, Node>)
    requires PlainLines(ls) && Good(Map(m))
    ensures GoodParse(ParseMapping(ls, indent, m))
    ensures var r := ParseMapping(ls, indent, m); r.Ok? ==> r.value.0.Map?
    decreases Weight(ls), 1
  {
    if AtEntry(ls, indent) {
      var kv := SplitKeyValue(ls[0].content, ls[0].lineNo);
      KeyValueIsWell(ls[0].content, ls[0].lineNo);
      if kv.Ok? && kv.value.0 !in m {
        ValueIsWell(ls, kv.value.1, indent);
        var val := ParseValue(ls, kv.value.1, indent);
        if val.Ok? {
          MappingIsWell(val.value.1, indent, m[kv.value.0 := val.value.0]);
        }
      }
    }
  }

  lemma {:induction false} ValueIsWell(ls: seq<Line>, rest: string, indent: nat)
    requires PlainLines(ls) && ls != [] && NEWLINE !in rest
    ensures GoodParse(ParseValue(ls, rest, indent))
    decreases Weight(ls), 0
  {
    if rest != "" {
      ScalarIsWell(rest, ls[0].lineNo);
    } else if StartsChild(ls[1..], indent) {
      BlockIsWell(ls[1..], ls[1].indent);
    }
  }

  lemma {:induction false} LexIsPlain(raws: seq<string>, n: nat, acc: seq<Line>)
    requires NoNewlines(raws) && PlainLines(acc)
    ensures LexFrom(raws, n, acc).Ok? ==> PlainLines(LexFrom(raws, n, acc).value)
    decreases |raws|
  {
    if raws != [] {
      var l := LexLine(raws[0]);
      if l.Content? {
        TrimLeftKeeps(TrimRight(raws[0], IsPadding), IsBlank);
        LexIsPlain(raws[1..], n + 1, acc + [Line(l.indent, l.text, n + 1)]);
      } else {
        LexIsPlain(raws[1..], n + 1, acc);
      }
    }
  }

  lemma OnlyReachable(text: string)
    ensures ParseTree(text).Ok? ==> Good(ParseTree(text).value) && IsRoot(ParseTree(text).value)
  {
    LexIsPlain(SplitLines(text), 0, []);
    if Lex(text).Ok? && Lex(text).value != [] {
      var ls := Lex(text).value;
      BlockIsWell(ls, ls[0].indent);
      if IsDash(ls[0].content) {
        SequenceIsWell(ls, ls[0].indent, []);
      } else {
        MappingIsWell(ls, ls[0].indent, map[]);
      }
    }
  }

  /** Whatever the text, an accepted document has a block root, well-formed keys and newline-free strings. */
  lemma OnlyWellFormed(text: string)
    ensures ParseTree(text).Ok? ==>
      var n := ParseTree(text).value; WellFormed(n) && (n.Map? || (n.Seq? && n.items != []))
  {
    OnlyReachable(text);
  }

  /** Exactly the trees that some text parses to. */
  lemma ExactRange(n: Node)
    ensures (exists text :: ParseTree(text) == Ok(n)) <==> Reachable(n) && IsRoot(n)
  {
    if Reachable(n) && IsRoot(n) {
      var text := Reached(n);
    }
    forall text | ParseTree(text) == Ok(n) ensures Reachable(n) && IsRoot(n) {
      OnlyReachable(text);
    }
  }
}

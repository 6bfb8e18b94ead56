/** Printing and parsing back: whatever the layout, parsing the printed text yields exactly the tree. */
module YamlRoundTrip {
  import opened Yaml
  import opened YamlClean
  import opened YamlLayout
  import opened YamlPrint
  import G = YamlGrammar

  // ---------------------------------------------------------------- a layout as the block it prints

  function RawBlock(l: Layout, indent: nat): G.Block
    requires IsBlock(l)
    decreases l, 1
  {
    if l.Mapping? then G.Mapping(RawFields(l.entries, indent)) else G.Sequence(RawItems(l.items, indent))
  }

  function RawFields(es: Entries, indent: nat): G.Fields
    decreases es, 0
  {
    match es
    case NoEntry => G.NoField
    case Entry(key, style, gap, value, more) =>
      G.Field(EntryLine(key, style, value, indent).content, key, RawValue(value, indent + gap), RawFields(more, indent))
  }

  function RawValue(v: Layout, indent: nat): G.Value
    decreases v, 2
  {
    if IsBlock(v) then G.Below(indent, RawBlock(v, indent))
    else if v.Null? then G.Missing
    else G.OnLine(Inline(v), Tree(v))
  }

  function RawItems(items: Items, indent: nat): G.Items
    decreases items, 0
  {
    match items
    case NoItem => G.NoItem
    case Item(onDashLine, gap, v, more) =>
      var rest := RawItems(more, indent);
      if !IsBlock(v) then G.Scalar(Inline(v), Tree(v), rest)
      else if onDashLine && v.Mapping? then G.Opening(RawFields(v.entries, indent + 2), rest)
      else G.Bare("-", indent + 2 + gap, RawBlock(v, indent + 2 + gap), rest)
  }

  // ---------------------------------------------------------------- the same lines

  lemma {:induction false} BlockAgrees(l: Layout, indent: nat)
    requires IsBlock(l) && Printable(l)
    ensures G.BlockLines(RawBlock(l, indent), indent) == Print(l, indent)
    decreases l, 1
  {
    if l.Mapping? {
      EntriesAgree(l.entries, indent);
    } else {
      ItemsAgree(l.items, indent);
    }
  }

  lemma {:induction false} ValueAgrees(v: Layout, indent: nat)
    requires Printable(v)
    ensures G.ValueLines(RawValue(v, indent)) == Print(v, indent)
    decreases v, 2
  {
    if IsBlock(v) {
      BlockAgrees(v, indent);
    }
  }

  lemma {:induction false} EntriesAgree(es: Entries, indent: nat)
    requires PrintableEntries(es)
    ensures G.FieldLines(RawFields(es, indent), indent) == PrintEntries(es, indent)
    decreases es, 0
  {
    if es.Entry? {
      ValueAgrees(es.value, indent + es.gap);
      EntriesAgree(es.more, indent);
      var line := EntryLine(es.key, es.style, es.value, indent);
      assert line == Line(indent, line.content, 0);
    }
  }

  lemma {:induction false} FirstAgrees(items: Items, indent: nat)
    requires items.Item? && PrintableItems(items)
    ensures G.FirstItem(RawItems(items, indent), indent) == PrintItem(items, indent)
    decreases items, 0
  {
    var v := items.value;
    if IsBlock(v) && items.onDashLine {
      EntriesAgree(v.entries, indent + 2);
      assert Print(v, indent + 2) == PrintEntries(v.entries, indent + 2);
    } else if IsBlock(v) {
      BlockAgrees(v, indent + 2 + items.gap);
    }
  }

  lemma {:induction false} ItemsAgree(items: Items, indent: nat)
    requires PrintableItems(items)
    ensures G.ItemLines(RawItems(items, indent), indent) == PrintItems(items, indent)
    decreases items, 1
  {
    if items.Item? {
      FirstAgrees(items, indent);
      ItemsAgree(items.more, indent);
    }
  }

  // ---------------------------------------------------------------- the same tree

  lemma {:induction false} TreesAgree(l: Layout, indent: nat)
    requires IsBlock(l) && Printable(l)
    ensures G.Tree(RawBlock(l, indent)) == Tree(l)
    decreases l, 1
  {
    if l.Mapping? {
      EntryTreesAgree(l.entries, indent);
    } else {
      ItemTreesAgree(l.items, indent);
    }
  }

  lemma {:induction false} EntryTreesAgree(es: Entries, indent: nat)
    requires PrintableEntries(es)
    ensures G.TreeFields(RawFields(es, indent)) == TreeEntries(es)
    ensures G.FieldKeys(RawFields(es, indent)) == Keys(es)
    decreases es, 0
  {
    if es.Entry? {
      if IsBlock(es.value) {
        TreesAgree(es.value, indent + es.gap);
      }
      EntryTreesAgree(es.more, indent);
    }
  }

  lemma {:induction false} ItemTreesAgree(items: Items, indent: nat)
    requires PrintableItems(items)
    ensures G.TreeItems(RawItems(items, indent)) == TreeItems(items)
    decreases items, 0
  {
    if items.Item? {
      var v := items.value;
      if IsBlock(v) {
        if items.onDashLine {
          EntryTreesAgree(v.entries, indent + 2);
        } else {
          TreesAgree(v, indent + 2 + items.gap);
        }
      }
      ItemTreesAgree(items.more, indent);
    }
  }

  // ---------------------------------------------------------------- a document the parser accepts

  lemma {:induction false} BlockIsValid(l: Layout, indent: nat)
    requires IsBlock(l) && Printable(l)
    ensures G.ValidBlock(RawBlock(l, indent), indent)
    decreases l, 1
  {
    if l.Mapping? {
      EntriesAreValid(l.entries, indent);
    } else {
      ItemsAreValid(l.items, indent);
    }
  }

  lemma InlineReadsAs(v: Layout)
    requires Printable(v) && !IsBlock(v) && !v.Null?
    ensures Inline(v) != "" && ReadsAs(Inline(v), Tree(v))
  {
    InlineIsTrimmed(v);
    forall n ensures ParseScalar(Inline(v), n) == Ok(Tree(v)) {
      InlineReads(v, n);
    }
  }

  lemma {:induction false} ValueIsValid(v: Layout, indent: nat, depth: nat)
    requires Printable(v) && depth >= indent && (v.Mapping? ==> depth > indent)
    ensures G.ValidValue(RawValue(v, depth), indent) && G.Behind(RawValue(v, depth)) == Inline(v)
    decreases v, 2
  {
    if IsBlock(v) {
      BlockIsValid(v, depth);
    } else if !v.Null? {
      InlineReadsAs(v);
    }
  }

  lemma EntrySplitsAs(style: Style, key: string, value: Layout, indent: nat)
    requires KeyOk(style, key) && Printable(value)
    ensures var line := EntryLine(key, style, value, indent).content;
      !IsDash(line) && G.SplitsAs(line, key, Inline(value))
  {
    EntryIsNoDash(style, key, AfterColon(value));
    forall n ensures SplitKeyValue(EntryLine(key, style, value, indent).content, n) == Ok((key, Inline(value))) {
      EntrySplits(style, key, value, n);
    }
  }

  lemma {:induction false} EntriesAreValid(es: Entries, indent: nat)
    requires PrintableEntries(es)
    ensures G.ValidFields(RawFields(es, indent), indent)
    decreases es, 0
  {
    if es.Entry? {
      EntrySplitsAs(es.style, es.key, es.value, indent);
      EntryTreesAgree(es.more, indent);
      ValueIsValid(es.value, indent, indent + es.gap);
      EntriesAreValid(es.more, indent);
    }
  }

  lemma PlainEntryOpens(es: Entries, indent: nat)
    requires es.Entry? && PrintableEntries(es) && es.style.Plain?
    ensures var line := EntryLine(es.key, es.style, es.value, indent).content; line != "" && OpensMapping(line)
  {
    EntryIsNoDash(es.style, es.key, AfterColon(es.value));
  }

  lemma ScalarIsValid(items: Items, indent: nat)
    requires items.Item? && PrintableItems(items) && !IsBlock(items.value)
    requires G.ValidItems(RawItems(items.more, indent), indent)
    ensures G.ValidItems(RawItems(items, indent), indent)
  {
    InlineReadsAs(items.value);
    ItemIsScalar(items.value);
  }

  lemma {:induction false} OpeningIsValid(items: Items, indent: nat)
    requires items.Item? && PrintableItems(items) && IsBlock(items.value) && items.onDashLine
    requires G.ValidItems(RawItems(items.more, indent), indent)
    ensures G.ValidItems(RawItems(items, indent), indent)
    decreases items, 0
  {
    EntriesAreValid(items.value.entries, indent + 2);
    PlainEntryOpens(items.value.entries, indent + 2);
  }

  lemma {:induction false} BareIsValid(items: Items, indent: nat)
    requires items.Item? && PrintableItems(items) && IsBlock(items.value) && !items.onDashLine
    requires G.ValidItems(RawItems(items.more, indent), indent)
    ensures G.ValidItems(RawItems(items, indent), indent)
    decreases items, 0
  {
    BlockIsValid(items.value, indent + 2 + items.gap);
  }

  lemma {:induction false} ItemsAreValid(items: Items, indent: nat)
    requires PrintableItems(items)
    ensures G.ValidItems(RawItems(items, indent), indent)
    decreases items, 1
  {
    if items.Item? {
      ItemsAreValid(items.more, indent);
      if !IsBlock(items.value) {
        ScalarIsValid(items, indent);
      } else if items.onDashLine {
        OpeningIsValid(items, indent);
      } else {
        BareIsValid(items, indent);
      }
    }
  }

  /** The parser undoes the printer: exactly the printed tree, with every line consumed. */
  lemma RoundTrip(l: Layout, indent: nat)
    requires IsBlock(l) && Printable(l)
    ensures ParseTree(PrintText(l, indent)) == Ok(Tree(l))
  {
    PrintedLexes(l, indent);
    BlockHead(l, indent);
    BlockAgrees(l, indent);
    TreesAgree(l, indent);
    BlockIsValid(l, indent);
    G.DocumentIsAccepted(RawBlock(l, indent), Lex(PrintText(l, indent)).value);
  }
}

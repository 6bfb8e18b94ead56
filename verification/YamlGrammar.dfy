/**
 The block structure of the documents that are accepted, stated without the parser's loops: which line stands
 at which column below which. The parser accepts exactly these documents and yields their trees.
 */
module YamlGrammar {
  import opened Yaml
  import opened YamlLayout
  import opened YamlSteps
  import opened YamlStuck

  datatype Block = Mapping(fields: Fields) | Sequence(items: Items)

  /** A line that names a key, what the key holds, and the fields after it. */
  datatype Fields = NoField | Field(line: string, key: string, value: Value, more: Fields)

  /** Behind the key on its line, not at all, or in a block below it. */
  datatype Value = OnLine(text: string, tree: Node) | Missing | Below(indent: nat, block: Block)

  /** An item is a scalar behind its dash, a block below a bare dash, or a mapping that opens behind the dash. */
  datatype Items =
    | NoItem
    | Scalar(text: string, tree: Node, more: Items)
    | Bare(dash: string, indent: nat, block: Block, more: Items)
    | Opening(fields: Fields, more: Items)

  // ---------------------------------------------------------------- trees

  function Tree(b: Block): Node {
    match b
    case Mapping(fs) => Map(TreeFields(fs))
    case Sequence(items) => Seq(TreeItems(items))
  }

  function TreeFields(fs: Fields): map<string, Node> {
    match fs
    case NoField => map[]
    case Field(_, key, value, more) => TreeFields(more)[key := TreeValue(value)]
  }

  function TreeValue(v: Value): Node {
    match v
    case OnLine(_, tree) => tree
    case Missing => Str("")
    case Below(_, block) => Tree(block)
  }

  function TreeItems(items: Items): seq<Node> {
    match items
    case NoItem => []
    case Scalar(_, tree, more) => [tree] + TreeItems(more)
    case Bare(_, _, block, more) => [Tree(block)] + TreeItems(more)
    case Opening(fs, more) => [Map(TreeFields(fs))] + TreeItems(more)
  }

  function FieldKeys(fs: Fields): set<string> {
    match fs
    case NoField => {}
    case Field(_, key, _, more) => {key} + FieldKeys(more)
  }

  // ---------------------------------------------------------------- lines

  function BlockLines(b: Block, indent: nat): seq<Line>
    decreases b, 1
  {
    match b
    case Mapping(fs) => FieldLines(fs, indent)
    case Sequence(items) => ItemLines(items, indent)
  }

  function FieldLines(fs: Fields, indent: nat): seq<Line>
    decreases fs, 1
  {
    match fs
    case NoField => []
    case Field(line, _, value, more) => [Line(indent, line, 0)] + ValueLines(value) + FieldLines(more, indent)
  }

  function ValueLines(v: Value): seq<Line>
    decreases v, 1
  {
    if v.Below? then BlockLines(v.block, v.indent) else []
  }

  function FirstItem(items: Items, indent: nat): seq<Line>
    requires !items.NoItem?
    decreases items, 0
  {
    match items
    case Scalar(text, _, _) => [Line(indent, "- " + text, 0)]
    case Bare(dash, k, block, _) => [Line(indent, dash, 0)] + BlockLines(block, k)
    case Opening(fs, _) => OnDash(FieldLines(fs, indent + 2), indent)
  }

  function ItemLines(items: Items, indent: nat): seq<Line>
    decreases items, 1
  {
    if items.NoItem? then [] else FirstItem(items, indent) + ItemLines(items.more, indent)
  }

  // ---------------------------------------------------------------- what stands where

  /** On any line, the text names this key, with this behind it. */
  ghost predicate SplitsAs(line: string, key: string, rest: string) {
    forall n :: SplitKeyValue(line, n) == Ok((key, rest))
  }

  function Behind(v: Value): string {
    if v.OnLine? then v.text else ""
  }

  ghost predicate ValidBlock(b: Block, indent: nat)
    decreases b, 1
  {
    match b
    case Mapping(fs) => fs.Field? && ValidFields(fs, indent)
    case Sequence(items) => !items.NoItem? && ValidItems(items, indent)
  }

  /** No key twice. */
  ghost predicate ValidFields(fs: Fields, indent: nat)
    decreases fs, 1
  {
    fs.Field? ==>
      && !IsDash(fs.line) && SplitsAs(fs.line, fs.key, Behind(fs.value)) && fs.key !in FieldKeys(fs.more)
      && ValidValue(fs.value, indent) && ValidFields(fs.more, indent)
  }

  /** A block below stands deeper than its key, or is a sequence at its column. */
  ghost predicate ValidValue(v: Value, indent: nat)
    decreases v, 1
  {
    match v
    case OnLine(text, tree) => text != "" && ReadsAs(text, tree)
    case Missing => true
    case Below(k, block) => (k > indent || (k == indent && block.Sequence?)) && ValidBlock(block, k)
  }

  /** A block below a bare dash stands two columns deeper at least, and one that opens behind it exactly two. */
  ghost predicate ValidItems(items: Items, indent: nat)
    decreases items, 1
  {
    match items
    case NoItem => true
    case Scalar(text, tree, more) =>
      text != "" && !OpensMapping(text) && ReadsAs(text, tree) && ValidItems(more, indent)
    case Bare(dash, k, block, more) =>
      IsDash(dash) && AfterDash(dash) == "" && k >= indent + 2 && ValidBlock(block, k) && ValidItems(more, indent)
    case Opening(fs, more) =>
      && fs.Field? && fs.line != "" && OpensMapping(fs.line)
      && ValidFields(fs, indent + 2) && ValidItems(more, indent)
  }

  // ---------------------------------------------------------------- first lines

  lemma FirstItemHead(items: Items, indent: nat)
    requires !items.NoItem? && ValidItems(items, indent)
    ensures var ls := FirstItem(items, indent); ls != [] && ls[0].indent == indent && IsDash(ls[0].content)
  {
    match items
    case Scalar(text, _, _) => DashPrefix(text);
    case Bare(_, _, _, _) =>
    case Opening(fs, _) => DashPrefix(fs.line);
  }

  lemma BlockLinesHead(b: Block, indent: nat)
    requires ValidBlock(b, indent)
    ensures var ls := BlockLines(b, indent);
      ls != [] && ls[0].indent == indent && (IsDash(ls[0].content) <==> b.Sequence?)
  {
    if b.Sequence? {
      FirstItemHead(b.items, indent);
    }
  }

  // ---------------------------------------------------------------- every such document is accepted

  /** The lines after a mapping: nothing at its column or deeper. */
  predicate EndsMapping(rest: seq<Line>, indent: nat) {
    rest == [] || rest[0].indent < indent
  }

  /** The lines after a sequence: nothing deeper, and no dash at its column. */
  predicate EndsSequence(rest: seq<Line>, indent: nat) {
    rest == [] || rest[0].indent < indent || (rest[0].indent == indent && !IsDash(rest[0].content))
  }

  predicate Ends(b: Block, rest: seq<Line>, indent: nat) {
    if b.Mapping? then EndsMapping(rest, indent) else EndsSequence(rest, indent)
  }

  /** A block is what its kind of loop makes of it. */
  lemma BlockOf(block: seq<Line>, indent: nat, rest: seq<Line>, r: Parsed)
    requires block != []
    requires r == if IsDash(block[0].content) then ParseSequence(block + rest, indent, [])
                  else ParseMapping(block + rest, indent, map[])
    ensures ParseBlock(block + rest, indent) == r
  {
    assert (block + rest)[0] == block[0];
    BlockStep(block + rest, indent, r);
  }

  lemma {:induction false} BlockParses(b: Block, indent: nat, rest: seq<Line>)
    requires ValidBlock(b, indent) && Ends(b, rest, indent)
    ensures BlockLines(b, indent) != []
    ensures ParseBlock(BlockLines(b, indent) + rest, indent) == Ok((Tree(b), rest))
    decreases b, 0
  {
    BlockLinesHead(b, indent);
    if b.Mapping? {
      MappingParses(b.fields, indent, rest);
    } else {
      SequenceParses(b.items, indent, rest);
    }
    BlockOf(BlockLines(b, indent), indent, rest, Ok((Tree(b), rest)));
  }

  lemma {:induction false} MappingParses(fs: Fields, indent: nat, rest: seq<Line>)
    requires ValidFields(fs, indent) && EndsMapping(rest, indent)
    ensures ParseMapping(FieldLines(fs, indent) + rest, indent, map[]) == Ok((Map(TreeFields(fs)), rest))
    decreases fs, 3
  {
    FieldsParse(fs, indent, rest, map[]);
    assert map[] + TreeFields(fs) == TreeFields(fs);
  }

  lemma {:induction false} SequenceParses(items: Items, indent: nat, rest: seq<Line>)
    requires ValidItems(items, indent) && EndsSequence(rest, indent)
    ensures ParseSequence(ItemLines(items, indent) + rest, indent, []) == Ok((Seq(TreeItems(items)), rest))
    decreases items, 3
  {
    ItemsParse(items, indent, rest, []);
    assert [] + TreeItems(items) == TreeItems(items);
  }

  /** What a field holds, and what follows it. */
  lemma {:induction false} ValueParses(v: Value, indent: nat, ls: seq<Line>, rest: seq<Line>)
    requires ValidValue(v, indent) && EndsSequence(rest, indent)
    requires ls != [] && ls[1..] == ValueLines(v) + rest
    ensures ParseValue(ls, Behind(v), indent) == Ok((TreeValue(v), rest))
    decreases v, 1
  {
    match v
    case Below(k, block) =>
      BlockLinesHead(block, k);
      assert ls[1] == ls[1..][0] == BlockLines(block, k)[0];
      BlockParses(block, k, rest);
    case _ =>
      assert ls[1..] == rest;
  }

  /** The first line of some fields, and what follows it. */
  lemma FieldFirst(fs: Fields, indent: nat, rest: seq<Line>, ls: seq<Line>)
    requires fs.Field? && ls == FieldLines(fs, indent) + rest
    ensures ls != [] && ls[0] == Line(indent, fs.line, 0)
    ensures ls[1..] == ValueLines(fs.value) + (FieldLines(fs.more, indent) + rest)
  {
    HeadThen(Line(indent, fs.line, 0), ValueLines(fs.value), FieldLines(fs.more, indent), rest);
  }

  lemma TreeFieldsKeys(fs: Fields)
    ensures TreeFields(fs).Keys == FieldKeys(fs)
  {
  }

  lemma AddedField(fs: Fields, m: map<string, Node>)
    requires fs.Field? && fs.key !in FieldKeys(fs.more)
    ensures m[fs.key := TreeValue(fs.value)] + TreeFields(fs.more) == m + TreeFields(fs)
  {
    TreeFieldsKeys(fs.more);
  }

  lemma AfterField(more: Fields, indent: nat, rest: seq<Line>)
    requires ValidFields(more, indent) && EndsMapping(rest, indent)
    ensures EndsSequence(FieldLines(more, indent) + rest, indent)
  {
    if more.Field? {
      FieldFirst(more, indent, rest, FieldLines(more, indent) + rest);
    } else {
      assert FieldLines(more, indent) + rest == rest;
    }
  }

  /** The mapping loop, started with any fields, reads these and stops at the first line that is not its own. */
  lemma {:induction false} FieldsParse(fs: Fields, indent: nat, rest: seq<Line>, m: map<string, Node>)
    requires ValidFields(fs, indent) && EndsMapping(rest, indent) && m.Keys !! FieldKeys(fs)
    ensures ParseMapping(FieldLines(fs, indent) + rest, indent, m) == Ok((Map(m + TreeFields(fs)), rest))
    decreases fs, 2
  {
    var ls := FieldLines(fs, indent) + rest;
    if fs.NoField? {
      assert ls == rest && m + TreeFields(fs) == m;
    } else {
      var after := FieldLines(fs.more, indent) + rest;
      FieldFirst(fs, indent, rest, ls);
      AfterField(fs.more, indent, rest);
      ValueParses(fs.value, indent, ls, after);
      MappingStep(ls, indent, m, fs.key, Behind(fs.value), TreeValue(fs.value), after);
      FieldsParse(fs.more, indent, rest, m[fs.key := TreeValue(fs.value)]);
      AddedField(fs, m);
    }
  }

  lemma ScalarItemParses(items: Items, indent: nat, rest: seq<Line>, ls: seq<Line>)
    requires items.Scalar? && ValidItems(items, indent) && ls == FirstItem(items, indent) + rest
    ensures ParseItem(ls, indent) == Ok((items.tree, rest))
  {
    DashPrefix(items.text);
    assert ls[1..] == rest;
    ScalarItemStep(ls, indent, items.text, Ok(items.tree), rest);
  }

  lemma {:induction false} BareItemParses(items: Items, indent: nat, rest: seq<Line>, ls: seq<Line>)
    requires items.Bare? && ValidItems(items, indent) && EndsSequence(rest, indent + 1)
    requires ls == FirstItem(items, indent) + rest
    ensures ParseItem(ls, indent) == Ok((Tree(items.block), rest))
    decreases items, 0
  {
    var block := BlockLines(items.block, items.indent);
    HeadOver(Line(indent, items.dash, 0), block, rest);
    BlockLinesHead(items.block, items.indent);
    BlockParses(items.block, items.indent, rest);
    assert (block + rest)[0] == block[0];
    BareItemStep(ls, indent, block + rest, Ok((Tree(items.block), rest)));
  }

  lemma Regrouped(head: Line, body: seq<Line>, rest: seq<Line>)
    requires body != []
    ensures ([head] + body[1..] + rest)[0] == head
    ensures [body[0]] + ([head] + body[1..] + rest)[1..] == body + rest
  {
    assert ([head] + body[1..] + rest)[1..] == body[1..] + rest;
  }

  /** Moving a line behind a dash is undone by the rewrite. */
  lemma RewriteRestores(body: seq<Line>, indent: nat, rest: seq<Line>)
    requires body != [] && body[0].indent == indent + 2 && body[0].lineNo == 0
    ensures var ls := OnDash(body, indent) + rest;
      && AtItem(ls, indent)
      && AfterDash(ls[0].content) == body[0].content
      && Rewritten(ls, indent) == body + rest
  {
    DashPrefix(body[0].content);
    Regrouped(Line(indent, "- " + body[0].content, 0), body, rest);
  }

  lemma {:induction false} OpeningItemParses(items: Items, indent: nat, rest: seq<Line>, ls: seq<Line>)
    requires items.Opening? && ValidItems(items, indent) && EndsMapping(rest, indent + 2)
    requires ls == FirstItem(items, indent) + rest && AtItem(ls, indent)
    ensures ParseItem(ls, indent) == Ok((Map(TreeFields(items.fields)), rest))
    decreases items, 0
  {
    var body := FieldLines(items.fields, indent + 2);
    MappingParses(items.fields, indent + 2, rest);
    RewriteRestores(body, indent, rest);
    RewriteStep(ls, indent, items.fields.line, Ok((Map(TreeFields(items.fields)), rest)));
  }

  lemma AfterItem(more: Items, indent: nat, rest: seq<Line>)
    requires ValidItems(more, indent) && EndsSequence(rest, indent)
    ensures EndsSequence(ItemLines(more, indent) + rest, indent + 1)
  {
    if !more.NoItem? {
      FirstItemHead(more, indent);
    } else {
      assert ItemLines(more, indent) + rest == rest;
    }
  }

  function FirstTree(items: Items): Node
    requires !items.NoItem?
  {
    match items
    case Scalar(_, tree, _) => tree
    case Bare(_, _, block, _) => Tree(block)
    case Opening(fs, _) => Map(TreeFields(fs))
  }

  lemma {:induction false} ItemParses(items: Items, indent: nat, rest: seq<Line>)
    requires !items.NoItem? && ValidItems(items, indent) && EndsSequence(rest, indent + 1)
    ensures AtItem(FirstItem(items, indent) + rest, indent)
    ensures ParseItem(FirstItem(items, indent) + rest, indent) == Ok((FirstTree(items), rest))
    decreases items, 1
  {
    FirstItemHead(items, indent);
    match items
    case Scalar(_, _, _) => ScalarItemParses(items, indent, rest, FirstItem(items, indent) + rest);
    case Bare(_, _, _, _) => BareItemParses(items, indent, rest, FirstItem(items, indent) + rest);
    case Opening(_, _) => OpeningItemParses(items, indent, rest, FirstItem(items, indent) + rest);
  }

  /** The sequence loop reads these items in order and stops at the first line that is not its own. */
  lemma {:induction false} ItemsParse(items: Items, indent: nat, rest: seq<Line>, acc: seq<Node>)
    requires ValidItems(items, indent) && EndsSequence(rest, indent)
    ensures ParseSequence(ItemLines(items, indent) + rest, indent, acc) == Ok((Seq(acc + TreeItems(items)), rest))
    decreases items, 2
  {
    if items.NoItem? {
      assert ItemLines(items, indent) + rest == rest && acc + TreeItems(items) == acc;
    } else {
      var head, after := FirstItem(items, indent), ItemLines(items.more, indent) + rest;
      AfterItem(items.more, indent, rest);
      ItemParses(items, indent, after);
      SequenceStep(head + after, indent, acc, FirstTree(items), after);
      ItemsParse(items.more, indent, rest, acc + [FirstTree(items)]);
      Regroup(head, ItemLines(items.more, indent), rest);
      Regroup(acc, [FirstTree(items)], TreeItems(items.more));
    }
  }

  // ---------------------------------------------------------------- nothing else is accepted

  /** No line opens a dash item behind a dash; only such lines are handed back rewritten. */
  ghost predicate Plain(ls: seq<Line>) {
    forall i | 0 <= i < |ls| :: !NestedDash(ls[i])
  }

  /** The rest is what is left of the lines behind these. */
  ghost predicate Consumed(ls: seq<Line>, rest: seq<Line>, lines: seq<Line>) {
    && |rest| <= |ls| && rest == ls[|ls| - |rest|..]
    && Shifted(lines, ls[..|ls| - |rest|], 0)
  }

  lemma ConsumedBoth(ls: seq<Line>, mid: seq<Line>, rest: seq<Line>, a: seq<Line>, b: seq<Line>)
    requires Consumed(ls, mid, a) && Consumed(mid, rest, b)
    ensures Consumed(ls, rest, a + b)
  {
    var n := |ls| - |mid|;
    assert rest == ls[|ls| - |rest|..];
    forall i | 0 <= i < |a + b| ensures var x := ls[..|ls| - |rest|][i];
      x.indent == (a + b)[i].indent && x.content == (a + b)[i].content
    {
      if i >= n {
        assert ls[i] == mid[i - n] && mid[..|mid| - |rest|][i - n] == mid[i - n];
      } else {
        assert ls[..n][i] == ls[i];
      }
    }
  }

  /** One line, and what was consumed behind it. */
  lemma ConsumedOver(ls: seq<Line>, rest: seq<Line>, first: Line, more: seq<Line>)
    requires ls != [] && first.indent == ls[0].indent && first.content == ls[0].content
    requires Consumed(ls[1..], rest, more)
    ensures Consumed(ls, rest, [first] + more)
  {
    assert ls[..1] == [ls[0]];
    ConsumedBoth(ls, ls[1..], rest, [first], more);
  }

  lemma ConsumedNone(ls: seq<Line>)
    ensures Consumed(ls, ls, [])
  {
    assert ls[0..] == ls;
  }

  lemma StaysPlain(ls: seq<Line>, rest: seq<Line>, lines: seq<Line>)
    requires Plain(ls) && Consumed(ls, rest, lines)
    ensures Plain(rest)
  {
    forall i | 0 <= i < |rest| ensures !NestedDash(rest[i]) {
      assert rest[i] == ls[|ls| - |rest| + i];
    }
  }

  lemma RewrittenIsPlain(ls: seq<Line>, indent: nat)
    requires Plain(ls) && ls != [] && IsDash(ls[0].content)
    requires AfterDash(ls[0].content) != "" && OpensMapping(AfterDash(ls[0].content))
    ensures Plain(Rewritten(ls, indent)) && AtEntry(Rewritten(ls, indent), indent + 2)
  {
    var again := Rewritten(ls, indent);
    forall i | 0 <= i < |again| ensures !NestedDash(again[i]) {
      if i > 0 {
        assert again[i] == again[1..][i - 1] == ls[i];
      }
    }
  }

  lemma SplitsAnywhere(line: string, n: nat)
    requires SplitKeyValue(line, n).Ok?
    ensures SplitsAs(line, SplitKeyValue(line, n).value.0, SplitKeyValue(line, n).value.1)
  {
  }

  lemma {:induction false} BlockBack(ls: seq<Line>, indent: nat) returns (b: Block)
    requires Plain(ls) && ls != [] && ls[0].indent == indent && ParseBlock(ls, indent).Ok?
    ensures var (val, rest) := ParseBlock(ls, indent).value;
      && ValidBlock(b, indent) && val == Tree(b) && Consumed(ls, rest, BlockLines(b, indent))
      && (b.Sequence? <==> IsDash(ls[0].content))
    decreases Weight(ls), 4
  {
    if IsDash(ls[0].content) {
      var items := SequenceBack(ls, indent);
      b := Sequence(items);
    } else {
      var fs := MappingBack(ls, indent);
      b := Mapping(fs);
    }
  }

  lemma {:induction false} MappingBack(ls: seq<Line>, indent: nat) returns (fs: Fields)
    requires Plain(ls) && AtEntry(ls, indent) && ParseMapping(ls, indent, map[]).Ok?
    ensures var (val, rest) := ParseMapping(ls, indent, map[]).value;
      && fs.Field? && fs.line == ls[0].content && ValidFields(fs, indent)
      && val == Map(TreeFields(fs)) && Consumed(ls, rest, FieldLines(fs, indent))
    decreases Weight(ls), 3
  {
    fs := FieldsBack(ls, indent, map[]);
    assert map[] + TreeFields(fs) == TreeFields(fs);
  }

  lemma {:induction false} SequenceBack(ls: seq<Line>, indent: nat) returns (items: Items)
    requires Plain(ls) && AtItem(ls, indent) && ParseSequence(ls, indent, []).Ok?
    ensures var (val, rest) := ParseSequence(ls, indent, []).value;
      && !items.NoItem? && ValidItems(items, indent)
      && val == Seq(TreeItems(items)) && Consumed(ls, rest, ItemLines(items, indent))
    decreases Weight(ls), 3
  {
    items := ItemsBack(ls, indent, []);
    assert [] + TreeItems(items) == TreeItems(items);
  }

  lemma {:induction false} ValueBack(ls: seq<Line>, rest: string, indent: nat) returns (v: Value)
    requires Plain(ls) && ls != [] && ParseValue(ls, rest, indent).Ok?
    ensures var (val, after) := ParseValue(ls, rest, indent).value;
      && ValidValue(v, indent) && Behind(v) == rest && val == TreeValue(v)
      && Consumed(ls[1..], after, ValueLines(v))
    decreases Weight(ls), 1, 0
  {
    ConsumedNone(ls[1..]);
    if rest != "" {
      ReadsAnywhere(rest, ls[0].lineNo);
      v := OnLine(rest, ParseScalar(rest, ls[0].lineNo).value);
    } else if StartsChild(ls[1..], indent) {
      assert ls[1] == ls[1..][0];
      var block := BlockBack(ls[1..], ls[1].indent);
      v := Below(ls[1].indent, block);
    } else {
      v := Missing;
    }
  }

  /** These fields are what the mapping loop has read. */
  ghost predicate FieldsAre(ls: seq<Line>, indent: nat, m: map<string, Node>, fs: Fields)
    requires ParseMapping(ls, indent, m).Ok?
  {
    var (val, rest) := ParseMapping(ls, indent, m).value;
    && ValidFields(fs, indent) && FieldKeys(fs) !! m.Keys && val == Map(m + TreeFields(fs))
    && Consumed(ls, rest, FieldLines(fs, indent))
  }

  lemma FieldsOver(ls: seq<Line>, indent: nat, m: map<string, Node>, key: string, tree: Node, after: seq<Line>,
                   v: Value, more: Fields)
    requires AtEntry(ls, indent) && SplitsAs(ls[0].content, key, Behind(v)) && key !in m
    requires ValidValue(v, indent) && tree == TreeValue(v)
    requires Consumed(ls, after, [Line(indent, ls[0].content, 0)] + ValueLines(v))
    requires ParseMapping(ls, indent, m) == ParseMapping(after, indent, m[key := tree])
    requires ParseMapping(ls, indent, m).Ok? && FieldsAre(after, indent, m[key := tree], more)
    ensures FieldsAre(ls, indent, m, Field(ls[0].content, key, v, more))
  {
    AddedField(Field(ls[0].content, key, v, more), m);
    ConsumedBoth(ls, after, ParseMapping(ls, indent, m).value.1,
                 [Line(indent, ls[0].content, 0)] + ValueLines(v), FieldLines(more, indent));
  }

  lemma {:induction false} FieldsBack(ls: seq<Line>, indent: nat, m: map<string, Node>) returns (fs: Fields)
    requires Plain(ls) && ParseMapping(ls, indent, m).Ok?
    ensures FieldsAre(ls, indent, m, fs)
    ensures fs.Field? <==> AtEntry(ls, indent)
    ensures fs.Field? ==> fs.line == ls[0].content
    decreases Weight(ls), 2
  {
    if !AtEntry(ls, indent) {
      fs := NoField;
      ConsumedNone(ls);
      assert m + TreeFields(fs) == m;
    } else {
      var (key, text) := SplitKeyValue(ls[0].content, ls[0].lineNo).value;
      var (tree, after) := ParseValue(ls, text, indent).value;
      var v := FieldBack(ls, indent, text);
      MappingStep(ls, indent, m, key, text, tree, after);
      var more := FieldsBack(after, indent, m[key := tree]);
      fs := Field(ls[0].content, key, v, more);
      SplitsAnywhere(ls[0].content, ls[0].lineNo);
      FieldsOver(ls, indent, m, key, tree, after, v, more);
    }
  }

  /** The first of them, and the lines it takes. */
  lemma {:induction false} FieldBack(ls: seq<Line>, indent: nat, text: string) returns (v: Value)
    requires Plain(ls) && AtEntry(ls, indent) && ParseValue(ls, text, indent).Ok?
    ensures var (tree, after) := ParseValue(ls, text, indent).value;
      && ValidValue(v, indent) && Behind(v) == text && tree == TreeValue(v) && Plain(after)
      && Consumed(ls, after, [Line(indent, ls[0].content, 0)] + ValueLines(v))
    decreases Weight(ls), 1, 1
  {
    var after := ParseValue(ls, text, indent).value.1;
    v := ValueBack(ls, text, indent);
    ConsumedOver(ls, after, Line(indent, ls[0].content, 0), ValueLines(v));
    StaysPlain(ls, after, [Line(indent, ls[0].content, 0)] + ValueLines(v));
  }

  /** What an item says of itself does not depend on the items after it. */
  lemma ReplacedMore(one: Items, more: Items, indent: nat)
    requires !one.NoItem? && ValidItems(one, indent) && ValidItems(more, indent)
    ensures var items := one.(more := more);
      && ValidItems(items, indent) && FirstItem(items, indent) == FirstItem(one, indent)
      && TreeItems(items) == [FirstTree(one)] + TreeItems(more)
  {
  }

  lemma {:induction false} ItemsBack(ls: seq<Line>, indent: nat, acc: seq<Node>) returns (items: Items)
    requires Plain(ls) && ParseSequence(ls, indent, acc).Ok?
    ensures var (val, rest) := ParseSequence(ls, indent, acc).value;
      && ValidItems(items, indent) && val == Seq(acc + TreeItems(items))
      && Consumed(ls, rest, ItemLines(items, indent))
      && (items.NoItem? <==> !AtItem(ls, indent))
    decreases Weight(ls), 2
  {
    if !AtItem(ls, indent) {
      items := NoItem;
      ConsumedNone(ls);
      assert acc + TreeItems(items) == acc;
    } else {
      var item := ParseItem(ls, indent).value;
      var one := ItemBack(ls, indent);
      StaysPlain(ls, item.1, FirstItem(one, indent));
      var more := ItemsBack(item.1, indent, acc + [item.0]);
      items := one.(more := more);
      ReplacedMore(one, more, indent);
      ConsumedBoth(ls, item.1, ParseSequence(ls, indent, acc).value.1, FirstItem(one, indent), ItemLines(more, indent));
      Regroup(acc, [item.0], TreeItems(more));
    }
  }

  /** This one item is what one round of the sequence loop has read. */
  ghost predicate ItemIs(ls: seq<Line>, indent: nat, one: Items)
    requires AtItem(ls, indent) && ParseItem(ls, indent).Ok?
  {
    var (val, rest) := ParseItem(ls, indent).value;
    && !one.NoItem? && ValidItems(one, indent) && val == FirstTree(one)
    && Consumed(ls, rest, FirstItem(one, indent))
  }

  lemma DashedText(content: string)
    requires IsDash(content) && AfterDash(content) != ""
    ensures content == "- " + AfterDash(content)
  {
  }

  lemma ScalarBack(ls: seq<Line>, indent: nat) returns (one: Items)
    requires AtItem(ls, indent) && ParseItem(ls, indent).Ok?
    requires AfterDash(ls[0].content) != "" && !OpensMapping(AfterDash(ls[0].content))
    ensures ItemIs(ls, indent, one)
  {
    var text := AfterDash(ls[0].content);
    DashedText(ls[0].content);
    ReadsAnywhere(text, ls[0].lineNo);
    one := Scalar(text, ParseScalar(text, ls[0].lineNo).value, NoItem);
    ConsumedNone(ls[1..]);
    ConsumedOver(ls, ls[1..], Line(indent, ls[0].content, 0), []);
  }

  lemma {:induction false} ItemBack(ls: seq<Line>, indent: nat) returns (one: Items)
    requires Plain(ls) && AtItem(ls, indent) && ParseItem(ls, indent).Ok?
    ensures ItemIs(ls, indent, one)
    decreases Weight(ls), 1
  {
    if AfterDash(ls[0].content) == "" {
      one := BareBack(ls, indent);
    } else if !OpensMapping(AfterDash(ls[0].content)) {
      one := ScalarBack(ls, indent);
    } else {
      one := OpeningBack(ls, indent);
    }
  }

  lemma {:induction false} BareBack(ls: seq<Line>, indent: nat) returns (one: Items)
    requires Plain(ls) && AtItem(ls, indent) && ParseItem(ls, indent).Ok? && AfterDash(ls[0].content) == ""
    ensures ItemIs(ls, indent, one)
    decreases Weight(ls), 0
  {
    assert ls[1] == ls[1..][0];
    var block := BlockBack(ls[1..], ls[1].indent);
    one := Bare(ls[0].content, ls[1].indent, block, NoItem);
    ConsumedOver(ls, ParseItem(ls, indent).value.1, Line(indent, ls[0].content, 0), BlockLines(block, ls[1].indent));
  }

  /** What was consumed of the rewritten lines, moved back behind the dash. */
  lemma BackOnDash(ls: seq<Line>, again: seq<Line>, rest: seq<Line>, lines: seq<Line>, indent: nat)
    requires ls != [] && |again| == |ls| && again[1..] == ls[1..] && lines != []
    requires Consumed(again, rest, lines)
    requires ls[0].indent == indent && ls[0].content == "- " + again[0].content
    ensures Consumed(ls, rest, OnDash(lines, indent))
  {
    var n := |ls| - |rest|;
    assert again == [again[0]] + ls[1..] && ls == [ls[0]] + ls[1..];
    assert rest == ls[n..];
    var moved := OnDash(lines, indent);
    assert again[..n][0] == again[0];
    forall i | 0 <= i < |moved| ensures ls[..n][i].indent == moved[i].indent && ls[..n][i].content == moved[i].content {
      if i > 0 {
        assert moved[i] == lines[i] && ls[..n][i] == ls[i] == again[i] == again[..n][i];
      }
    }
  }

  /** The fields read from the rewritten lines, with the dash put back, are the item. */
  lemma OpeningIs(ls: seq<Line>, indent: nat, fs: Fields)
    requires AtItem(ls, indent) && AfterDash(ls[0].content) != "" && ParseItem(ls, indent).Ok?
    requires ValidItems(Opening(fs, NoItem), indent)
    requires FieldLines(fs, indent + 2) != []
    requires var (val, rest) := ParseItem(ls, indent).value;
      && val == Map(TreeFields(fs))
      && Consumed(Rewritten(ls, indent), rest, FieldLines(fs, indent + 2))
    ensures ItemIs(ls, indent, Opening(fs, NoItem))
  {
    DashedText(ls[0].content);
    BackOnDash(ls, Rewritten(ls, indent), ParseItem(ls, indent).value.1, FieldLines(fs, indent + 2), indent);
  }

  lemma {:induction false} OpeningBack(ls: seq<Line>, indent: nat) returns (one: Items)
    requires Plain(ls) && AtItem(ls, indent) && ParseItem(ls, indent).Ok?
    requires AfterDash(ls[0].content) != "" && OpensMapping(AfterDash(ls[0].content))
    ensures ItemIs(ls, indent, one)
    decreases Weight(ls), 0
  {
    var again := Rewritten(ls, indent);
    RewrittenIsPlain(ls, indent);
    RewriteStep(ls, indent, AfterDash(ls[0].content), ParseMapping(again, indent + 2, map[]));
    var fs := MappingBack(again, indent + 2);
    one := Opening(fs, NoItem);
    OpeningIs(ls, indent, fs);
  }

  /** The lines are those of the block, whatever their numbers. */
  ghost predicate Documents(b: Block, ls: seq<Line>) {
    ls != [] && ValidBlock(b, ls[0].indent) && Shifted(BlockLines(b, ls[0].indent), ls, 0)
  }

  lemma AcceptedIsPlain(ls: seq<Line>)
    requires ls != [] && ParseLines(ls).Ok?
    ensures Plain(ls)
  {
    BlockHonest(ls);
  }

  lemma DocumentIsAccepted(b: Block, ls: seq<Line>)
    requires Documents(b, ls)
    ensures ParseLines(ls) == Ok(Tree(b))
  {
    var indent := ls[0].indent;
    BlockLinesHead(b, indent);
    BlockParses(b, indent, []);
    assert BlockLines(b, indent) + [] == BlockLines(b, indent);
    LinesShift(BlockLines(b, indent), ls, 0);
  }

  lemma AcceptedIsDocument(ls: seq<Line>) returns (b: Block)
    requires ls != [] && ParseLines(ls).Ok?
    ensures Documents(b, ls) && ParseLines(ls) == Ok(Tree(b))
  {
    AcceptedIsPlain(ls);
    b := BlockBack(ls, ls[0].indent);
    assert ls[..|ls|] == ls;
  }

  /** Exactly the lines of such a block are accepted, with its tree; and no lines at all, as an empty mapping. */
  lemma AcceptedExactly(ls: seq<Line>, n: Node)
    ensures ParseLines(ls) == Ok(n) <==>
      (ls == [] && n == Map(map[])) || exists b :: Documents(b, ls) && Tree(b) == n
  {
    if ls != [] && ParseLines(ls) == Ok(n) {
      var b := AcceptedIsDocument(ls);
    }
    forall b | Documents(b, ls) && Tree(b) == n ensures ParseLines(ls) == Ok(n) {
      DocumentIsAccepted(b, ls);
    }
  }
}

/**
 The parser as it runs: a cursor over the lines, moved in loops, and a current line that is
 rewritten in place. Every method is proved to compute the function of module Yaml with its name.
 */
module YamlParser {
  import opened Strings
  import opened Yaml
  import opened YamlSteps

  /** Lexing, line by line into a growing list. */
  method LexText(text: string) returns (r: Outcome<seq<Line>>)
    ensures r == Lex(text)
  {
    var raws := SplitLines(text);
    var out: seq<Line> := [];
    for i := 0 to |raws|
      invariant LexFrom(raws[i..], i, out) == Lex(text)
    {
      assert raws[i..][1..] == raws[i + 1..];
      var line := TrimRight(raws[i], IsPadding);
      var trimmed := TrimLeft(line, IsBlank);
      if trimmed == "" || trimmed[0] == '#' {
        continue;
      }
      var indent := |line| - |trimmed|;
      if '\t' in line[..indent] {
        return Err(i + 1, TabIndent);
      }
      if trimmed == "---" {
        if |out| > 0 {
          return Err(i + 1, MultiDocument);
        }
        continue;
      }
      out := out + [Line(indent, trimmed, i + 1)];
    }
    return Ok(out);
  }

  /** Splitting a flow body on its unquoted commas, one character at a time. */
  method SplitParts(s: string) returns (parts: seq<string>)
    ensures parts == SplitFlowParts(s)
  {
    parts := [];
    var cur := "";
    var quote := NO_QUOTE;
    for i := 0 to |s|
      invariant parts + SplitFlowFrom(s[i..], quote, cur) == SplitFlowParts(s)
    {
      var c := s[i];
      assert s[i..][0] == c && s[i..][1..] == s[i + 1..];
      if quote != NO_QUOTE {
        if c == quote {
          quote := NO_QUOTE;
        }
        cur := cur + [c];
      } else if c == '"' || c == '\'' {
        quote := c;
        cur := cur + [c];
      } else if c == ',' {
        assert parts + ([cur] + SplitFlowFrom(s[i + 1..], NO_QUOTE, ""))
            == (parts + [cur]) + SplitFlowFrom(s[i + 1..], NO_QUOTE, "");
        parts := parts + [cur];
        cur := "";
      } else {
        cur := cur + [c];
      }
    }
    parts := parts + [cur];
  }

  method ReadFlowMap(s: string, lineNo: nat) returns (r: Outcome<Node>)
    requires s != "" && s[0] == '{' && Trimmed(s)
    ensures r == ParseScalar(s, lineNo)
  {
    ghost var spec := ParseScalar(s, lineNo);
    TrimSpaceFixes(s);
    var inner := FlowInner(s, '{', '}', lineNo);
    if !inner.Ok? {
      return inner.PropagateFailure();
    }
    var parts := SplitParts(inner.value);
    var m: map<string, Node> := map[];
    for i := 0 to |parts|
      invariant ParseFlowMap(parts[i..], lineNo, m) == spec
    {
      assert parts[i..][0] == parts[i] && parts[i..][1..] == parts[i + 1..];
      var part := TrimSpace(parts[i]);
      if part == "" {
        FlowMapSkips(parts[i..], lineNo, m);
        continue;
      }
      var kv := SplitKeyValue(part, lineNo);
      if !kv.Ok? {
        FlowMapFails(parts[i..], lineNo, m, part);
        return kv.PropagateFailure();
      }
      FlowMapStep(parts[i..], lineNo, m, part, kv.value.0, kv.value.1);
      var val := ParseScalar(kv.value.1, lineNo);
      if !val.Ok? {
        return val;
      }
      m := m[kv.value.0 := val.value];
    }
    return Ok(Map(m));
  }

  method ReadFlowSeq(s: string, lineNo: nat) returns (r: Outcome<Node>)
    requires s != "" && s[0] == '[' && Trimmed(s)
    ensures r == ParseScalar(s, lineNo)
  {
    ghost var spec := ParseScalar(s, lineNo);
    TrimSpaceFixes(s);
    var inner := FlowInner(s, '[', ']', lineNo);
    if !inner.Ok? {
      return inner.PropagateFailure();
    }
    var parts := SplitParts(inner.value);
    var items: seq<Node> := [];
    for i := 0 to |parts|
      invariant ParseFlowSeq(parts[i..], lineNo, items) == spec
    {
      assert parts[i..][0] == parts[i] && parts[i..][1..] == parts[i + 1..];
      var part := TrimSpace(parts[i]);
      if part == "" {
        continue;
      }
      var val := ParseScalar(part, lineNo);
      if !val.Ok? {
        return val;
      }
      items := items + [val.value];
    }
    return Ok(Seq(items));
  }

  /** A method's outcome and the lines it leaves, against what the function yields. */
  ghost predicate Yields(spec: Parsed, r: Outcome<Node>, rest: seq<Line>) {
    match spec
    case Ok(parsed) => r == Ok(parsed.0) && rest == parsed.1
    case Err(n, f) => r == Err(n, f)
    case Crash => r == Crash
  }

  class Parser {
    var lines: seq<Line>
    var pos: nat

    constructor (lines: seq<Line>)
      ensures Valid() && Rest() == this.lines == lines && pos == 0
    {
      this.lines := lines;
      pos := 0;
    }

    ghost predicate Valid()
      reads this
    {
      pos <= |lines|
    }

    /** The lines not yet consumed, the current one as last rewritten. */
    ghost function Rest(): seq<Line>
      requires Valid()
      reads this
    {
      lines[pos..]
    }

    /** The cursor only advances, and nothing behind it changes. */
    twostate predicate Advanced()
      reads this
    {
      && |lines| == |old(lines)|
      && old(pos) <= pos
      && forall i | 0 <= i < old(pos) && i < |lines| :: lines[i] == old(lines)[i]
    }

    method ParseBlock(indent: nat) returns (r: Outcome<Node>)
      requires Valid() && pos < |lines|
      modifies this
      ensures Valid() && Advanced()
      ensures Yields(Yaml.ParseBlock(old(Rest()), indent), r, Rest())
      decreases Weight(Rest()), 3
    {
      if IsDash(lines[pos].content) {
        r := ParseSequence(indent);
      } else {
        r := ParseMapping(indent);
      }
    }

    method ParseSequence(indent: nat) returns (r: Outcome<Node>)
      requires Valid()
      modifies this
      ensures Valid() && Advanced()
      ensures Yields(Yaml.ParseSequence(old(Rest()), indent, []), r, Rest())
      decreases Weight(Rest()), 2
    {
      ghost var spec := Yaml.ParseSequence(Rest(), indent, []);
      var items: seq<Node> := [];
      while pos < |lines|
        invariant Valid() && Advanced()
        invariant Yaml.ParseSequence(Rest(), indent, items) == spec
        invariant Weight(Rest()) <= Weight(old(Rest()))
        decreases Weight(Rest())
      {
        if lines[pos].indent != indent || !IsDash(lines[pos].content) {
          break;
        }
        var item := ParseItem(indent);
        if !item.Ok? {
          return item;
        }
        items := items + [item.value];
      }
      return Ok(Seq(items));
    }

    /** One iteration of ParseSequence. */
    method ParseItem(indent: nat) returns (r: Outcome<Node>)
      requires Valid() && pos < |lines| && IsDash(lines[pos].content)
      modifies this
      ensures Valid() && Advanced()
      ensures Yields(Yaml.ParseItem(old(Rest()), indent), r, Rest())
      decreases Weight(Rest()), 1
    {
      var line := lines[pos];
      var rest := AfterDash(line.content);
      if rest == "" {
        r := ParseBareItem(indent);
      } else if ':' !in rest || IsFlowOrQuoted(rest) {
        r := ParseScalar(rest, line.lineNo);
        pos := pos + 1;
        ScalarItemStep(old(Rest()), indent, rest, r, Rest());
      } else {
        r := ParseInlineItem(indent, rest);
      }
    }

    /** A bare dash: the item is the block below it. */
    method ParseBareItem(indent: nat) returns (r: Outcome<Node>)
      requires Valid() && pos < |lines| && IsDash(lines[pos].content) && AfterDash(lines[pos].content) == ""
      modifies this
      ensures Valid() && Advanced()
      ensures Yields(Yaml.ParseItem(old(Rest()), indent), r, Rest())
      decreases Weight(Rest()), 0
    {
      var line := lines[pos];
      pos := pos + 1;
      assert Rest() == old(Rest())[1..];
      if pos >= |lines| || lines[pos].indent < indent + 2 {
        return Err(line.lineNo, EmptyItem);
      }
      BareItemStep(old(Rest()), indent, Rest(), Yaml.ParseBlock(Rest(), lines[pos].indent));
      r := ParseBlock(lines[pos].indent);
    }

    /** An item that opens a mapping: the current line is rewritten in place, two columns deeper. */
    method ParseInlineItem(indent: nat, rest: string) returns (r: Outcome<Node>)
      requires Valid() && pos < |lines| && IsDash(lines[pos].content) && AfterDash(lines[pos].content) == rest
      requires rest != "" && OpensMapping(rest)
      modifies this
      ensures Valid() && Advanced()
      ensures Yields(Yaml.ParseItem(old(Rest()), indent), r, Rest())
      decreases Weight(Rest()), 0
    {
      lines := lines[pos := Line(indent + 2, rest, lines[pos].lineNo)];
      assert Rest() == Rewritten(old(Rest()), indent);
      RewriteStep(old(Rest()), indent, rest, Yaml.ParseMapping(Rest(), indent + 2, map[]));
      r := ParseMapping(indent + 2);
    }

    method ParseMapping(indent: nat) returns (r: Outcome<Node>)
      requires Valid()
      modifies this
      ensures Valid() && Advanced()
      ensures Yields(Yaml.ParseMapping(old(Rest()), indent, map[]), r, Rest())
      decreases Weight(Rest()), 2
    {
      ghost var spec := Yaml.ParseMapping(Rest(), indent, map[]);
      var m: map<string, Node> := map[];
      while pos < |lines|
        invariant Valid() && Advanced()
        invariant Yaml.ParseMapping(Rest(), indent, m) == spec
        invariant Weight(Rest()) <= Weight(old(Rest()))
        decreases Weight(Rest())
      {
        var line := lines[pos];
        if line.indent != indent || IsDash(line.content) {
          break;
        }
        var kv := SplitKeyValue(line.content, line.lineNo);
        if !kv.Ok? {
          return kv.PropagateFailure();
        }
        if kv.value.0 in m {
          return Err(line.lineNo, DuplicateKey);
        }
        ghost var before, parsed := Rest(), Yaml.ParseValue(Rest(), kv.value.1, indent);
        var val := ParseValue(kv.value.1, indent);
        if !val.Ok? {
          MappingFails(before, indent, m, kv.value.0, kv.value.1, parsed);
          return val;
        }
        MappingStep(before, indent, m, kv.value.0, kv.value.1, val.value, Rest());
        m := m[kv.value.0 := val.value];
      }
      return Ok(Map(m));
    }

    /** The rest of one iteration of ParseMapping, once the key is split off. */
    method ParseValue(rest: string, indent: nat) returns (r: Outcome<Node>)
      requires Valid() && pos < |lines|
      modifies this
      ensures Valid() && Advanced()
      ensures Yields(Yaml.ParseValue(old(Rest()), rest, indent), r, Rest())
      decreases Weight(Rest()), 0
    {
      var lineNo := lines[pos].lineNo;
      pos := pos + 1;
      assert Rest() == old(Rest())[1..];
      if rest != "" {
        r := ParseScalar(rest, lineNo);
      } else if pos < |lines|
        && (lines[pos].indent > indent || (lines[pos].indent == indent && IsDash(lines[pos].content))) {
        r := ParseBlock(lines[pos].indent);
      } else {
        r := Ok(Str(""));
      }
    }
  }

  method ParseDocument(text: string) returns (r: Outcome<Node>)
    ensures r == ParseTree(text)
  {
    var lexed := LexText(text);
    if !lexed.Ok? {
      return lexed.PropagateFailure();
    }
    var lines := lexed.value;
    if |lines| == 0 {
      return Ok(Map(map[]));
    }
    var p := new Parser(lines);
    var node := p.ParseBlock(lines[0].indent);
    if !node.Ok? {
      return node;
    }
    if p.pos != |p.lines| {
      return Err(p.lines[p.pos].lineNo, Unexpected);
    }
    return node;
  }
}

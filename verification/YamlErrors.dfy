/** Where errors point: to a line of the document that was still to be consumed, and for a scalar to its own. */
module YamlErrors {
  import opened Strings
  import opened Yaml
  import opened YamlLex

  function Numbers(ls: seq<Line>): set<nat> {
    set l | l in ls :: l.lineNo
  }

  lemma {:induction false} ScalarPoints(raw: string, n: nat)
    ensures ParseScalar(raw, n).Err? ==> ParseScalar(raw, n).line == n
    decreases |raw|, 1
  {
    var s := TrimSpace(raw);
    if s != "" && s[0] == '{' && FlowInner(s, '{', '}', n).Ok? {
      FlowMapPoints(SplitFlowParts(FlowInner(s, '{', '}', n).value), n, map[]);
    } else if s != "" && s[0] == '[' && FlowInner(s, '[', ']', n).Ok? {
      FlowSeqPoints(SplitFlowParts(FlowInner(s, '[', ']', n).value), n, []);
    }
  }

  lemma {:induction false} FlowMapPoints(parts: seq<string>, n: nat, m: map<string, Node>)
    ensures ParseFlowMap(parts, n, m).Err? ==> ParseFlowMap(parts, n, m).line == n
    decreases Size(parts), 0
  {
    if parts != [] {
      var part := TrimSpace(parts[0]);
      if part == "" {
        FlowMapPoints(parts[1..], n, m);
      } else if SplitKeyValue(part, n).Ok? {
        var (key, rest) := SplitKeyValue(part, n).value;
        ScalarPoints(rest, n);
        if ParseScalar(rest, n).Ok? {
          FlowMapPoints(parts[1..], n, m[key := ParseScalar(rest, n).value]);
        }
      }
    }
  }

  lemma {:induction false} FlowSeqPoints(parts: seq<string>, n: nat, acc: seq<Node>)
    ensures ParseFlowSeq(parts, n, acc).Err? ==> ParseFlowSeq(parts, n, acc).line == n
    decreases Size(parts), 0
  {
    if parts != [] {
      var part := TrimSpace(parts[0]);
      if part == "" {
        FlowSeqPoints(parts[1..], n, acc);
      } else {
        ScalarPoints(part, n);
        if ParseScalar(part, n).Ok? {
          FlowSeqPoints(parts[1..], n, acc + [ParseScalar(part, n).value]);
        }
      }
    }
  }

  /** An error is on one of the lines, and what is left are some of them. */
  ghost predicate Points(r: Parsed, ls: seq<Line>) {
    match r
    case Ok(p) => Numbers(p.1) <= Numbers(ls)
    case Err(n, _) => n in Numbers(ls)
    case Crash => true
  }

  lemma Fewer(ls: seq<Line>)
    requires ls != []
    ensures Numbers(ls[1..]) <= Numbers(ls) && ls[0].lineNo in Numbers(ls)
  {
  }

  lemma {:induction false} BlockPoints(ls: seq<Line>, indent: nat)
    requires ls != []
    ensures Points(ParseBlock(ls, indent), ls)
    decreases Weight(ls), 2
  {
    if IsDash(ls[0].content) {
      SequencePoints(ls, indent, []);
    } else {
      MappingPoints(ls, indent, map[]);
    }
  }

  lemma {:induction false} SequencePoints(ls: seq<Line>, indent: nat, acc: seq<Node>)
    ensures Points(ParseSequence(ls, indent, acc), ls)
    decreases Weight(ls), 1
  {
    if AtItem(ls, indent) {
      ItemPoints(ls, indent);
      if ParseItem(ls, indent).Ok? {
        var (item, rest) := ParseItem(ls, indent).value;
        SequencePoints(rest, indent, acc + [item]);
      }
    }
  }

  lemma RewrittenNumbers(ls: seq<Line>, indent: nat)
    requires ls != [] && IsDash(ls[0].content)
    ensures Numbers(Rewritten(ls, indent)) == Numbers(ls)
  {
    var again := Rewritten(ls, indent);
    assert ls == [ls[0]] + ls[1..] && again == [again[0]] + ls[1..];
    forall l | l in ls ensures l.lineNo in Numbers(again) {
      assert l == ls[0] || l in again;
    }
    forall l | l in again ensures l.lineNo in Numbers(ls) {
      assert l == again[0] || l in ls;
    }
  }

  lemma {:induction false} ItemPoints(ls: seq<Line>, indent: nat)
    requires ls != [] && IsDash(ls[0].content)
    ensures Points(ParseItem(ls, indent), ls)
    decreases Weight(ls), 0
  {
    var rest := AfterDash(ls[0].content);
    Fewer(ls);
    if rest == "" {
      if |ls| > 1 && ls[1].indent >= indent + 2 {
        BlockPoints(ls[1..], ls[1].indent);
      }
    } else if !OpensMapping(rest) {
      ScalarPoints(rest, ls[0].lineNo);
    } else {
      RewrittenNumbers(ls, indent);
      MappingPoints(Rewritten(ls, indent), indent + 2, map[]);
    }
  }

  lemma {:induction false} MappingPoints(ls: seq<Line>, indent: nat, m: map<string, Node>)
    ensures Points(ParseMapping(ls, indent, m), ls)
    decreases Weight(ls), 1
  {
    if AtEntry(ls, indent) {
      Fewer(ls);
      var kv := SplitKeyValue(ls[0].content, ls[0].lineNo);
      if kv.Ok? && kv.value.0 !in m {
        ValuePoints(ls, kv.value.1, indent);
        var r := ParseValue(ls, kv.value.1, indent);
        if r.Ok? {
          MappingPoints(r.value.1, indent, m[kv.value.0 := r.value.0]);
        }
      }
    }
  }

  lemma {:induction false} ValuePoints(ls: seq<Line>, rest: string, indent: nat)
    requires ls != []
    ensures Points(ParseValue(ls, rest, indent), ls)
    decreases Weight(ls), 0
  {
    Fewer(ls);
    if rest != "" {
      ScalarPoints(rest, ls[0].lineNo);
    } else if StartsChild(ls[1..], indent) {
      BlockPoints(ls[1..], ls[1].indent);
    }
  }

  lemma LinePoints(ls: seq<Line>)
    requires ParseLines(ls).Err?
    ensures ParseLines(ls).line in Numbers(ls)
  {
    BlockPoints(ls, ls[0].indent);
    var root := ParseBlock(ls, ls[0].indent);
    if root.Ok? {
      Fewer(root.value.1);
    }
  }

  /** An error points to a line of the text that has something to say: one with content, or a late marker. */
  lemma ErrorsPoint(text: string)
    requires ParseTree(text).Err?
    ensures var n := ParseTree(text).line;
      1 <= n <= |SplitLines(text)| && !IsSilent(SplitLines(text)[n - 1])
  {
    var raws := SplitLines(text);
    LexExactly(raws);
    var n := ParseTree(text).line;
    if Lex(text).Ok? {
      var ls := Lex(text).value;
      LinePoints(ls);
      var l :| l in ls && l.lineNo == n;
      assert Tells(raws, l);
      LexLineExactly(raws[n - 1], l.indent, l.content);
    } else {
      LexLineExactly(raws[n - 1], 0, "");
    }
  }
}

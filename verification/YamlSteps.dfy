/** The parsing functions one step at a time, for the proofs that follow a parse through its lines. */
module YamlSteps {
  import opened Strings
  import opened Yaml

  lemma BlockStep(ls: seq<Line>, indent: nat, r: Parsed)
    requires ls != []
    requires r == if IsDash(ls[0].content) then ParseSequence(ls, indent, []) else ParseMapping(ls, indent, map[])
    ensures ParseBlock(ls, indent) == r
  {
  }

  lemma SequenceStep(ls: seq<Line>, indent: nat, acc: seq<Node>, val: Node, after: seq<Line>)
    requires AtItem(ls, indent) && ParseItem(ls, indent) == Ok((val, after))
    ensures ParseSequence(ls, indent, acc) == ParseSequence(after, indent, acc + [val])
  {
  }

  /** A mapping that starts on the dash line is parsed from the rewritten line. */
  lemma RewriteStep(ls: seq<Line>, indent: nat, rest: string, r: Parsed)
    requires ls != [] && IsDash(ls[0].content) && AfterDash(ls[0].content) == rest
    requires rest != "" && OpensMapping(rest)
    requires ParseMapping(Rewritten(ls, indent), indent + 2, map[]) == r
    ensures ParseItem(ls, indent) == r
  {
  }

  lemma ScalarItemStep(ls: seq<Line>, indent: nat, rest: string, val: Outcome<Node>, after: seq<Line>)
    requires ls != [] && IsDash(ls[0].content) && AfterDash(ls[0].content) == rest
    requires rest != "" && !OpensMapping(rest)
    requires ParseScalar(rest, ls[0].lineNo) == val && ls[1..] == after
    ensures ParseItem(ls, indent) == if val.Ok? then Ok((val.value, after)) else val.PropagateFailure()
  {
  }

  lemma BareItemStep(ls: seq<Line>, indent: nat, after: seq<Line>, r: Parsed)
    requires ls != [] && IsDash(ls[0].content) && AfterDash(ls[0].content) == "" && ls[1..] == after
    requires r == if after == [] || after[0].indent < indent + 2 then Err(ls[0].lineNo, EmptyItem)
                  else ParseBlock(after, after[0].indent)
    ensures ParseItem(ls, indent) == r
  {
    assert after != [] ==> ls[1] == after[0];
  }

  lemma MappingStep(ls: seq<Line>, indent: nat, m: map<string, Node>, key: string, rest: string, val: Node,
                    after: seq<Line>)
    requires AtEntry(ls, indent) && SplitKeyValue(ls[0].content, ls[0].lineNo) == Ok((key, rest)) && key !in m
    requires ParseValue(ls, rest, indent) == Ok((val, after))
    ensures ParseMapping(ls, indent, m) == ParseMapping(after, indent, m[key := val])
  {
  }

  lemma MappingFails(ls: seq<Line>, indent: nat, m: map<string, Node>, key: string, rest: string, r: Parsed)
    requires AtEntry(ls, indent) && SplitKeyValue(ls[0].content, ls[0].lineNo) == Ok((key, rest)) && key !in m
    requires ParseValue(ls, rest, indent) == r && !r.Ok?
    ensures ParseMapping(ls, indent, m) == r
  {
  }

  /** The first line, moved behind a dash. */
  function OnDash(ls: seq<Line>, indent: nat): seq<Line> {
    if ls == [] then [] else [Line(indent, "- " + ls[0].content, 0)] + ls[1..]
  }

  lemma DashPrefix(body: string)
    ensures IsDash("- " + body) && AfterDash("- " + body) == body
  {
    var s := "- " + body;
    assert s[..2] == "- " && s[2..] == body;
  }

  // ---------------------------------------------------------------- flow collections

  lemma FlowMapSkips(parts: seq<string>, n: nat, m: map<string, Node>)
    requires parts != [] && TrimSpace(parts[0]) == ""
    ensures ParseFlowMap(parts, n, m) == ParseFlowMap(parts[1..], n, m)
  {
  }

  lemma FlowMapStep(parts: seq<string>, n: nat, m: map<string, Node>, part: string, key: string, rest: string)
    requires parts != [] && TrimSpace(parts[0]) == part && part != "" && SplitKeyValue(part, n) == Ok((key, rest))
    ensures ParseFlowMap(parts, n, m) ==
      var val := ParseScalar(rest, n);
      if val.Ok? then ParseFlowMap(parts[1..], n, m[key := val.value]) else val
  {
  }

  lemma FlowMapFails(parts: seq<string>, n: nat, m: map<string, Node>, part: string)
    requires parts != [] && TrimSpace(parts[0]) == part && part != "" && !SplitKeyValue(part, n).Ok?
    ensures ParseFlowMap(parts, n, m) == SplitKeyValue(part, n).PropagateFailure()
  {
  }

  // ---------------------------------------------------------------- lists of lines

  lemma HeadThen<T>(x: T, a: seq<T>, b: seq<T>, c: seq<T>)
    ensures var ls := [x] + a + b + c;
      ls != [] && ls[0] == x && ls[1..] == a + (b + c)
  {
  }

  lemma HeadOver<T>(x: T, a: seq<T>, b: seq<T>)
    ensures var ls := [x] + a + b;
      ls != [] && ls[0] == x && ls[1..] == a + b
  {
  }

  lemma Regroup<T>(a: seq<T>, b: seq<T>, c: seq<T>)
    ensures (a + b) + c == a + (b + c)
  {
  }
}

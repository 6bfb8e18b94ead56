/**
 Lines no call can consume. Rewriting `- - key: ...` leaves a dash line two columns deeper than the
 sequence that rewrote it; every enclosing loop stops at it, so the document is rejected.
 */
module YamlStuck {
  import opened Yaml

  /** A line whose rewrite would be a dash line again. */
  predicate NestedDash(line: Line) {
    && IsDash(line.content)
    && AfterDash(line.content) != ""
    && OpensMapping(AfterDash(line.content))
    && IsDash(AfterDash(line.content))
  }

  /** The first n lines were consumed, none of them nested. */
  ghost predicate ConsumedPlainly(ls: seq<Line>, rest: seq<Line>) {
    && |rest| <= |ls|
    && rest == ls[|ls| - |rest|..]
    && forall i | 0 <= i < |ls| - |rest| :: !NestedDash(ls[i])
  }

  /** A dash line sits at the head, too deep for a block at the given indent. */
  ghost predicate Stuck(rest: seq<Line>, indent: nat) {
    rest != [] && IsDash(rest[0].content) && rest[0].indent > indent
  }

  ghost predicate Honest(ls: seq<Line>, r: Parsed, indent: nat) {
    r.Ok? ==> ConsumedPlainly(ls, r.value.1) || Stuck(r.value.1, indent)
  }

  lemma ConsumedThen(ls: seq<Line>, mid: seq<Line>, rest: seq<Line>)
    requires ConsumedPlainly(ls, mid) && ConsumedPlainly(mid, rest)
    ensures ConsumedPlainly(ls, rest)
  {
    var n := |ls| - |mid|;
    forall i | 0 <= i < |ls| - |rest| ensures !NestedDash(ls[i]) {
      if i >= n {
        assert ls[i] == mid[i - n];
      }
    }
    assert rest == ls[|ls| - |rest|..];
  }

  /** Dropping the first line and consuming the others plainly. */
  lemma ConsumedFirst(ls: seq<Line>, rest: seq<Line>)
    requires ls != [] && !NestedDash(ls[0]) && ConsumedPlainly(ls[1..], rest)
    ensures ConsumedPlainly(ls, rest)
  {
    ConsumedThen(ls, ls[1..], rest);
  }

  lemma {:induction false} BlockHonest(ls: seq<Line>)
    requires ls != []
    ensures Honest(ls, ParseBlock(ls, ls[0].indent), ls[0].indent)
    decreases Weight(ls), 2
  {
    if IsDash(ls[0].content) {
      SequenceHonest(ls, ls[0].indent, []);
    } else {
      MappingHonest(ls, ls[0].indent, map[]);
    }
  }

  lemma {:induction false} SequenceHonest(ls: seq<Line>, indent: nat, acc: seq<Node>)
    ensures Honest(ls, ParseSequence(ls, indent, acc), indent)
    decreases Weight(ls), 1
  {
    if AtItem(ls, indent) {
      ItemHonest(ls);
      var item := ParseItem(ls, indent);
      if item.Ok? {
        var (val, mid) := item.value;
        SequenceHonest(mid, indent, acc + [val]);
        var r := ParseSequence(mid, indent, acc + [val]);
        if r.Ok? && ConsumedPlainly(ls, mid) && ConsumedPlainly(mid, r.value.1) {
          ConsumedThen(ls, mid, r.value.1);
        }
      }
    }
  }

  lemma {:induction false} ItemHonest(ls: seq<Line>)
    requires ls != [] && IsDash(ls[0].content)
    ensures Honest(ls, ParseItem(ls, ls[0].indent), ls[0].indent)
    decreases Weight(ls), 0, 1
  {
    var rest := AfterDash(ls[0].content);
    if rest == "" {
      BareHonest(ls);
    } else if OpensMapping(rest) {
      RewriteHonest(ls);
    }
  }

  lemma {:induction false} BareHonest(ls: seq<Line>)
    requires ls != [] && IsDash(ls[0].content) && AfterDash(ls[0].content) == ""
    ensures Honest(ls, ParseItem(ls, ls[0].indent), ls[0].indent)
    decreases Weight(ls), 0, 0
  {
    if |ls| > 1 && ls[1].indent >= ls[0].indent + 2 {
      BlockHonest(ls[1..]);
      var r := ParseBlock(ls[1..], ls[1].indent);
      if r.Ok? && ConsumedPlainly(ls[1..], r.value.1) {
        ConsumedFirst(ls, r.value.1);
      }
    }
  }

  lemma SameBehindHead(ls: seq<Line>, again: seq<Line>, rest: seq<Line>)
    requires ls != [] && |again| == |ls| && again[1..] == ls[1..] && !NestedDash(ls[0])
    requires ConsumedPlainly(again, rest) && |rest| < |ls|
    ensures ConsumedPlainly(ls, rest)
  {
    assert again == [again[0]] + ls[1..] && ls == [ls[0]] + ls[1..];
    assert forall i | 1 <= i < |ls| :: again[i] == ls[i];
  }

  /** The rewritten line is consumed as a mapping entry, or is itself stuck. */
  lemma {:induction false} RewriteHonest(ls: seq<Line>)
    requires ls != [] && IsDash(ls[0].content)
    requires AfterDash(ls[0].content) != "" && OpensMapping(AfterDash(ls[0].content))
    ensures Honest(ls, ParseItem(ls, ls[0].indent), ls[0].indent)
    decreases Weight(ls), 0, 0
  {
    var again := Rewritten(ls, ls[0].indent);
    var r := ParseMapping(again, ls[0].indent + 2, map[]);
    MappingHonest(again, ls[0].indent + 2, map[]);
    if r.Ok? && ConsumedPlainly(again, r.value.1) && !NestedDash(ls[0]) {
      SameBehindHead(ls, again, r.value.1);
    }
  }

  lemma {:induction false} MappingHonest(ls: seq<Line>, indent: nat, m: map<string, Node>)
    ensures Honest(ls, ParseMapping(ls, indent, m), indent)
    ensures ParseMapping(ls, indent, m).Ok? && AtEntry(ls, indent) ==>
      Weight(ParseMapping(ls, indent, m).value.1) < Weight(ls)
    decreases Weight(ls), 1
  {
    if AtEntry(ls, indent) {
      var kv := SplitKeyValue(ls[0].content, ls[0].lineNo);
      if kv.Ok? && kv.value.0 !in m {
        ValueHonest(ls, kv.value.1, indent);
        var v := ParseValue(ls, kv.value.1, indent);
        if v.Ok? {
          var (val, mid) := v.value;
          MappingHonest(mid, indent, m[kv.value.0 := val]);
          var r := ParseMapping(mid, indent, m[kv.value.0 := val]);
          if r.Ok? && ConsumedPlainly(ls, mid) && ConsumedPlainly(mid, r.value.1) {
            ConsumedThen(ls, mid, r.value.1);
          }
        }
      }
    }
  }

  lemma {:induction false} ValueHonest(ls: seq<Line>, rest: string, indent: nat)
    requires ls != [] && !IsDash(ls[0].content)
    ensures Honest(ls, ParseValue(ls, rest, indent), indent)
    decreases Weight(ls), 0
  {
    var r := ParseValue(ls, rest, indent);
    if rest == "" && StartsChild(ls[1..], indent) {
      BlockHonest(ls[1..]);
      if r.Ok? && ConsumedPlainly(ls[1..], r.value.1) {
        ConsumedFirst(ls, r.value.1);
      }
    }
  }

  /** A document holding a `- - key: ...` line anywhere is never accepted. */
  lemma NestedDashIsRejected(text: string, i: nat)
    requires Lex(text).Ok? && i < |Lex(text).value| && NestedDash(Lex(text).value[i])
    ensures !ParseTree(text).Ok?
  {
    BlockHonest(Lex(text).value);
  }

  /** Once a sequence has rewritten such a line, it hands it back unconsumed, with an empty mapping for an item. */
  lemma RewriteLeavesItStuck(ls: seq<Line>, indent: nat, acc: seq<Node>)
    requires AtItem(ls, indent) && NestedDash(ls[0])
    ensures ParseSequence(ls, indent, acc) == Ok((Seq(acc + [Map(map[])]), Rewritten(ls, indent)))
    ensures Stuck(Rewritten(ls, indent), indent)
  {
    var again := Rewritten(ls, indent);
    assert ParseMapping(again, indent + 2, map[]) == Ok((Map(map[]), again));
    assert !AtItem(again, indent);
  }
}

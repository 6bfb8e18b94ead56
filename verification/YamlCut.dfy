/**
 When parsing a document panics. It does so at the first line whose own scalar would panic, provided the
 parse gets that far; and it gets that far exactly when the document is accepted once it is cut after
 that line and the scalar replaced by a harmless one.
 */
module YamlCut {
  import opened Strings
  import opened Yaml
  import opened YamlLayout
  import opened YamlPanic
  import opened YamlPrint
  import opened YamlSteps

  // ---------------------------------------------------------------- one line

  /** The scalar that the line itself holds panics: after a dash, or after a key, or after a dash and a key. */
  ghost predicate LinePanics(content: string)
    decreases |content|
  {
    if IsDash(content) then
      var rest := AfterDash(content);
      rest != "" && if OpensMapping(rest) then LinePanics(rest) else Panics(rest)
    else
      var kv := SplitKeyValue(content, 0);
      kv.Ok? && kv.value.1 != "" && Panics(kv.value.1)
  }

  /** A scalar that can be read wherever one stands; quoted, with a colon, so that a line stays what it is. */
  const WORD := "\":\""

  /** The line with the word for its scalar. */
  function Harmless(content: string): string
    decreases |content|
  {
    if IsDash(content) then
      var rest := AfterDash(content);
      if rest != "" && OpensMapping(rest) then "- " + Harmless(rest) else "- " + WORD
    else
      var i := Index(content, ':');
      content[..i + 1] + " " + WORD
  }

  lemma WordReads(n: nat)
    ensures ParseScalar(WORD, n) == Ok(Str(":"))
    ensures !OpensMapping(WORD)
  {
    InlineReads(Text(Quoted('"'), ":"), n);
    assert ['"'] + ":" + ['"'] == WORD;
  }

  lemma WordIsSafe()
    ensures !Panics(WORD)
  {
    WordReads(0);
    ScalarPanicsExactly(WORD, 0);
  }

  /** The stand-in of an entry has the same key. */
  lemma HarmlessEntry(c: string, n: nat, key: string, rest: string)
    requires !IsDash(c) && SplitKeyValue(c, n) == Ok((key, rest))
    ensures !IsDash(Harmless(c)) && SplitKeyValue(Harmless(c), n) == Ok((key, WORD))
    ensures Harmless(c) != "" && Harmless(c)[0] == c[0] && ':' in Harmless(c)
  {
    var i := Index(c, ':');
    var head, tail := c[..i], " " + WORD;
    var h := Harmless(c);
    FirstOf(head, ':', tail);
    assert c[..i + 1] == head + [':'];
    assert h == head + [':'] + tail;
    TrimSpaceDropsBlank(WORD);
    ColonSplits(h, head, tail, key, WORD, n);
    assert i > 0 ==> h[..2] == c[..2];
  }

  lemma {:induction false} HarmlessHasColon(c: string)
    requires LinePanics(c)
    ensures ':' in Harmless(c)
    decreases |c|
  {
    if IsDash(c) {
      var rest := AfterDash(c);
      if OpensMapping(rest) {
        HarmlessHasColon(rest);
      } else {
        assert WORD[1] == ':';
      }
    } else {
      var kv := SplitKeyValue(c, 0).value;
      HarmlessEntry(c, 0, kv.0, kv.1);
    }
  }

  /** The stand-in of a panicking line is a line of the same kind. */
  lemma {:induction false} HarmlessKeeps(c: string)
    requires LinePanics(c)
    ensures IsDash(Harmless(c)) <==> IsDash(c)
    ensures IsDash(c) ==>
      var rest := AfterDash(c);
      && AfterDash(Harmless(c)) == (if OpensMapping(rest) then Harmless(rest) else WORD)
      && AfterDash(Harmless(c)) != ""
      && (OpensMapping(AfterDash(Harmless(c))) <==> OpensMapping(rest))
    ensures c != "" && Harmless(c) != "" && Harmless(c)[0] == c[0]
    decreases |c|
  {
    if IsDash(c) {
      var rest := AfterDash(c);
      if OpensMapping(rest) {
        HarmlessKeeps(rest);
        HarmlessHasColon(rest);
        DashPrefix(Harmless(rest));
      } else {
        WordReads(0);
        DashPrefix(WORD);
      }
    } else {
      var kv := SplitKeyValue(c, 0).value;
      HarmlessEntry(c, 0, kv.0, kv.1);
    }
  }

  lemma {:induction false} HarmlessIsSafe(c: string)
    requires LinePanics(c)
    ensures !LinePanics(Harmless(c))
    decreases |c|
  {
    HarmlessKeeps(c);
    WordIsSafe();
    if IsDash(c) {
      var rest := AfterDash(c);
      if OpensMapping(rest) {
        HarmlessIsSafe(rest);
      }
    } else {
      var kv := SplitKeyValue(c, 0).value;
      HarmlessEntry(c, 0, kv.0, kv.1);
    }
  }

  // ---------------------------------------------------------------- lines that cannot panic

  ghost predicate AllSafe(ls: seq<Line>) {
    forall i | 0 <= i < |ls| :: !LinePanics(ls[i].content)
  }

  ghost predicate Calm(r: Parsed) {
    r != Crash && (r.Ok? ==> AllSafe(r.value.1))
  }

  lemma {:induction false} BlockIsCalm(ls: seq<Line>, indent: nat)
    requires ls != [] && AllSafe(ls)
    ensures Calm(ParseBlock(ls, indent))
    decreases Weight(ls), 2
  {
    if IsDash(ls[0].content) {
      SequenceIsCalm(ls, indent, []);
    } else {
      MappingIsCalm(ls, indent, map[]);
    }
  }

  lemma {:induction false} SequenceIsCalm(ls: seq<Line>, indent: nat, acc: seq<Node>)
    requires AllSafe(ls)
    ensures Calm(ParseSequence(ls, indent, acc))
    decreases Weight(ls), 1
  {
    if AtItem(ls, indent) {
      ItemIsCalm(ls, indent);
      var item := ParseItem(ls, indent);
      if item.Ok? {
        SequenceIsCalm(item.value.1, indent, acc + [item.value.0]);
      }
    }
  }

  lemma RewrittenIsSafe(ls: seq<Line>, indent: nat)
    requires AllSafe(ls) && ls != [] && IsDash(ls[0].content)
    requires AfterDash(ls[0].content) != "" && OpensMapping(AfterDash(ls[0].content))
    ensures AllSafe(Rewritten(ls, indent))
  {
    var r := Rewritten(ls, indent);
    forall i | 0 <= i < |r| ensures !LinePanics(r[i].content) {
      if i > 0 {
        assert r[i] == r[1..][i - 1] == ls[i];
      } else {
        assert !LinePanics(ls[0].content);
      }
    }
  }

  lemma {:induction false} ItemIsCalm(ls: seq<Line>, indent: nat)
    requires AllSafe(ls) && ls != [] && IsDash(ls[0].content)
    ensures Calm(ParseItem(ls, indent))
    decreases Weight(ls), 0
  {
    var rest := AfterDash(ls[0].content);
    assert !LinePanics(ls[0].content);
    if rest == "" {
      if |ls| > 1 && ls[1].indent >= indent + 2 {
        BlockIsCalm(ls[1..], ls[1].indent);
      }
    } else if !OpensMapping(rest) {
      ScalarPanicsExactly(rest, ls[0].lineNo);
    } else {
      RewrittenIsSafe(ls, indent);
      MappingIsCalm(Rewritten(ls, indent), indent + 2, map[]);
    }
  }

  lemma {:induction false} MappingIsCalm(ls: seq<Line>, indent: nat, m: map<string, Node>)
    requires AllSafe(ls)
    ensures Calm(ParseMapping(ls, indent, m))
    decreases Weight(ls), 1
  {
    if AtEntry(ls, indent) {
      assert !LinePanics(ls[0].content);
      SplitIgnoresLine(ls[0].content, ls[0].lineNo);
      var kv := SplitKeyValue(ls[0].content, ls[0].lineNo);
      if kv.Ok? && kv.value.0 !in m {
        ValueIsCalm(ls, kv.value.1, indent);
        var val := ParseValue(ls, kv.value.1, indent);
        if val.Ok? {
          MappingIsCalm(val.value.1, indent, m[kv.value.0 := val.value.0]);
        }
      }
    }
  }

  lemma {:induction false} ValueIsCalm(ls: seq<Line>, rest: string, indent: nat)
    requires AllSafe(ls) && ls != [] && (rest != "" ==> !Panics(rest))
    ensures Calm(ParseValue(ls, rest, indent))
    decreases Weight(ls), 0
  {
    if rest != "" {
      ScalarPanicsExactly(rest, ls[0].lineNo);
    } else if StartsChild(ls[1..], indent) {
      BlockIsCalm(ls[1..], ls[1].indent);
    }
  }

  lemma SafeLinesNeverPanic(ls: seq<Line>)
    requires AllSafe(ls)
    ensures ParseLines(ls) != Crash
  {
    if ls != [] {
      BlockIsCalm(ls, ls[0].indent);
    }
  }

  // ---------------------------------------------------------------- up to the line that panics

  predicate StandsIn(h: Line, p: Line) {
    h == p.(content := Harmless(p.content))
  }

  /** a is b cut after a line that panics, with the harmless line in its place. */
  ghost predicate Cut(a: seq<Line>, b: seq<Line>) {
    && 0 < |a| <= |b|
    && (forall i | 0 <= i < |a| - 1 :: a[i] == b[i])
    && LinePanics(b[|a| - 1].content)
    && StandsIn(a[|a| - 1], b[|a| - 1])
  }

  /** Until the harmless line is consumed both parses agree; the parse that consumes the other line panics. */
  ghost predicate Agree(r: Parsed, s: Parsed) {
    match r
    case Ok(p) => if p.1 == [] then s == Crash else s.Ok? && s.value.0 == p.0 && Cut(p.1, s.value.1)
    case Err(n, f) => s == Err(n, f)
    case Crash => s == Crash
  }

  /** The heads of two such lists are of the same kind, and the same line unless it is the last. */
  lemma SameHead(a: seq<Line>, b: seq<Line>)
    requires Cut(a, b)
    ensures a[0].indent == b[0].indent && a[0].lineNo == b[0].lineNo
    ensures IsDash(a[0].content) <==> IsDash(b[0].content)
    ensures |a| > 1 ==> a[0] == b[0] && Cut(a[1..], b[1..])
    ensures |a| == 1 ==> LinePanics(b[0].content) && a[0].content == Harmless(b[0].content) && a[1..] == []
  {
    if |a| == 1 {
      HarmlessKeeps(b[0].content);
    }
  }

  lemma {:induction false} BlockCut(a: seq<Line>, b: seq<Line>, indent: nat)
    requires Cut(a, b)
    ensures Agree(ParseBlock(a, indent), ParseBlock(b, indent))
    decreases Weight(a), 2
  {
    SameHead(a, b);
    if IsDash(a[0].content) {
      SequenceCut(a, b, indent, []);
    } else {
      MappingCut(a, b, indent, map[]);
    }
  }

  lemma {:induction false} SequenceCut(a: seq<Line>, b: seq<Line>, indent: nat, acc: seq<Node>)
    requires Cut(a, b)
    ensures Agree(ParseSequence(a, indent, acc), ParseSequence(b, indent, acc))
    decreases Weight(a), 1
  {
    SameHead(a, b);
    if AtItem(a, indent) {
      ItemCut(a, b, indent);
      var r, s := ParseItem(a, indent), ParseItem(b, indent);
      if r.Ok? {
        SequenceStep(a, indent, acc, r.value.0, r.value.1);
        if r.value.1 != [] {
          SequenceStep(b, indent, acc, s.value.0, s.value.1);
          SequenceCut(r.value.1, s.value.1, indent, acc + [r.value.0]);
        }
      }
    }
  }

  lemma ScalarItemCut(a: seq<Line>, b: seq<Line>, indent: nat, rest: string)
    requires Cut(a, b) && IsDash(a[0].content) && IsDash(b[0].content)
    requires AfterDash(b[0].content) == rest != "" && !OpensMapping(rest)
    ensures Agree(ParseItem(a, indent), ParseItem(b, indent))
  {
    SameHead(a, b);
    var n := b[0].lineNo;
    ScalarItemStep(b, indent, rest, ParseScalar(rest, n), b[1..]);
    if |a| == 1 {
      HarmlessKeeps(b[0].content);
      WordReads(n);
      ScalarPanicsExactly(rest, n);
      ScalarItemStep(a, indent, WORD, Ok(Str(":")), []);
    } else {
      ScalarItemStep(a, indent, rest, ParseScalar(rest, n), a[1..]);
    }
  }

  lemma {:induction false} ItemCut(a: seq<Line>, b: seq<Line>, indent: nat)
    requires Cut(a, b) && IsDash(a[0].content)
    ensures Agree(ParseItem(a, indent), ParseItem(b, indent))
    decreases Weight(a), 0, 1
  {
    SameHead(a, b);
    if |a| == 1 {
      HarmlessKeeps(b[0].content);
    }
    var rest := AfterDash(b[0].content);
    if rest == "" {
      BareItemCut(a, b, indent);
    } else if OpensMapping(rest) {
      InlineItemCut(a, b, indent);
    } else {
      ScalarItemCut(a, b, indent, rest);
    }
  }

  lemma {:induction false} BareItemCut(a: seq<Line>, b: seq<Line>, indent: nat)
    requires Cut(a, b) && |a| > 1 && a[0] == b[0] && IsDash(a[0].content) && AfterDash(a[0].content) == ""
    ensures Agree(ParseItem(a, indent), ParseItem(b, indent))
    decreases Weight(a), 0, 0
  {
    SameHead(a, b);
    SameHead(a[1..], b[1..]);
    if a[1].indent >= indent + 2 {
      BlockCut(a[1..], b[1..], a[1].indent);
    }
  }

  lemma RewrittenCut(a: seq<Line>, b: seq<Line>, indent: nat)
    requires Cut(a, b) && IsDash(a[0].content) && IsDash(b[0].content)
    requires AfterDash(b[0].content) != "" && OpensMapping(AfterDash(b[0].content))
    ensures AfterDash(a[0].content) != "" && OpensMapping(AfterDash(a[0].content))
    ensures Cut(Rewritten(a, indent), Rewritten(b, indent))
  {
    SameHead(a, b);
    if |a| == 1 {
      HarmlessKeeps(b[0].content);
    }
    var c, d := Rewritten(a, indent), Rewritten(b, indent);
    forall i | 0 < i < |a| ensures c[i] == a[i] && d[i] == b[i] {
      assert c[i] == c[1..][i - 1] && d[i] == d[1..][i - 1];
    }
  }

  lemma {:induction false} InlineItemCut(a: seq<Line>, b: seq<Line>, indent: nat)
    requires Cut(a, b) && IsDash(a[0].content) && IsDash(b[0].content)
    requires AfterDash(b[0].content) != "" && OpensMapping(AfterDash(b[0].content))
    ensures Agree(ParseItem(a, indent), ParseItem(b, indent))
    decreases Weight(a), 0, 0
  {
    RewrittenCut(a, b, indent);
    MappingCut(Rewritten(a, indent), Rewritten(b, indent), indent + 2, map[]);
  }

  /** The harmless entry is read, and the one it stands for panics, unless the key is a repeated one. */
  lemma LastEntryCut(a: seq<Line>, b: seq<Line>, indent: nat, m: map<string, Node>)
    requires Cut(a, b) && |a| == 1 && AtEntry(a, indent)
    ensures Agree(ParseMapping(a, indent, m), ParseMapping(b, indent, m))
  {
    SameHead(a, b);
    var c, n := b[0].content, b[0].lineNo;
    SplitIgnoresLine(c, n);
    var kv := SplitKeyValue(c, n).value;
    HarmlessEntry(c, n, kv.0, kv.1);
    if kv.0 !in m {
      WordReads(n);
      ScalarPanicsExactly(kv.1, n);
      MappingStep(a, indent, m, kv.0, WORD, Str(":"), []);
      MappingFails(b, indent, m, kv.0, kv.1, Crash);
    }
  }

  lemma {:induction false} MappingCut(a: seq<Line>, b: seq<Line>, indent: nat, m: map<string, Node>)
    requires Cut(a, b)
    ensures Agree(ParseMapping(a, indent, m), ParseMapping(b, indent, m))
    decreases Weight(a), 1
  {
    SameHead(a, b);
    if AtEntry(a, indent) {
      if |a| == 1 {
        LastEntryCut(a, b, indent, m);
      } else {
        var kv := SplitKeyValue(a[0].content, a[0].lineNo);
        if kv.Ok? && kv.value.0 !in m {
          EntryCut(a, b, indent, m, kv.value.0, kv.value.1);
        }
      }
    }
  }

  lemma {:induction false} EntryCut(
      a: seq<Line>, b: seq<Line>, indent: nat, m: map<string, Node>, key: string, rest: string)
    requires Cut(a, b) && |a| > 1 && a[0] == b[0] && AtEntry(a, indent)
    requires SplitKeyValue(a[0].content, a[0].lineNo) == Ok((key, rest)) && key !in m
    ensures Agree(ParseMapping(a, indent, m), ParseMapping(b, indent, m))
    decreases Weight(a), 0, 1
  {
    ValueCut(a, b, rest, indent);
    var r, s := ParseValue(a, rest, indent), ParseValue(b, rest, indent);
    if r.Ok? {
      MappingStep(a, indent, m, key, rest, r.value.0, r.value.1);
      if r.value.1 != [] {
        MappingStep(b, indent, m, key, rest, s.value.0, s.value.1);
        MappingCut(r.value.1, s.value.1, indent, m[key := r.value.0]);
      } else {
        MappingFails(b, indent, m, key, rest, s);
      }
    } else {
      MappingFails(a, indent, m, key, rest, r);
      MappingFails(b, indent, m, key, rest, s);
    }
  }

  lemma {:induction false} ValueCut(a: seq<Line>, b: seq<Line>, rest: string, indent: nat)
    requires Cut(a, b) && |a| > 1 && a[0] == b[0]
    ensures Agree(ParseValue(a, rest, indent), ParseValue(b, rest, indent))
    decreases Weight(a), 0, 0
  {
    SameHead(a, b);
    SameHead(a[1..], b[1..]);
    if rest == "" && StartsChild(a[1..], indent) {
      BlockCut(a[1..], b[1..], a[1].indent);
    }
  }

  lemma LinesCut(a: seq<Line>, b: seq<Line>)
    requires Cut(a, b)
    ensures ParseLines(b) == Crash <==> ParseLines(a).Ok? || ParseLines(a) == Crash
  {
    SameHead(a, b);
    BlockCut(a, b, a[0].indent);
  }

  // ---------------------------------------------------------------- the exact condition

  ghost predicate SafeUpTo(ls: seq<Line>, k: nat)
    requires k <= |ls|
  {
    forall i | 0 <= i < k :: !LinePanics(ls[i].content)
  }

  /** Line i is the first whose own scalar would panic. */
  ghost predicate FirstToPanic(ls: seq<Line>, i: nat) {
    i < |ls| && LinePanics(ls[i].content) && SafeUpTo(ls, i)
  }

  /** The lines up to line i, with the scalar of line i replaced. */
  function CutAfter(ls: seq<Line>, i: nat): seq<Line>
    requires i < |ls|
  {
    ls[..i] + [ls[i].(content := Harmless(ls[i].content))]
  }

  lemma {:induction false} FirstTrue(p: seq<bool>, k: nat) returns (i: nat)
    requires k <= |p|
    ensures (forall j | 0 <= j < k :: !p[j]) || (i < k && p[i] && forall j | 0 <= j < i :: !p[j])
  {
    i := 0;
    if k > 0 {
      i := FirstTrue(p, k - 1);
      if forall j | 0 <= j < k - 1 :: !p[j] {
        i := k - 1;
      }
    }
  }

  lemma FirstOrSafe(ls: seq<Line>) returns (i: nat)
    ensures SafeUpTo(ls, |ls|) || FirstToPanic(ls, i)
  {
    var p := seq(|ls|, i requires 0 <= i < |ls| => LinePanics(ls[i].content));
    i := FirstTrue(p, |ls|);
    assert forall j | 0 <= j < |ls| :: p[j] == LinePanics(ls[j].content);
  }

  lemma CutAfterFirst(ls: seq<Line>, i: nat)
    requires FirstToPanic(ls, i)
    ensures ParseLines(ls) == Crash <==> ParseLines(CutAfter(ls, i)).Ok?
  {
    var a := CutAfter(ls, i);
    assert Cut(a, ls);
    LinesCut(a, ls);
    HarmlessIsSafe(ls[i].content);
    SafeLinesNeverPanic(a);
  }

  /**
   The program panics on a document exactly when some line is the first whose own scalar would panic, and the
   document cut after that line, with a word for the scalar, is accepted.
   */
  lemma PanicExactly(text: string)
    ensures ParseTree(text) == Crash <==>
      Lex(text).Ok? && exists i :: FirstToPanic(Lex(text).value, i) && ParseLines(CutAfter(Lex(text).value, i)).Ok?
  {
    TabsAreNeverRejected(SplitLines(text), 0, []);
    if Lex(text).Ok? {
      var ls := Lex(text).value;
      var first := FirstOrSafe(ls);
      if SafeUpTo(ls, |ls|) {
        SafeLinesNeverPanic(ls);
      } else {
        CutAfterFirst(ls, first);
      }
      forall i | FirstToPanic(ls, i) ensures ParseTree(text) == Crash <==> ParseLines(CutAfter(ls, i)).Ok? {
        CutAfterFirst(ls, i);
      }
    }
  }
}

/**
 Layout invariance: blank and comment lines, trailing blanks and carriage returns, and the
 indentation of the whole document change nothing but the line numbers in error messages.
 */
module YamlLayout {
  import opened Strings
  import opened Yaml
  import opened YamlLex
  import opened YamlSteps

  /** An outcome with the line number of its error forgotten. */
  function Verdict<T>(r: Outcome<T>): Outcome<T> {
    if r.Err? then Err(0, r.fault) else r
  }

  /** b holds the lines of a, k columns deeper, numbered in any way. */
  ghost predicate Shifted(a: seq<Line>, b: seq<Line>, k: nat) {
    && |a| == |b|
    && forall i | 0 <= i < |a| :: b[i].indent == a[i].indent + k && b[i].content == a[i].content
  }

  ghost predicate SameParse(r: Parsed, s: Parsed, k: nat) {
    match (r, s)
    case (Ok(p), Ok(q)) => p.0 == q.0 && Shifted(p.1, q.1, k)
    case (Err(_, f), Err(_, g)) => f == g
    case (Crash, Crash) => true
    case _ => false
  }

  // ---------------------------------------------------------------- the parser

  lemma {:induction false} ScalarIgnoresLine(raw: string, n: nat, n': nat)
    ensures Verdict(ParseScalar(raw, n)) == Verdict(ParseScalar(raw, n'))
    decreases |raw|, 1
  {
    var s := TrimSpace(raw);
    if s != "" && s[0] == '{' {
      var inner := FlowInner(s, '{', '}', n);
      if inner.Ok? {
        FlowMapIgnoresLine(SplitFlowParts(inner.value), n, n', map[]);
      }
    } else if s != "" && s[0] == '[' {
      var inner := FlowInner(s, '[', ']', n);
      if inner.Ok? {
        FlowSeqIgnoresLine(SplitFlowParts(inner.value), n, n', []);
      }
    }
  }

  lemma {:induction false} FlowMapIgnoresLine(parts: seq<string>, n: nat, n': nat, m: map<string, Node>)
    ensures Verdict(ParseFlowMap(parts, n, m)) == Verdict(ParseFlowMap(parts, n', m))
    decreases Size(parts), 0
  {
    if parts != [] {
      var part := TrimSpace(parts[0]);
      if part == "" {
        FlowMapIgnoresLine(parts[1..], n, n', m);
      } else {
        var kv := SplitKeyValue(part, n);
        if kv.Ok? {
          ScalarIgnoresLine(kv.value.1, n, n');
          var val := ParseScalar(kv.value.1, n);
          if val.Ok? {
            FlowMapIgnoresLine(parts[1..], n, n', m[kv.value.0 := val.value]);
          }
        }
      }
    }
  }

  lemma {:induction false} FlowSeqIgnoresLine(parts: seq<string>, n: nat, n': nat, acc: seq<Node>)
    ensures Verdict(ParseFlowSeq(parts, n, acc)) == Verdict(ParseFlowSeq(parts, n', acc))
    decreases Size(parts), 0
  {
    if parts != [] {
      var part := TrimSpace(parts[0]);
      if part == "" {
        FlowSeqIgnoresLine(parts[1..], n, n', acc);
      } else {
        ScalarIgnoresLine(part, n, n');
        var val := ParseScalar(part, n);
        if val.Ok? {
          FlowSeqIgnoresLine(parts[1..], n, n', acc + [val.value]);
        }
      }
    }
  }

  /** The scalar reader makes this tree of the text, on whatever line. */
  ghost predicate ReadsAs(text: string, tree: Node) {
    forall n :: ParseScalar(text, n) == Ok(tree)
  }

  lemma ReadsAnywhere(text: string, n: nat)
    requires ParseScalar(text, n).Ok?
    ensures ReadsAs(text, ParseScalar(text, n).value)
  {
    forall n' ensures ParseScalar(text, n') == ParseScalar(text, n) {
      ScalarIgnoresLine(text, n, n');
    }
  }

  lemma {:induction false} BlockShifts(a: seq<Line>, b: seq<Line>, indent: nat, k: nat)
    requires Shifted(a, b, k) && a != []
    ensures SameParse(ParseBlock(a, indent), ParseBlock(b, indent + k), k)
    decreases Weight(a), 2
  {
    if IsDash(a[0].content) {
      SequenceShifts(a, b, indent, k, []);
    } else {
      MappingShifts(a, b, indent, k, map[]);
    }
  }

  lemma {:induction false} SequenceShifts(a: seq<Line>, b: seq<Line>, indent: nat, k: nat, acc: seq<Node>)
    requires Shifted(a, b, k)
    ensures SameParse(ParseSequence(a, indent, acc), ParseSequence(b, indent + k, acc), k)
    decreases Weight(a), 1
  {
    if AtItem(a, indent) {
      ItemShifts(a, b, indent, k);
      var r, s := ParseItem(a, indent), ParseItem(b, indent + k);
      if r.Ok? {
        SequenceShifts(r.value.1, s.value.1, indent, k, acc + [r.value.0]);
      }
    }
  }

  lemma {:induction false} ItemShifts(a: seq<Line>, b: seq<Line>, indent: nat, k: nat)
    requires Shifted(a, b, k) && a != [] && IsDash(a[0].content)
    ensures SameParse(ParseItem(a, indent), ParseItem(b, indent + k), k)
    decreases Weight(a), 0, 1
  {
    var rest := AfterDash(a[0].content);
    if rest == "" {
      BareItemShifts(a, b, indent, k);
    } else if !OpensMapping(rest) {
      ScalarIgnoresLine(rest, a[0].lineNo, b[0].lineNo);
      assert Shifted(a[1..], b[1..], k);
    } else {
      InlineItemShifts(a, b, indent, k);
    }
  }

  lemma RewriteShifts(a: seq<Line>, b: seq<Line>, indent: nat, k: nat)
    requires Shifted(a, b, k) && a != [] && IsDash(a[0].content)
    ensures Shifted(Rewritten(a, indent), Rewritten(b, indent + k), k)
  {
    var r, s := Rewritten(a, indent), Rewritten(b, indent + k);
    forall i | 0 <= i < |a| ensures s[i].indent == r[i].indent + k && s[i].content == r[i].content {
      if i > 0 {
        assert r[i] == r[1..][i - 1] == a[i] && s[i] == s[1..][i - 1] == b[i];
      }
    }
  }

  lemma {:induction false} InlineItemShifts(a: seq<Line>, b: seq<Line>, indent: nat, k: nat)
    requires Shifted(a, b, k) && a != []
    requires IsDash(a[0].content) && AfterDash(a[0].content) != "" && OpensMapping(AfterDash(a[0].content))
    ensures SameParse(ParseItem(a, indent), ParseItem(b, indent + k), k)
    decreases Weight(a), 0, 0
  {
    RewriteShifts(a, b, indent, k);
    MappingShifts(Rewritten(a, indent), Rewritten(b, indent + k), indent + 2, k, map[]);
  }

  lemma {:induction false} BareItemShifts(a: seq<Line>, b: seq<Line>, indent: nat, k: nat)
    requires Shifted(a, b, k) && a != []
    requires IsDash(a[0].content) && AfterDash(a[0].content) == ""
    ensures SameParse(ParseItem(a, indent), ParseItem(b, indent + k), k)
    decreases Weight(a), 0, 0
  {
    if |a| > 1 && a[1].indent >= indent + 2 {
      BlockShifts(a[1..], b[1..], a[1].indent, k);
    }
  }

  lemma {:induction false} MappingShifts(a: seq<Line>, b: seq<Line>, indent: nat, k: nat, m: map<string, Node>)
    requires Shifted(a, b, k)
    ensures SameParse(ParseMapping(a, indent, m), ParseMapping(b, indent + k, m), k)
    decreases Weight(a), 1
  {
    if AtEntry(a, indent) {
      var kv := SplitKeyValue(a[0].content, a[0].lineNo);
      if kv.Ok? && kv.value.0 !in m {
        EntryShifts(a, b, indent, k, m, kv.value.0, kv.value.1);
      }
    }
  }

  lemma {:induction false} EntryShifts(
      a: seq<Line>, b: seq<Line>, indent: nat, k: nat, m: map<string, Node>, key: string, rest: string)
    requires Shifted(a, b, k) && AtEntry(a, indent)
    requires SplitKeyValue(a[0].content, a[0].lineNo) == Ok((key, rest)) && key !in m
    ensures SameParse(ParseMapping(a, indent, m), ParseMapping(b, indent + k, m), k)
    decreases Weight(a), 0, 1
  {
    ValueShifts(a, b, rest, indent, k);
    assert SplitKeyValue(b[0].content, b[0].lineNo) == Ok((key, rest));
    var r, s := ParseValue(a, rest, indent), ParseValue(b, rest, indent + k);
    if r.Ok? {
      MappingStep(a, indent, m, key, rest, r.value.0, r.value.1);
      MappingStep(b, indent + k, m, key, rest, s.value.0, s.value.1);
      MappingShifts(r.value.1, s.value.1, indent, k, m[key := r.value.0]);
    } else {
      MappingFails(a, indent, m, key, rest, r);
      MappingFails(b, indent + k, m, key, rest, s);
    }
  }

  lemma {:induction false} ValueShifts(a: seq<Line>, b: seq<Line>, rest: string, indent: nat, k: nat)
    requires Shifted(a, b, k) && a != []
    ensures SameParse(ParseValue(a, rest, indent), ParseValue(b, rest, indent + k), k)
    decreases Weight(a), 0, 0
  {
    assert Shifted(a[1..], b[1..], k);
    if rest != "" {
      ScalarIgnoresLine(rest, a[0].lineNo, b[0].lineNo);
    } else if StartsChild(a[1..], indent) {
      BlockShifts(a[1..], b[1..], a[1].indent, k);
    }
  }

  /** Shifting every line and renumbering them never changes the tree, nor the kind of failure. */
  lemma LinesShift(a: seq<Line>, b: seq<Line>, k: nat)
    requires Shifted(a, b, k)
    ensures Verdict(ParseLines(a)) == Verdict(ParseLines(b))
  {
    if a != [] {
      BlockShifts(a, b, a[0].indent, k);
    }
  }

  // ---------------------------------------------------------------- the text

  /** One edit of the raw lines of a document that a reader would call cosmetic. */
  datatype Edit =
    | Insert(at: nat, line: string)    // a blank or comment-only line
    | Pad(at: nat, suffix: string)     // blanks and carriage returns at the end of a line
    | Indent(depth: nat)               // the same number of blanks in front of every line

  ghost predicate Cosmetic(e: Edit, raws: seq<string>) {
    match e
    case Insert(at, line) => at <= |raws| && IsSilent(line) && NEWLINE !in line
    case Pad(at, suffix) => at < |raws| && forall c | c in suffix :: IsPadding(c)
    case Indent(_) => true
  }

  ghost function Apply(e: Edit, raws: seq<string>): seq<string>
    requires Cosmetic(e, raws)
  {
    match e
    case Insert(at, line) => raws[..at] + [line] + raws[at..]
    case Pad(at, suffix) => raws[at := raws[at] + suffix]
    case Indent(depth) => seq(|raws|, i requires 0 <= i < |raws| => Blanks(depth) + raws[i])
  }

  ghost predicate AllCosmetic(edits: seq<Edit>, raws: seq<string>) {
    edits == [] || (Cosmetic(edits[0], raws) && AllCosmetic(edits[1..], Apply(edits[0], raws)))
  }

  ghost function ApplyAll(edits: seq<Edit>, raws: seq<string>): seq<string>
    requires AllCosmetic(edits, raws)
  {
    if edits == [] then raws else ApplyAll(edits[1..], Apply(edits[0], raws))
  }

  /** Trailing padding is gone before the line is looked at. */
  lemma PaddingIgnored(raw: string, suffix: string)
    requires forall c | c in suffix :: IsPadding(c)
    ensures LexLine(raw + suffix) == LexLine(raw)
  {
    var n := Keep(raw, IsPadding);
    forall i | n <= i < |raw + suffix| ensures IsPadding((raw + suffix)[i]) {
      if i >= |raw| {
        assert (raw + suffix)[i] == suffix[i - |raw|];
      }
    }
    assert n > 0 ==> (raw + suffix)[n - 1] == raw[n - 1];
    KeepExact(raw + suffix, IsPadding, n);
    assert (raw + suffix)[..n] == raw[..n];
  }

  /** What a raw line lexes to when it stands k columns deeper. */
  function Deeper(l: Lexed, k: nat): Lexed {
    if l.Content? then l.(indent := l.indent + k) else l
  }

  lemma BlanksInFront(raw: string, k: nat)
    ensures forall i | 0 <= i < k :: (Blanks(k) + raw)[i] == ' '
    ensures forall i | 0 <= i < |raw| :: (Blanks(k) + raw)[k + i] == raw[i]
    ensures forall i | k <= i < k + |raw| :: (Blanks(k) + raw)[i] == raw[i - k]
  {
  }

  lemma DeeperKeeps(raw: string, k: nat)
    ensures Keep(raw, IsPadding) == 0 ==> Keep(Blanks(k) + raw, IsPadding) == 0
    ensures Keep(raw, IsPadding) > 0 ==> TrimRight(Blanks(k) + raw, IsPadding) == Blanks(k) + TrimRight(raw, IsPadding)
  {
    BlanksInFront(raw, k);
    var n := Keep(raw, IsPadding);
    KeepExact(Blanks(k) + raw, IsPadding, if n == 0 then 0 else k + n);
  }

  lemma DeeperLeads(line: string, k: nat)
    ensures Lead(Blanks(k) + line, IsBlank) == k + Lead(line, IsBlank)
  {
    BlanksInFront(line, k);
    LeadExact(Blanks(k) + line, IsBlank, k + Lead(line, IsBlank));
  }

  lemma BlankPrefixHasNoTab(line: string)
    ensures '\t' !in line[..Lead(line, IsBlank)]
  {
  }

  /** A line k blanks deeper lexes the same, k columns deeper; no line is ever found tab-indented. */
  lemma IndentShifts(raw: string, k: nat)
    ensures LexLine(raw).Content? ==> !LexLine(raw).tabbed
    ensures LexLine(Blanks(k) + raw) == Deeper(LexLine(raw), k)
  {
    DeeperKeeps(raw, k);
    var line := TrimRight(raw, IsPadding);
    BlankPrefixHasNoTab(line);
    if Keep(raw, IsPadding) > 0 {
      DeeperLeads(line, k);
      BlankPrefixHasNoTab(Blanks(k) + line);
      TrimLeftDrops(Blanks(k) + line, IsBlank);
      TrimLeftDrops(line, IsBlank);
      assert TrimLeft(Blanks(k) + line, IsBlank) == TrimLeft(line, IsBlank);
    }
  }

  /** The tab check of the lexer never fires: the prefix it inspects is all blanks. */
  lemma TabsAreNeverRejected(raws: seq<string>, n: nat, acc: seq<Line>)
    ensures LexFrom(raws, n, acc).Err? ==> LexFrom(raws, n, acc).fault == MultiDocument
    ensures LexFrom(raws, n, acc) != Crash
  {
    if raws != [] {
      IndentShifts(raws[0], 0);
    }
  }

  ghost predicate SameLex(r: Outcome<seq<Line>>, s: Outcome<seq<Line>>, k: nat) {
    match (r, s)
    case (Ok(a), Ok(b)) => Shifted(a, b, k)
    case (Err(_, f), Err(_, g)) => f == g
    case _ => false
  }

  /** Lines that lex alike, one by one, lex alike as a document. */
  lemma {:induction false} LexShifts(raws: seq<string>, deep: seq<string>, k: nat, n: nat, n': nat,
                                     acc: seq<Line>, acc': seq<Line>)
    requires |raws| == |deep| && Shifted(acc, acc', k)
    requires forall i | 0 <= i < |raws| :: LexLine(deep[i]) == Deeper(LexLine(raws[i]), k)
    ensures SameLex(LexFrom(raws, n, acc), LexFrom(deep, n', acc'), k)
    decreases |raws|
  {
    if raws != [] {
      TabsAreNeverRejected(raws, n, acc);
      IndentShifts(raws[0], 0);
      var l, l' := LexLine(raws[0]), LexLine(deep[0]);
      if l.Content? {
        LexShifts(raws[1..], deep[1..], k, n + 1, n' + 1,
                  acc + [Line(l.indent, l.text, n + 1)], acc' + [Line(l'.indent, l'.text, n' + 1)]);
      } else if l.Skip? || acc == [] {
        LexShifts(raws[1..], deep[1..], k, n + 1, n' + 1, acc, acc');
      }
    }
  }

  lemma LexAlike(raws: seq<string>, n: nat, n': nat, acc: seq<Line>, acc': seq<Line>)
    requires Shifted(acc, acc', 0)
    ensures SameLex(LexFrom(raws, n, acc), LexFrom(raws, n', acc'), 0)
  {
    LexShifts(raws, raws, 0, n, n', acc, acc');
  }

  lemma {:induction false} LexSkips(raws: seq<string>, at: nat, line: string, n: nat, n': nat,
                                    acc: seq<Line>, acc': seq<Line>)
    requires at <= |raws| && Shifted(acc, acc', 0) && LexLine(line) == Skip
    ensures SameLex(LexFrom(raws, n, acc), LexFrom(raws[..at] + [line] + raws[at..], n', acc'), 0)
    decreases |raws|
  {
    var more := raws[..at] + [line] + raws[at..];
    if at == 0 {
      assert more[0] == line && more[1..] == raws;
      LexAlike(raws, n, n' + 1, acc, acc');
    } else {
      assert more[0] == raws[0] && more[1..] == raws[1..][..at - 1] + [line] + raws[1..][at - 1..];
      IndentShifts(raws[0], 0);
      var l := LexLine(raws[0]);
      if l.Content? {
        LexSkips(raws[1..], at - 1, line, n + 1, n' + 1,
                 acc + [Line(l.indent, l.text, n + 1)], acc' + [Line(l.indent, l.text, n' + 1)]);
      } else if l.Skip? || acc == [] {
        LexSkips(raws[1..], at - 1, line, n + 1, n' + 1, acc, acc');
      }
    }
  }

  lemma EditShifts(e: Edit, raws: seq<string>)
    requires Cosmetic(e, raws)
    ensures SameLex(LexFrom(raws, 0, []), LexFrom(Apply(e, raws), 0, []), if e.Indent? then e.depth else 0)
  {
    match e
    case Insert(at, line) =>
      LexLineExactly(line, 0, "");
      LexSkips(raws, at, line, 0, 0, [], []);
    case Pad(at, suffix) =>
      PaddingIgnored(raws[at], suffix);
      LexShifts(raws, Apply(e, raws), 0, 0, 0, [], []);
    case Indent(depth) =>
      forall i | 0 <= i < |raws| {
        IndentShifts(raws[i], depth);
      }
      LexShifts(raws, Apply(e, raws), depth, 0, 0, [], []);
  }

  function ParseRaws(raws: seq<string>): Outcome<Node> {
    var ls :- LexFrom(raws, 0, []);
    ParseLines(ls)
  }

  /** What one edit keeps: the tree, or the kind of failure. */
  lemma EditKeepsVerdict(e: Edit, raws: seq<string>)
    requires Cosmetic(e, raws)
    ensures Verdict(ParseRaws(Apply(e, raws))) == Verdict(ParseRaws(raws))
  {
    EditShifts(e, raws);
    var r, s := LexFrom(raws, 0, []), LexFrom(Apply(e, raws), 0, []);
    if r.Ok? {
      LinesShift(r.value, s.value, if e.Indent? then e.depth else 0);
    }
  }

  lemma {:induction false} EditsKeepVerdict(edits: seq<Edit>, raws: seq<string>)
    requires AllCosmetic(edits, raws)
    ensures Verdict(ParseRaws(ApplyAll(edits, raws))) == Verdict(ParseRaws(raws))
  {
    if edits != [] {
      EditKeepsVerdict(edits[0], raws);
      EditsKeepVerdict(edits[1..], Apply(edits[0], raws));
    }
  }

  lemma EditKeepsLines(e: Edit, raws: seq<string>)
    requires Cosmetic(e, raws) && raws != []
    requires forall l | l in raws :: NEWLINE !in l
    ensures Apply(e, raws) != []
    ensures forall l | l in Apply(e, raws) :: NEWLINE !in l
  {
    if e.Pad? {
      assert raws[e.at] in raws;
      assert NEWLINE !in e.suffix;
    } else if e.Indent? {
      forall i | 0 <= i < |raws| ensures NEWLINE !in Apply(e, raws)[i] {
        BlanksInFront(raws[i], e.depth);
        assert NEWLINE !in raws[i] && NEWLINE !in Blanks(e.depth);
      }
    }
  }

  lemma {:induction false} EditsKeepLines(edits: seq<Edit>, raws: seq<string>)
    requires AllCosmetic(edits, raws) && raws != []
    requires forall l | l in raws :: NEWLINE !in l
    ensures ApplyAll(edits, raws) != []
    ensures forall l | l in ApplyAll(edits, raws) :: NEWLINE !in l
  {
    if edits != [] {
      EditKeepsLines(edits[0], raws);
      EditsKeepLines(edits[1..], Apply(edits[0], raws));
    }
  }

  /** Any series of cosmetic edits to any document, accepted or not, keeps its tree or its kind of failure. */
  lemma LayoutInvariance(text: string, edits: seq<Edit>)
    requires AllCosmetic(edits, SplitLines(text))
    ensures ApplyAll(edits, SplitLines(text)) != []
    ensures Verdict(ParseTree(JoinLines(ApplyAll(edits, SplitLines(text))))) == Verdict(ParseTree(text))
  {
    var raws := SplitLines(text);
    EditsKeepLines(edits, raws);
    SplitUndoesJoin(ApplyAll(edits, raws));
    EditsKeepVerdict(edits, raws);
  }
}

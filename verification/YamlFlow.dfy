/**
 Splitting a flow collection on its unquoted commas is the inverse of joining with commas, so a flat
 `{k: "v", ...}` parses back to its map whatever its quoted values hold.
 */
module YamlFlow {
  import opened Strings
  import opened Yaml
  import opened YamlPrint
  import opened YamlSteps

  function JoinCommas(parts: seq<string>): string
    requires parts != []
  {
    if |parts| == 1 then parts[0] else parts[0] + "," + JoinCommas(parts[1..])
  }

  /** The quote still open after reading s, starting inside quote (or outside any). */
  function QuoteAfter(s: string, quote: char): char {
    if s == "" then quote else QuoteAfter(s[1..], NextQuote(quote, s[0]))
  }

  /** No comma of s stands outside quotes. */
  predicate NoBareComma(s: string, quote: char) {
    s == "" || (!(quote == NO_QUOTE && s[0] == ',') && NoBareComma(s[1..], NextQuote(quote, s[0])))
  }

  predicate Balanced(s: string) {
    QuoteAfter(s, NO_QUOTE) == NO_QUOTE
  }

  /** What a splitting on unquoted commas is, without saying how it is found. */
  ghost predicate IsSplit(parts: seq<string>) {
    && parts != []
    && (forall i | 0 <= i < |parts| :: NoBareComma(parts[i], NO_QUOTE))
    && (forall i | 0 <= i < |parts| - 1 :: Balanced(parts[i]))
  }

  lemma {:induction false} Appended(s: string, t: string, quote: char)
    ensures QuoteAfter(s + t, quote) == QuoteAfter(t, QuoteAfter(s, quote))
    ensures NoBareComma(s + t, quote) <==> NoBareComma(s, quote) && NoBareComma(t, QuoteAfter(s, quote))
    decreases |s|
  {
    if s == "" {
      assert s + t == t;
    } else {
      assert (s + t)[0] == s[0] && (s + t)[1..] == s[1..] + t;
      Appended(s[1..], t, NextQuote(quote, s[0]));
    }
  }

  lemma {:induction false} SplitFromIsSplit(s: string, quote: char, cur: string)
    requires QuoteAfter(cur, NO_QUOTE) == quote && NoBareComma(cur, NO_QUOTE)
    ensures IsSplit(SplitFlowFrom(s, quote, cur))
    ensures JoinCommas(SplitFlowFrom(s, quote, cur)) == cur + s
    decreases |s|
  {
    if s == "" {
      assert cur + s == cur;
    } else if quote == NO_QUOTE && s[0] == ',' {
      SplitFromIsSplit(s[1..], NO_QUOTE, "");
      var tail := SplitFlowFrom(s[1..], NO_QUOTE, "");
      var parts := [cur] + tail;
      assert parts[1..] == tail;
      assert cur + "," + ("" + s[1..]) == cur + s;
    } else {
      Appended(cur, [s[0]], NO_QUOTE);
      SplitFromIsSplit(s[1..], NextQuote(quote, s[0]), cur + [s[0]]);
      assert cur + [s[0]] + s[1..] == cur + s;
    }
  }

  /** Reading a part without bare commas only fills the current part. */
  lemma {:induction false} Absorbs(part: string, tail: string, quote: char, cur: string)
    requires NoBareComma(part, quote)
    ensures SplitFlowFrom(part + tail, quote, cur) == SplitFlowFrom(tail, QuoteAfter(part, quote), cur + part)
    decreases |part|
  {
    if part == "" {
      assert part + tail == tail && cur + part == cur;
    } else {
      assert (part + tail)[0] == part[0] && (part + tail)[1..] == part[1..] + tail;
      Absorbs(part[1..], tail, NextQuote(quote, part[0]), cur + [part[0]]);
      assert cur + [part[0]] + part[1..] == cur + part;
    }
  }

  /** Any splitting is the one found: joining and splitting again changes nothing. */
  lemma {:induction false} SplitUndoesJoinCommas(parts: seq<string>)
    requires IsSplit(parts)
    ensures SplitFlowParts(JoinCommas(parts)) == parts
    decreases |parts|
  {
    var p := parts[0];
    assert "" + p == p;
    if |parts| == 1 {
      Absorbs(p, "", NO_QUOTE, "");
      assert p + "" == p;
    } else {
      var tail := JoinCommas(parts[1..]);
      assert Balanced(p);
      SplitUndoesJoinCommas(parts[1..]);
      Absorbs(p, "," + tail, NO_QUOTE, "");
      assert p + ("," + tail) == JoinCommas(parts);
      assert ("," + tail)[0] == ',' && ("," + tail)[1..] == tail;
      assert parts == [p] + parts[1..];
    }
  }

  /** Splitting loses nothing, cuts only outside quotes, and leaves no unquoted comma behind. */
  lemma SplitSpec(s: string, parts: seq<string>)
    ensures SplitFlowParts(s) == parts <==> IsSplit(parts) && JoinCommas(parts) == s
  {
    SplitFromIsSplit(s, NO_QUOTE, "");
    assert "" + s == s;
    if IsSplit(parts) && JoinCommas(parts) == s {
      SplitUndoesJoinCommas(parts);
    }
  }

  // ---------------------------------------------------------------- flat flow maps

  datatype Field = Field(style: Style, key: string, quote: char, value: string)

  /** Quotes may hold anything but themselves; bare keys hold no comma and no quote either. */
  predicate FieldKeyOk(style: Style, key: string) {
    && KeyOk(style, key)
    && if style.Quoted? then style.quote !in key else ',' !in key && '"' !in key && '\'' !in key
  }

  predicate FieldOk(f: Field) {
    FieldKeyOk(f.style, f.key) && TextOk(Quoted(f.quote), f.value)
  }

  function FieldValue(f: Field): Layout {
    Text(Quoted(f.quote), f.value)
  }

  function FieldText(f: Field): string {
    Styled(f.style, f.key) + ":" + AfterColon(FieldValue(f))
  }

  /** The printed fields, each after the first led by a blank. */
  function FieldParts(fs: seq<Field>, lead: string): seq<string> {
    if fs == [] then [] else [lead + FieldText(fs[0])] + FieldParts(fs[1..], " ")
  }

  function FlowText(fs: seq<Field>): string
    requires fs != []
  {
    "{" + JoinCommas(FieldParts(fs, "")) + "}"
  }

  /** A repeated key keeps its last value. */
  function Fields(fs: seq<Field>, m: map<string, Node>): map<string, Node> {
    if fs == [] then m else Fields(fs[1..], m[fs[0].key := Str(fs[0].value)])
  }

  lemma {:induction false} InsideQuotes(s: string, quote: char)
    requires quote !in s && quote != NO_QUOTE
    ensures QuoteAfter(s, quote) == quote && NoBareComma(s, quote)
    decreases |s|
  {
    if s != "" {
      InsideQuotes(s[1..], quote);
    }
  }

  lemma {:induction false} OutsideQuotes(s: string)
    requires ',' !in s && '"' !in s && '\'' !in s
    ensures Balanced(s) && NoBareComma(s, NO_QUOTE)
    decreases |s|
  {
    if s != "" {
      OutsideQuotes(s[1..]);
    }
  }

  lemma QuotedIsPart(q: char, s: string)
    requires IsQuote(q) && q !in s
    ensures Balanced([q] + s + [q]) && NoBareComma([q] + s + [q], NO_QUOTE)
  {
    InsideQuotes(s, q);
    Appended([q], s, NO_QUOTE);
    Appended([q] + s, [q], NO_QUOTE);
  }

  predicate IsPart(s: string) {
    Balanced(s) && NoBareComma(s, NO_QUOTE)
  }

  lemma PartsAppend(s: string, t: string)
    requires IsPart(s) && IsPart(t)
    ensures IsPart(s + t)
  {
    Appended(s, t, NO_QUOTE);
  }

  lemma KeyIsPart(style: Style, key: string)
    requires FieldKeyOk(style, key)
    ensures IsPart(Styled(style, key))
  {
    if style.Quoted? {
      QuotedIsPart(style.quote, key);
    } else {
      OutsideQuotes(key);
    }
  }

  lemma FieldIsPart(f: Field, lead: string)
    requires FieldOk(f) && (lead == "" || lead == " ")
    ensures IsPart(lead + FieldText(f))
  {
    var k, v := Styled(f.style, f.key), [f.quote] + f.value + [f.quote];
    KeyIsPart(f.style, f.key);
    QuotedIsPart(f.quote, f.value);
    OutsideQuotes(lead);
    OutsideQuotes(":");
    OutsideQuotes(" ");
    PartsAppend(k, ":");
    PartsAppend(" ", v);
    PartsAppend(k + ":", " " + v);
    PartsAppend(lead, k + ":" + (" " + v));
  }

  lemma {:induction false} FieldsAreSplit(fs: seq<Field>, lead: string)
    requires fs != [] && (forall i | 0 <= i < |fs| :: FieldOk(fs[i])) && (lead == "" || lead == " ")
    ensures IsSplit(FieldParts(fs, lead))
    decreases |fs|
  {
    FieldIsPart(fs[0], lead);
    if |fs| > 1 {
      FieldsAreSplit(fs[1..], " ");
    }
  }

  lemma FieldTrims(f: Field, lead: string)
    requires FieldOk(f) && (lead == "" || lead == " ")
    ensures TrimSpace(lead + FieldText(f)) == FieldText(f) != ""
  {
    var t, v := FieldText(f), FieldValue(f);
    EntryIsNoDash(f.style, f.key, AfterColon(v));
    StyledIsTrimmed(f.style, f.key);
    InlineIsTrimmed(v);
    assert t[|t| - 1] == Inline(v)[|Inline(v)| - 1];
    assert Trimmed(t);
    if lead == "" {
      assert lead + t == t;
      TrimSpaceFixes(t);
    } else {
      TrimSpaceDropsBlank(t);
    }
  }

  lemma FieldSplits(f: Field, n: nat)
    requires FieldOk(f)
    ensures SplitKeyValue(FieldText(f), n) == Ok((f.key, Inline(FieldValue(f))))
  {
    EntrySplits(f.style, f.key, FieldValue(f), n);
  }

  lemma FieldReads(f: Field, n: nat)
    requires FieldOk(f)
    ensures ParseScalar(Inline(FieldValue(f)), n) == Ok(Str(f.value))
  {
    InlineReads(FieldValue(f), n);
  }

  lemma FieldParses(f: Field, lead: string, more: seq<string>, n: nat, m: map<string, Node>)
    requires FieldOk(f) && (lead == "" || lead == " ")
    ensures ParseFlowMap([lead + FieldText(f)] + more, n, m) == ParseFlowMap(more, n, m[f.key := Str(f.value)])
  {
    FieldTrims(f, lead);
    FieldSplits(f, n);
    FieldReads(f, n);
    var parts := [lead + FieldText(f)] + more;
    assert parts[1..] == more;
    FlowMapStep(parts, n, m, FieldText(f), f.key, Inline(FieldValue(f)));
  }

  lemma {:induction false} FieldsParse(fs: seq<Field>, lead: string, n: nat, m: map<string, Node>)
    requires (forall i | 0 <= i < |fs| :: FieldOk(fs[i])) && (lead == "" || lead == " ")
    ensures ParseFlowMap(FieldParts(fs, lead), n, m) == Ok(Map(Fields(fs, m)))
    decreases |fs|
  {
    if fs != [] {
      FieldParses(fs[0], lead, FieldParts(fs[1..], " "), n, m);
      FieldsParse(fs[1..], " ", n, m[fs[0].key := Str(fs[0].value)]);
    }
  }

  lemma Braced(body: string, n: nat)
    ensures ParseScalar("{" + body + "}", n) == ParseFlowMap(SplitFlowParts(body), n, map[])
  {
    var s := "{" + body + "}";
    assert s[0] == '{' && s[|s| - 1] == '}' && s[1..|s| - 1] == body && s[|s|..] == "";
    TrimSpaceFixes(s);
    assert LastIndex(s, '}') == |s| - 1;
    assert FlowInner(s, '{', '}', n) == Ok(body);
  }

  /** A flat flow map parses back to its fields, with commas, colons and braces free inside its quotes. */
  lemma FlowMapRoundTrip(fs: seq<Field>, n: nat)
    requires fs != [] && forall i | 0 <= i < |fs| :: FieldOk(fs[i])
    ensures ParseScalar(FlowText(fs), n) == Ok(Map(Fields(fs, map[])))
  {
    FieldsAreSplit(fs, "");
    SplitUndoesJoinCommas(FieldParts(fs, ""));
    Braced(JoinCommas(FieldParts(fs, "")), n);
    FieldsParse(fs, "", n, map[]);
  }

  lemma {:induction false} OtherFields(fs: seq<Field>, m: map<string, Node>, key: string)
    requires key in m && forall j | 0 <= j < |fs| :: fs[j].key != key
    ensures key in Fields(fs, m) && Fields(fs, m)[key] == m[key]
    decreases |fs|
  {
    if fs != [] {
      OtherFields(fs[1..], m[fs[0].key := Str(fs[0].value)], key);
    }
  }

  /** With distinct keys every field is found again. */
  lemma {:induction false} DistinctFields(fs: seq<Field>, m: map<string, Node>, i: nat)
    requires i < |fs| && forall j | i < j < |fs| :: fs[j].key != fs[i].key
    ensures fs[i].key in Fields(fs, m) && Fields(fs, m)[fs[i].key] == Str(fs[i].value)
    decreases |fs|
  {
    if i > 0 {
      DistinctFields(fs[1..], m[fs[0].key := Str(fs[0].value)], i - 1);
    } else {
      OtherFields(fs[1..], m[fs[0].key := Str(fs[0].value)], fs[0].key);
    }
  }
}

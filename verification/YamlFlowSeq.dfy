/**
 What a flow sequence reads as, and which sequences one line can hold: those whose items have texts that can
 stand side by side, with no comma outside quotes and, but for the last, no quote left open.
 */
module YamlFlowSeq {
  import opened Strings
  import opened Yaml
  import opened YamlFlow
  import opened YamlPrint

  /** The parts that are not blank; the loop skips the others. */
  function Kept(parts: seq<string>): seq<string> {
    if parts == [] then []
    else if TrimSpace(parts[0]) == "" then Kept(parts[1..])
    else [parts[0]] + Kept(parts[1..])
  }

  /** One by one, the parts read as the items. */
  ghost predicate PartsRead(parts: seq<string>, items: seq<Node>, n: nat) {
    |parts| == |items| && forall i | 0 <= i < |parts| :: ParseScalar(parts[i], n) == Ok(items[i])
  }

  ghost predicate NoNewlines(parts: seq<string>) {
    forall i | 0 <= i < |parts| :: NEWLINE !in parts[i]
  }

  lemma {:induction false} KeptIsSplit(parts: seq<string>)
    requires IsSplit(parts) && Kept(parts) != []
    ensures IsSplit(Kept(parts))
    decreases |parts|
  {
    if Kept(parts[1..]) != [] {
      KeptIsSplit(parts[1..]);
    }
  }

  lemma {:induction false} KeptHasNoNewline(parts: seq<string>)
    requires NoNewlines(parts)
    ensures NoNewlines(Kept(parts))
    decreases |parts|
  {
    if parts != [] {
      KeptHasNoNewline(parts[1..]);
    }
  }

  lemma ScalarTrims(part: string, n: nat)
    ensures ParseScalar(TrimSpace(part), n) == ParseScalar(part, n)
  {
    TrimSpaceTrims(part);
    if TrimSpace(part) != "" {
      TrimSpaceFixes(TrimSpace(part));
    }
  }

  lemma FlowSeqStep(parts: seq<string>, n: nat, acc: seq<Node>)
    requires parts != [] && TrimSpace(parts[0]) != ""
    ensures var val := ParseScalar(parts[0], n);
      ParseFlowSeq(parts, n, acc) == if val.Ok? then ParseFlowSeq(parts[1..], n, acc + [val.value]) else val
  {
    ScalarTrims(parts[0], n);
  }

  /** What has been read of the parts, if all of them could be. */
  lemma {:induction false} FlowSeqItems(parts: seq<string>, n: nat, acc: seq<Node>) returns (items: seq<Node>)
    requires ParseFlowSeq(parts, n, acc).Ok?
    ensures PartsRead(Kept(parts), items, n) && ParseFlowSeq(parts, n, acc) == Ok(Seq(acc + items))
    decreases |parts|
  {
    if parts == [] {
      items := [];
      assert acc + items == acc;
    } else if TrimSpace(parts[0]) == "" {
      items := FlowSeqItems(parts[1..], n, acc);
    } else {
      FlowSeqStep(parts, n, acc);
      var val := ParseScalar(parts[0], n).value;
      var more := FlowSeqItems(parts[1..], n, acc + [val]);
      items := [val] + more;
      assert acc + [val] + more == acc + items;
    }
  }

  lemma {:induction false} FlowSeqOf(parts: seq<string>, n: nat, acc: seq<Node>, items: seq<Node>)
    requires PartsRead(Kept(parts), items, n)
    ensures ParseFlowSeq(parts, n, acc) == Ok(Seq(acc + items))
    decreases |parts|
  {
    if parts == [] {
      assert acc + items == acc;
    } else if TrimSpace(parts[0]) == "" {
      FlowSeqOf(parts[1..], n, acc, items);
    } else {
      FlowSeqStep(parts, n, acc);
      assert Kept(parts)[0] == parts[0] && Kept(parts)[1..] == Kept(parts[1..]);
      FlowSeqOf(parts[1..], n, acc + [items[0]], items[1..]);
      assert acc + [items[0]] + items[1..] == acc + items;
    }
  }

  lemma PartsExactly(parts: seq<string>, n: nat, items: seq<Node>)
    ensures ParseFlowSeq(parts, n, []) == Ok(Seq(items)) <==> PartsRead(Kept(parts), items, n)
  {
    if ParseFlowSeq(parts, n, []) == Ok(Seq(items)) {
      var found := FlowSeqItems(parts, n, []);
      assert [] + found == found;
    }
    if PartsRead(Kept(parts), items, n) {
      FlowSeqOf(parts, n, [], items);
      assert [] + items == items;
    }
  }

  lemma Bracketed(body: string, n: nat)
    ensures Trimmed("[" + body + "]")
    ensures ParseScalar("[" + body + "]", n) == ParseFlowSeq(SplitFlowParts(body), n, [])
  {
    var s := "[" + body + "]";
    assert s[0] == '[' && s[|s| - 1] == ']' && s[1..|s| - 1] == body && s[|s|..] == "";
    TrimSpaceFixes(s);
    assert LastIndex(s, ']') == |s| - 1;
    assert FlowInner(s, '[', ']', n) == Ok(body);
  }

  /** A flow sequence reads as these items exactly when its parts, the blank ones left out, read as them in turn. */
  lemma FlowSeqExactly(parts: seq<string>, items: seq<Node>, n: nat)
    requires IsSplit(parts)
    ensures ParseScalar("[" + JoinCommas(parts) + "]", n) == Ok(Seq(items)) <==> PartsRead(Kept(parts), items, n)
  {
    Bracketed(JoinCommas(parts), n);
    SplitUndoesJoinCommas(parts);
    PartsExactly(parts, n, items);
  }

  // ---------------------------------------------------------------- what one line can hold

  /** Some texts side by side on one line read as the items. */
  ghost predicate OnOneLine(items: seq<Node>) {
    exists parts :: IsSplit(parts) && NoNewlines(parts) && PartsRead(parts, items, 0)
  }

  lemma {:induction false} JoinHasNoNewline(parts: seq<string>)
    requires parts != [] && NoNewlines(parts)
    ensures NEWLINE !in JoinCommas(parts)
    decreases |parts|
  {
    if |parts| > 1 {
      JoinHasNoNewline(parts[1..]);
    }
  }

  lemma {:induction false} AllKept(parts: seq<string>)
    requires forall i | 0 <= i < |parts| :: TrimSpace(parts[i]) != ""
    ensures Kept(parts) == parts
    decreases |parts|
  {
    if parts != [] {
      AllKept(parts[1..]);
    }
  }

  /** Such items have a text on one line, in brackets. */
  lemma LineHolds(items: seq<Node>) returns (text: string)
    requires OnOneLine(items)
    ensures Trimmed(text) && NEWLINE !in text && !OpensMapping(text) && ParseScalar(text, 0) == Ok(Seq(items))
  {
    var parts :| IsSplit(parts) && NoNewlines(parts) && PartsRead(parts, items, 0);
    text := "[" + JoinCommas(parts) + "]";
    Bracketed(JoinCommas(parts), 0);
    JoinHasNoNewline(parts);
    forall i | 0 <= i < |parts| ensures TrimSpace(parts[i]) != "" {
      assert ParseScalar(parts[i], 0) == Ok(items[i]);
    }
    AllKept(parts);
    FlowSeqExactly(parts, items, 0);
  }

  // ---------------------------------------------------------------- strings on one line

  lemma MiddleOf(before: string, middle: string, after: string)
    requires NoBareComma(before + (middle + after), NO_QUOTE) && Balanced(before)
    ensures NoBareComma(middle, NO_QUOTE)
  {
    Appended(before, middle + after, NO_QUOTE);
    Appended(middle, after, NO_QUOTE);
  }

  lemma SpaceIsBalanced(s: string)
    requires AllSpace(s)
    ensures Balanced(s)
  {
    assert forall c | c in s :: c != ',' && !IsQuote(c);
    OutsideQuotes(s);
  }

  /** What is left of a part without its surrounding space has no bare comma either. */
  lemma TrimHasNoBareComma(part: string)
    requires NoBareComma(part, NO_QUOTE)
    ensures NoBareComma(TrimSpace(part), NO_QUOTE)
  {
    var before, after := TrimIsMiddle(part);
    SpaceIsBalanced(before);
    MiddleOf(before, TrimSpace(part), after);
  }

  lemma {:induction false} FlowMapIsMap(parts: seq<string>, n: nat, m: map<string, Node>)
    ensures var r := ParseFlowMap(parts, n, m); r.Ok? ==> r.value.Map?
    decreases |parts|
  {
    if parts != [] {
      var part := TrimSpace(parts[0]);
      if part == "" {
        FlowMapIsMap(parts[1..], n, m);
      } else {
        var kv := SplitKeyValue(part, n);
        if kv.Ok? {
          var val := ParseScalar(kv.value.1, n);
          if val.Ok? {
            FlowMapIsMap(parts[1..], n, m[kv.value.0 := val.value]);
          }
        }
      }
    }
  }

  /** A scalar that reads as a string is a quoted or a plain one. */
  lemma StringScalar(part: string, text: string, n: nat)
    requires ParseScalar(part, n) == Ok(Str(text))
    ensures var s := TrimSpace(part);
      && Trimmed(s)
      && if IsQuote(s[0]) then ParseQuoted(s, n) == Ok(Str(text))
         else s[0] !in {'{', '[', '&', '*', '|', '>'} && text == PlainText(s)
  {
    var s := TrimSpace(part);
    TrimSpaceTrims(part);
    if s[0] == '{' {
      var inner := FlowInner(s, '{', '}', n);
      FlowMapIsMap(SplitFlowParts(inner.value), n, map[]);
    } else if s[0] == '[' {
      var inner := FlowInner(s, '[', ']', n);
      var items := FlowSeqItems(SplitFlowParts(inner.value), n, []);
    }
  }

  lemma QuotedIsQuotable(s: string, n: nat)
    requires s != "" && IsQuote(s[0]) && ParseQuoted(s, n).Ok?
    ensures var r := ParseQuoted(s, n); r.value.Str? && Quotable(r.value.text) && forall c | c in r.value.text :: c in s
  {
    var end := Index(s[1..], s[0]);
    assert s[1..1 + end] == s[1..][..end];
    assert s[0] !in s[1..][..end];
  }

  lemma PlainHasNoBareComma(s: string)
    requires NoBareComma(s, NO_QUOTE)
    ensures NoBareComma(PlainText(s), NO_QUOTE)
  {
    var i := CommentAt(s);
    if i >= 0 {
      assert s == s[..i] + s[i..];
      Appended(s[..i], s[i..], NO_QUOTE);
      TrimHasNoBareComma(s[..i]);
    }
  }

  /** A text read as a string that no quotes could enclose stands in its part as it is. */
  lemma PlainStands(part: string, text: string)
    requires ParseScalar(part, 0) == Ok(Str(text)) && NoBareComma(part, NO_QUOTE) && !Quotable(text)
    ensures NoBareComma(text, NO_QUOTE)
  {
    var s := TrimSpace(part);
    StringScalar(part, text, 0);
    if IsQuote(s[0]) {
      QuotedIsQuotable(s, 0);
    } else {
      TrimHasNoBareComma(part);
      PlainHasNoBareComma(s);
    }
  }

  lemma {:induction false} QuoteAfterIs(s: string, quote: char)
    requires quote == NO_QUOTE || IsQuote(quote)
    ensures QuoteAfter(s, quote) == NO_QUOTE || IsQuote(QuoteAfter(s, quote))
    decreases |s|
  {
    if s != "" {
      QuoteAfterIs(s[1..], NextQuote(quote, s[0]));
    }
  }

  /** A comment behind a plain scalar is no part of it. */
  lemma CommentedReads(text: string, q: char, n: nat)
    requires PlainValue(text) && IsQuote(q)
    ensures ParseScalar(text + " #" + [q], n) == Ok(Str(text))
  {
    var s := text + " #" + [q];
    assert s[0] == text[0] && s[|s| - 1] == q && s[|text|] == ' ' && s[|text| + 1] == '#';
    TrimSpaceFixes(s);
    assert forall j | 0 <= j < |text| :: s[j] == text[j];
    assert CommentAt(s) == |text| && s[..|text|] == text;
    TrimSpaceFixes(text);
  }

  /** A comment can close the quote that a plain scalar leaves open. */
  lemma ClosedByComment(text: string)
    requires NoBareComma(text, NO_QUOTE) && IsQuote(QuoteAfter(text, NO_QUOTE))
    ensures IsPart(text + " #" + [QuoteAfter(text, NO_QUOTE)])
  {
    var q := QuoteAfter(text, NO_QUOTE);
    InsideQuotes(" #", q);
    Appended(text, " #", NO_QUOTE);
    Appended(text + " #", [q], NO_QUOTE);
    assert QuoteAfter([q], q) == NO_QUOTE;
  }

  /** The text of a string as a part of a flow sequence. */
  function PartFor(text: string): string {
    if '"' !in text then Styled(Quoted('"'), text)
    else if '\'' !in text then Styled(Quoted('\''), text)
    else if Balanced(text) then text
    else text + " #" + [QuoteAfter(text, NO_QUOTE)]
  }

  /** The strings that can be parts: those that fit between quotes, and plain ones whose commas are all quoted. */
  predicate CanBePart(text: string) {
    Writable(text) && (Quotable(text) || NoBareComma(text, NO_QUOTE))
  }

  /** A text that reads as this string on one line and can be any part. */
  ghost predicate StandsFor(part: string, text: string) {
    NEWLINE !in part && IsPart(part) && ParseScalar(part, 0) == Ok(Str(text))
  }

  lemma QuotedStands(text: string, q: char)
    requires IsQuote(q) && q !in text && NEWLINE !in text
    ensures StandsFor(Styled(Quoted(q), text), text)
  {
    QuotedIsPart(q, text);
    TextReads(Quoted(q), text, 0);
  }

  lemma CommentedStands(text: string)
    requires PlainValue(text) && NoBareComma(text, NO_QUOTE) && !Balanced(text)
    ensures StandsFor(text + " #" + [QuoteAfter(text, NO_QUOTE)], text)
  {
    QuoteAfterIs(text, NO_QUOTE);
    CommentedReads(text, QuoteAfter(text, NO_QUOTE), 0);
    ClosedByComment(text);
  }

  lemma PartForStands(text: string)
    requires CanBePart(text)
    ensures StandsFor(PartFor(text), text)
  {
    if Quotable(text) {
      QuotedStands(text, if '"' !in text then '"' else '\'');
    } else if Balanced(text) {
      TextReads(Plain, text, 0);
    } else {
      CommentedStands(text);
    }
  }

  lemma PartIsOk(part: string, text: string)
    requires NEWLINE !in part && NoBareComma(part, NO_QUOTE) && ParseScalar(part, 0) == Ok(Str(text))
    requires Writable(text)
    ensures CanBePart(text)
  {
    if !Quotable(text) {
      PlainStands(part, text);
    }
  }

  /** A line holds a sequence of strings exactly when each fits between quotes or has no comma outside its own. */
  lemma StringsOnOneLine(texts: seq<string>)
    requires texts != [] && forall i | 0 <= i < |texts| :: Writable(texts[i])
    ensures OnOneLine(seq(|texts|, i requires 0 <= i < |texts| => Str(texts[i]))) <==>
      forall i | 0 <= i < |texts| :: CanBePart(texts[i])
  {
    var items := seq(|texts|, i requires 0 <= i < |texts| => Str(texts[i]));
    if OnOneLine(items) {
      var parts :| IsSplit(parts) && NoNewlines(parts) && PartsRead(parts, items, 0);
      forall i | 0 <= i < |texts| ensures CanBePart(texts[i]) {
        PartIsOk(parts[i], texts[i]);
      }
    }
    if forall i | 0 <= i < |texts| :: CanBePart(texts[i]) {
      var parts := seq(|texts|, i requires 0 <= i < |texts| => PartFor(texts[i]));
      forall i | 0 <= i < |texts| ensures StandsFor(parts[i], texts[i]) {
        PartForStands(texts[i]);
      }
      assert IsSplit(parts) && NoNewlines(parts) && PartsRead(parts, items, 0);
    }
  }
}

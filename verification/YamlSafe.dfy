/**
 Documents that cannot panic, by a look at their lines: no line ends in white space, and on no line is
 there nothing but white space between a colon and a comma or closing brace.
 */
module YamlSafe {
  import opened Strings
  import opened Yaml
  import opened YamlClean
  import opened YamlCut
  import opened YamlFlow
  import opened YamlPanic
  import opened YamlPrint
  import opened YamlSteps

  /** From p to q the text is a colon, white space, and a comma or a closing brace. */
  predicate DanglesAt(s: string, p: nat, q: nat) {
    && p < q < |s| && s[p] == ':' && s[q] in {',', '}'}
    && forall k | p < k < q :: IsSpace(s[k])
  }

  ghost predicate Dangles(s: string) {
    exists p, q :: DanglesAt(s, p, q)
  }

  predicate EndsInSpace(s: string) {
    s != "" && IsSpace(s[|s| - 1])
  }

  lemma Embedded(a: string, t: string, b: string)
    requires Dangles(t)
    ensures Dangles(a + t + b)
  {
    var p, q :| DanglesAt(t, p, q);
    var s := a + t + b;
    assert forall k | 0 <= k < |t| :: s[|a| + k] == t[k];
    assert forall k | |a| + p < k < |a| + q :: s[k] == t[k - |a|];
    assert DanglesAt(s, |a| + p, |a| + q);
  }

  lemma TrimEmbeds(s: string)
    requires Dangles(TrimSpace(s))
    ensures Dangles(s)
  {
    var a, b := TrimIsMiddle(s);
    Regroup(a, TrimSpace(s), b);
    Embedded(a, TrimSpace(s), b);
  }

  /** Every part of a flow body is followed by a comma, or by what follows the body. */
  lemma {:induction false} PartInBody(parts: seq<string>, i: nat, close: char) returns (a: string, c: char, b: string)
    requires i < |parts|
    ensures JoinCommas(parts) + [close] == a + (parts[i] + [c]) + b
    ensures c == close || c == ','
    decreases |parts|
  {
    if |parts| == 1 {
      a, c, b := "", close, "";
      assert "" + (parts[0] + [close]) + "" == parts[0] + [close];
    } else {
      var tail := JoinCommas(parts[1..]);
      if i == 0 {
        a, c, b := "", ',', tail + [close];
        assert parts[0] + "," + tail + [close] == "" + (parts[0] + [',']) + (tail + [close]);
      } else {
        a, c, b := PartInBody(parts[1..], i - 1, close);
        assert parts[1..][i - 1] == parts[i];
        assert parts[0] + "," + tail + [close] == parts[0] + "," + (tail + [close]);
        assert parts[0] + "," + (a + (parts[i] + [c]) + b) == (parts[0] + "," + a) + (parts[i] + [c]) + b;
        a := parts[0] + "," + a;
      }
    }
  }

  /** An entry is its key, the first colon, and the text that is trimmed to its value. */
  lemma EntryParts(s: string, value: string) returns (head: string, tail: string)
    requires SplitKeyValue(s, 0).Ok? && SplitKeyValue(s, 0).value.1 == value
    ensures s == head + ([':'] + tail) && TrimSpace(tail) == value
  {
    var i := Index(s, ':');
    head, tail := s[..i], s[i + 1..];
  }

  lemma AfterColonDangles(head: string, tail: string)
    requires Dangles(tail)
    ensures Dangles(head + ([':'] + tail))
  {
    Embedded(head + [':'], tail, "");
    assert head + [':'] + tail + "" == head + ([':'] + tail);
  }

  lemma ValueEmbeds(s: string, value: string)
    requires SplitKeyValue(s, 0).Ok? && SplitKeyValue(s, 0).value.1 == value && Dangles(value)
    ensures Dangles(s)
  {
    var head, tail := EntryParts(s, value);
    TrimEmbeds(tail);
    AfterColonDangles(head, tail);
  }

  lemma EndsInColon(part: string, a: string, head: string, space: string, c: char)
    requires part == a + (head + [':']) + space && AllSpace(space) && c in {',', '}'}
    ensures Dangles(part + [c])
  {
    var s, p := part + [c], |a| + |head|;
    assert s[p] == ':' && s[p + 1 + |space|] == c;
    assert forall k | p < k < p + 1 + |space| :: s[k] == space[k - p - 1];
    assert DanglesAt(s, p, p + 1 + |space|);
  }

  lemma LastOf(head: string, tail: string)
    requires tail != ""
    ensures var t := head + tail; t[|t| - 1] in tail
  {
    var t := head + tail;
    assert t[|t| - 1] == tail[|tail| - 1];
  }

  lemma TrimmedEnd(t: string, head: string, tail: string)
    requires Trimmed(t) && t == head + ([':'] + tail) && TrimSpace(tail) == ""
    ensures tail == ""
  {
    TrimSpaceTrims(tail);
    assert t == (head + [':']) + tail;
    if tail != "" {
      LastOf(head + [':'], tail);
    }
  }

  /** A field without a value ends in its colon, white space aside. */
  lemma BlankFieldDangles(part: string, c: char)
    requires !IsSkipped(part) && ScalarOf(part, true) == Ok("") && c in {',', '}'}
    ensures Dangles(part + [c])
  {
    var t := TrimSpace(part);
    var a, b := TrimIsMiddle(part);
    Regroup(a, t, b);
    var head, tail := EntryParts(t, "");
    TrimSpaceTrims(part);
    TrimmedEnd(t, head, tail);
    assert [':'] + "" == [':'];
    EndsInColon(part, a, head, b, c);
  }

  lemma ScalarOfEmbeds(part: string, fields: bool)
    requires ScalarOf(part, fields).Ok? && Dangles(ScalarOf(part, fields).value)
    ensures Dangles(part)
  {
    if fields {
      ValueEmbeds(TrimSpace(part), ScalarOf(part, fields).value);
    }
    TrimEmbeds(part);
  }

  /** A flow body that panics shows a dangling colon, its closing bracket included. */
  lemma {:induction false} BodyDangles(parts: seq<string>, fields: bool, close: char)
    requires BodyPanics(parts, fields) && (fields ==> close == '}')
    ensures Dangles(JoinCommas(parts) + [close])
    decreases Size(parts), 0
  {
    var i := WhereItPanics(parts, fields);
    var a, c, b := PartInBody(parts, i, close);
    PartFits(parts, i);
    PartDangles(parts[i], fields, c, ScalarOf(parts[i], fields).value);
    Embedded(a, parts[i] + [c], b);
  }

  lemma AppendDangles(s: string, c: char)
    requires Dangles(s)
    ensures Dangles(s + [c])
  {
    Embedded("", s, [c]);
    assert "" + s + [c] == s + [c];
  }

  /** Only a field can have a blank scalar, and it is trimmed to nothing. */
  lemma BlankScalar(part: string, fields: bool)
    requires !IsSkipped(part) && ScalarOf(part, fields).Ok? && TrimSpace(ScalarOf(part, fields).value) == ""
    ensures fields && ScalarOf(part, fields) == Ok("")
  {
    TrimSpaceTrims(part);
    var t := TrimSpace(part);
    TrimSpaceFixes(t);
    if fields {
      var tail := t[Index(t, ':') + 1..];
      TrimSpaceTrims(tail);
      if TrimSpace(tail) != "" {
        TrimSpaceFixes(TrimSpace(tail));
      }
    }
  }

  lemma {:induction false} PartDangles(part: string, fields: bool, c: char, v: string)
    requires !IsSkipped(part) && ScalarOf(part, fields) == Ok(v) && Panics(v)
    requires fields ==> c in {',', '}'}
    ensures Dangles(part + [c])
    decreases |part|, 2
  {
    if TrimSpace(v) == "" {
      BlankScalar(part, fields);
      BlankFieldDangles(part, c);
    } else {
      ScalarDangles(v);
      ScalarOfEmbeds(part, fields);
      AppendDangles(part, c);
    }
  }

  lemma Cutting(s: string, i: nat, inner: string) returns (tail: string)
    requires 0 < i < |s| && inner == s[1..i]
    ensures s == [s[0]] + (inner + [s[i]]) + tail
  {
    tail := s[i + 1..];
  }

  lemma BodyIs(s: string, inner: string) returns (close: char, tail: string)
    requires s != "" && s[0] in {'{', '['} && BodyOf(s) == Ok(inner)
    ensures |inner| < |s|
    ensures s == [s[0]] + (inner + [close]) + tail
    ensures s[0] == '{' ==> close == '}'
  {
    close := if s[0] == '{' then '}' else ']';
    var i := LastIndex(s, close);
    tail := Cutting(s, i, inner);
  }

  lemma {:induction false} ScalarDangles(raw: string)
    requires Panics(raw) && TrimSpace(raw) != ""
    ensures Dangles(raw)
    decreases |raw|, 1
  {
    var s := TrimSpace(raw);
    var inner := BodyOf(s).value;
    var close, tail := BodyIs(s, inner);
    BodyDangles(SplitFlowParts(inner), s[0] == '{', close);
    SplitSpec(inner, SplitFlowParts(inner));
    Embedded([s[0]], inner + [close], tail);
    TrimEmbeds(raw);
  }

  // ---------------------------------------------------------------- lines and documents

  /** A line that can be seen not to panic. */
  ghost predicate LooksSafe(content: string) {
    !EndsInSpace(content) && !Dangles(content)
  }

  lemma NotBlank(s: string)
    requires s != "" && !EndsInSpace(s)
    ensures TrimSpace(s) != ""
  {
    TrimSpaceTrims(s);
    assert s[|s| - 1] in s;
  }

  lemma TrimmedValue(s: string, value: string)
    requires SplitKeyValue(s, 0).Ok? && SplitKeyValue(s, 0).value.1 == value != ""
    ensures TrimSpace(value) == value
  {
    var head, tail := EntryParts(s, value);
    TrimSpaceTrims(tail);
    TrimSpaceFixes(value);
  }

  lemma SafeEntry(content: string)
    requires LooksSafe(content) && !IsDash(content)
    ensures !LinePanics(content)
  {
    var kv := SplitKeyValue(content, 0);
    if kv.Ok? && kv.value.1 != "" && Panics(kv.value.1) {
      TrimmedValue(content, kv.value.1);
      ScalarDangles(kv.value.1);
      ValueEmbeds(content, kv.value.1);
    }
  }

  lemma {:induction false} SafeLine(content: string)
    requires LooksSafe(content)
    ensures !LinePanics(content)
    decreases |content|
  {
    if IsDash(content) {
      var rest := AfterDash(content);
      if rest != "" {
        assert content == content[..2] + rest + "";
        if Dangles(rest) {
          Embedded(content[..2], rest, "");
        }
        assert LooksSafe(rest);
        if OpensMapping(rest) {
          SafeLine(rest);
        } else {
          NotBlank(rest);
          if Panics(rest) {
            ScalarDangles(rest);
          }
        }
      }
    } else {
      SafeEntry(content);
    }
  }

  /** A document all of whose lines look safe never panics. */
  lemma SafeTextNeverPanics(text: string)
    requires Lex(text).Ok? ==> forall l | l in Lex(text).value :: LooksSafe(l.content)
    ensures ParseTree(text) != Crash
  {
    if Lex(text).Ok? {
      var ls := Lex(text).value;
      forall i | 0 <= i < |ls| ensures !LinePanics(ls[i].content) {
        SafeLine(ls[i].content);
      }
    }
    PanicExactly(text);
  }

  // ---------------------------------------------------------------- neither condition can be dropped

  /** A document of one clean line. */
  lemma OneLine(c: string)
    requires Clean(c)
    ensures ParseTree(c) == ParseLines([Line(0, c, 1)])
  {
    var ls := [Line(0, c, 0)];
    assert Blanks(0) == "" && "" + c == c;
    assert RawLines(ls) == [c] && Numbered(ls, 0) == [Line(0, c, 1)];
    CleanTextLexes(ls);
  }

  /** A sequence item of white space that the lexer leaves, a tab for one, passes for a scalar: the program panics. */
  lemma BlankItemPanics(space: string)
    requires space != "" && AllSpace(space) && NEWLINE !in space && !IsPadding(space[|space| - 1])
    ensures ParseTree("- " + space) == Crash
  {
    var c := "- " + space;
    DashClean(space);
    OneLine(c);
    DashPrefix(space);
    TrimSpaceTrims(space);
    var ls := [Line(0, c, 1)];
    ScalarItemStep(ls, 0, space, Crash, []);
    BlockStep(ls, 0, Crash);
  }

  /** A lone field whose value panics as a scalar takes the whole document down with it. */
  lemma FieldPanics(c: string, key: string, rest: string)
    requires Clean(c) && !IsDash(c) && SplitKeyValue(c, 1) == Ok((key, rest))
    requires rest != "" && ParseScalar(rest, 1) == Crash
    ensures ParseTree(c) == Crash
  {
    OneLine(c);
    var ls := [Line(0, c, 1)];
    MappingFails(ls, 0, map[], key, rest, Crash);
    BlockStep(ls, 0, Crash);
  }

  lemma TrimSpaceDropsTail(t: string, space: string)
    requires Trimmed(t) && AllSpace(space)
    ensures TrimSpace(t + space) == t
  {
    var s := t + space;
    KeepExact(s, IsSpace, |t|);
  }

  function BlankField(style: Style, key: string, space: string): string {
    "{" + (Styled(style, key) + ":" + space) + "}"
  }

  /** A flow map whose only field has no value. */
  lemma BlankFlowFieldPanics(style: Style, key: string, space: string, n: nat)
    requires FieldKeyOk(style, key) && AllSpace(space)
    ensures ParseScalar(BlankField(style, key, space), n) == Crash
  {
    var k := Styled(style, key);
    var part, body := k + ":", k + ":" + space;
    KeyIsPart(style, key);
    OutsideQuotes(":");
    PartsAppend(k, ":");
    OutsideQuotes(space);
    PartsAppend(part, space);
    SplitUndoesJoinCommas([body]);
    Braced(body, n);
    StyledIsTrimmed(style, key);
    assert part[0] == k[0] && part[|part| - 1] == ':';
    TrimSpaceDropsTail(part, space);
    EntrySplits(style, key, Null, n);
    assert k + ":" + "" == part;
    FlowMapStep([body], n, map[], part, key, "");
  }

  lemma FieldIsClean(style: Style, key: string, value: string)
    requires KeyOk(style, key) && Trimmed(value) && NEWLINE !in value
    ensures Clean(Styled(style, key) + ":" + (" " + value))
  {
    var s := Styled(style, key) + ":" + (" " + value);
    EntryIsNoDash(style, key, " " + value);
    StyledIsTrimmed(style, key);
    assert s[|s| - 1] == value[|value| - 1];
  }

  lemma FieldLineSplits(style: Style, key: string, value: string, n: nat)
    requires KeyOk(style, key) && Trimmed(value)
    ensures SplitKeyValue(Styled(style, key) + ":" + (" " + value), n) == Ok((key, value))
  {
    var k := Styled(style, key);
    FirstOf(k, ':', " " + value);
    UnquoteStyled(style, key);
    TrimSpaceDropsBlank(value);
    ColonSplits(k + ":" + (" " + value), k, " " + value, key, value, n);
  }

  lemma FieldLinePanics(style: Style, key: string, value: string)
    requires KeyOk(style, key) && Trimmed(value) && NEWLINE !in value && ParseScalar(value, 1) == Crash
    ensures ParseTree(Styled(style, key) + ":" + (" " + value)) == Crash
  {
    FieldIsClean(style, key, value);
    EntryIsNoDash(style, key, " " + value);
    FieldLineSplits(style, key, value, 1);
    FieldPanics(Styled(style, key) + ":" + (" " + value), key, value);
  }

  lemma BlankFieldIsTrimmed(style: Style, key: string, space: string)
    requires FieldKeyOk(style, key) && NEWLINE !in space
    ensures Trimmed(BlankField(style, key, space)) && NEWLINE !in BlankField(style, key, space)
  {
    var value := BlankField(style, key, space);
    assert value[0] == '{' && value[|value| - 1] == '}';
    assert NEWLINE !in Styled(style, key);
  }

  /** A document whose only field is a flow map whose only field has no value. */
  lemma BlankFieldPanics(style: Style, key: string, fieldStyle: Style, field: string, space: string)
    requires KeyOk(style, key) && FieldKeyOk(fieldStyle, field) && AllSpace(space) && NEWLINE !in space
    ensures ParseTree(Styled(style, key) + ":" + (" " + BlankField(fieldStyle, field, space))) == Crash
  {
    BlankFlowFieldPanics(fieldStyle, field, space, 1);
    BlankFieldIsTrimmed(fieldStyle, field, space);
    FieldLinePanics(style, key, BlankField(fieldStyle, field, space));
  }
}

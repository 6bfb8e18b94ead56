/**
 One line at a time, stated on its characters: where a key ends, what a quoted, plain or enclosed value is, and
 what may follow it.
 */
module YamlScalars {
  import opened Strings
  import opened Yaml
  import opened YamlFlow
  import opened YamlFlowSeq
  import opened YamlSteps

  // ---------------------------------------------------------------- keys

  /** Quotes around a key are no part of it. */
  ghost predicate Names(text: string, key: string) {
    || (exists q :: IsQuote(q) && text == [q] + key + [q])
    || (text == key && !exists q, inner :: IsQuote(q) && text == [q] + inner + [q])
  }

  lemma UnquoteExactly(text: string, key: string)
    ensures Unquote(text) == key <==> Names(text, key)
  {
    if |text| >= 2 && IsQuote(text[0]) && text[|text| - 1] == text[0] {
      assert text == [text[0]] + text[1..|text| - 1] + [text[0]];
    }
  }

  /** A key, a colon that is the first, and nothing or a blank behind it. */
  ghost predicate IsField(s: string, key: string, rest: string) {
    exists head, tail, name {:trigger TrimsTo(head, name), TrimsTo(tail, rest)} ::
      && s == head + ":" + tail && ':' !in head && (tail == "" || tail[0] == ' ')
      && TrimsTo(head, name) && Names(name, key) && key != "" && TrimsTo(tail, rest)
  }

  lemma ColonAt(s: string, head: string, tail: string)
    requires s == head + ":" + tail && ':' !in head
    ensures Index(s, ':') == |head| && s[..|head|] == head && s[|head| + 1..] == tail
  {
    FirstOf(head, ':', tail);
  }

  lemma FieldSplitsAs(s: string, n: nat, head: string, tail: string, name: string, key: string, rest: string)
    requires s == head + ":" + tail && ':' !in head && (tail == "" || tail[0] == ' ')
    requires TrimsTo(head, name) && Names(name, key) && key != "" && TrimsTo(tail, rest)
    ensures SplitKeyValue(s, n) == Ok((key, rest))
  {
    ColonAt(s, head, tail);
    TrimSpaceExactly(head, name);
    TrimSpaceExactly(tail, rest);
    UnquoteExactly(name, key);
  }

  lemma SplitsIsField(s: string, n: nat)
    requires SplitKeyValue(s, n).Ok?
    ensures IsField(s, SplitKeyValue(s, n).value.0, SplitKeyValue(s, n).value.1)
  {
    var (key, rest) := SplitKeyValue(s, n).value;
    var i := Index(s, ':');
    var head, tail := s[..i], s[i + 1..];
    assert s == head + ":" + tail;
    TrimSpaceExactly(head, TrimSpace(head));
    TrimSpaceExactly(tail, rest);
    UnquoteExactly(TrimSpace(head), key);
  }

  /** A line splits into a key and what it holds exactly where it is such a field; without a colon it never does. */
  lemma SplitKeyValueExactly(s: string, n: nat, key: string, rest: string)
    ensures SplitKeyValue(s, n) == Ok((key, rest)) <==> IsField(s, key, rest)
  {
    if SplitKeyValue(s, n).Ok? {
      SplitsIsField(s, n);
    }
    if IsField(s, key, rest) {
      var head, tail, name {:trigger TrimsTo(head, name), TrimsTo(tail, rest)} :|
        && s == head + ":" + tail && ':' !in head && (tail == "" || tail[0] == ' ')
        && TrimsTo(head, name) && Names(name, key) && key != "" && TrimsTo(tail, rest);
      FieldSplitsAs(s, n, head, tail, name, key, rest);
    }
  }

  // ---------------------------------------------------------------- quoted, enclosed and plain values

  predicate SpaceTo(s: string, to: nat)
    requires to <= |s|
  {
    forall i | 0 <= i < to :: IsSpace(s[i])
  }

  /** Nothing but space, or a comment. */
  ghost predicate IsTail(tail: string) {
    exists k | 0 <= k <= |tail| :: SpaceTo(tail, k) && (k == |tail| || tail[k] == '#')
  }

  lemma TailExactly(tail: string)
    ensures TrimSpace(tail) == "" || TrimSpace(tail)[0] == '#' <==> IsTail(tail)
  {
    TrimSpaceTrims(tail);
    var before, after := TrimIsMiddle(tail);
    var t := TrimSpace(tail);
    assert forall i | 0 <= i < |before| :: tail[i] == before[i];
    if t == "" {
      assert SpaceTo(tail, |tail|);
    } else {
      assert SpaceTo(tail, |before|) && tail[|before|] == t[0];
    }
  }

  /** The text between two marks, with at most a comment behind the second. */
  ghost predicate Encloses(s: string, open: char, text: string, close: char) {
    exists tail :: IsTail(tail) && s == [open] + text + [close] + tail
  }

  lemma CutAt(s: string, i: nat)
    requires 0 < i < |s|
    ensures s == [s[0]] + s[1..i] + [s[i]] + s[i + 1..]
  {
  }

  lemma QuotedHas(s: string, n: nat, text: string)
    requires s != "" && IsQuote(s[0]) && ParseQuoted(s, n) == Ok(Str(text))
    ensures s[0] !in text && Encloses(s, s[0], text, s[0])
  {
    var end := Index(s[1..], s[0]);
    var tail := s[2 + end..];
    TailExactly(tail);
    assert text == s[1..][..end];
    CutAt(s, 1 + end);
  }

  lemma QuotedIs(s: string, n: nat, text: string, tail: string)
    requires s != "" && IsQuote(s[0]) && s[0] !in text && IsTail(tail) && s == [s[0]] + text + [s[0]] + tail
    ensures ParseQuoted(s, n) == Ok(Str(text))
  {
    var q := s[0];
    TailExactly(tail);
    FirstOf(text, q, tail);
    assert s[1..] == text + [q] + tail;
    assert s[1..1 + |text|] == text && s[2 + |text|..] == tail;
  }

  /** A quoted value is what stands up to the next such quote, and only a comment may follow. */
  lemma QuotedExactly(s: string, n: nat, text: string)
    requires s != "" && IsQuote(s[0])
    ensures ParseQuoted(s, n) == Ok(Str(text)) <==> s[0] !in text && Encloses(s, s[0], text, s[0])
  {
    if ParseQuoted(s, n) == Ok(Str(text)) {
      QuotedHas(s, n, text);
    }
    if s[0] !in text && Encloses(s, s[0], text, s[0]) {
      var tail :| IsTail(tail) && s == [s[0]] + text + [s[0]] + tail;
      QuotedIs(s, n, text, tail);
    }
  }

  /** The last closing bracket of the line is the one that counts, even in a comment. */
  ghost predicate EnclosesLast(s: string, open: char, text: string, close: char) {
    exists tail :: IsTail(tail) && close !in tail && s == [open] + text + [close] + tail
  }

  lemma InnerHas(s: string, open: char, close: char, n: nat, body: string)
    requires s != "" && open != close && FlowInner(s, open, close, n) == Ok(body)
    ensures EnclosesLast(s, open, body, close)
  {
    var i := LastIndex(s, close);
    var tail := s[i + 1..];
    TailExactly(tail);
    CutAt(s, i);
    assert forall k | 0 <= k < |tail| :: tail[k] == s[i + 1 + k];
  }

  lemma InnerIs(s: string, open: char, close: char, n: nat, body: string, tail: string)
    requires open != close && IsTail(tail) && close !in tail && s == [open] + body + [close] + tail
    ensures FlowInner(s, open, close, n) == Ok(body)
  {
    TailExactly(tail);
    var i := 1 + |body|;
    assert s[i] == close && s[i + 1..] == tail && s[1..i] == body;
    assert forall k | i < k < |s| :: s[k] == tail[k - i - 1];
    assert LastIndex(s, close) == i;
  }

  /** A flow collection reaches up to the last closing bracket, and only a comment may follow. */
  lemma FlowInnerExactly(s: string, open: char, close: char, n: nat, body: string)
    requires s != "" && open != close
    ensures FlowInner(s, open, close, n) == Ok(body) <==> EnclosesLast(s, open, body, close)
  {
    if FlowInner(s, open, close, n) == Ok(body) {
      InnerHas(s, open, close, n, body);
    }
    if EnclosesLast(s, open, body, close) {
      var tail :| IsTail(tail) && close !in tail && s == [open] + body + [close] + tail;
      InnerIs(s, open, close, n, body, tail);
    }
  }

  ghost predicate HasComment(s: string) {
    exists i | 0 <= i < |s| - 1 :: s[i] == ' ' && s[i + 1] == '#'
  }

  /** The head is what stands before the first comment. */
  ghost predicate CommentBehind(s: string, head: string, comment: string) {
    s == head + " #" + comment && !HasComment(head)
  }

  /** All of the text, or what stands before its first comment. */
  ghost predicate IsPlain(s: string, text: string) {
    || (!HasComment(s) && text == s)
    || exists head, comment :: CommentBehind(s, head, comment) && TrimsTo(head, text)
  }

  lemma CommentStarts(s: string, head: string, comment: string)
    requires CommentBehind(s, head, comment)
    ensures HasComment(s) && CommentAt(s) == |head| && s[..|head|] == head
  {
    assert s[|head|] == ' ' && s[|head| + 1] == '#';
    assert forall j | 0 <= j < |head| :: head[j] == s[j];
  }

  lemma CommentFound(s: string)
    requires CommentAt(s) >= 0
    ensures CommentBehind(s, s[..CommentAt(s)], s[CommentAt(s) + 2..])
  {
    var i := CommentAt(s);
    assert s == s[..i] + " #" + s[i + 2..];
    assert forall j | 0 <= j < i :: s[..i][j] == s[j];
  }

  /** A plain value ends where a blank and a hash begin a comment. */
  lemma PlainExactly(s: string, text: string)
    ensures PlainText(s) == text <==> IsPlain(s, text)
  {
    var i := CommentAt(s);
    if i >= 0 {
      CommentFound(s);
      TrimSpaceExactly(s[..i], text);
    }
    forall h, c | CommentBehind(s, h, c) ensures HasComment(s) && i == |h| && s[..|h|] == h {
      CommentStarts(s, h, c);
    }
  }

  // ---------------------------------------------------------------- flow mappings

  /** The part is a field with this key, whose value reads as this tree. */
  ghost predicate PartIsField(part: string, key: string, tree: Node, n: nat) {
    exists rest :: SplitKeyValue(TrimSpace(part), n) == Ok((key, rest)) && ParseScalar(rest, n) == Ok(tree)
  }

  /** One by one, the parts read as fields. */
  ghost predicate FieldsRead(parts: seq<string>, keys: seq<string>, trees: seq<Node>, n: nat) {
    && |keys| == |trees| == |parts|
    && forall i | 0 <= i < |parts| :: PartIsField(parts[i], keys[i], trees[i], n)
  }

  /** Fields put into a map one after the other. */
  function Put(m: map<string, Node>, keys: seq<string>, trees: seq<Node>): map<string, Node>
    requires |keys| == |trees|
    decreases |keys|
  {
    if keys == [] then m else Put(m[keys[0] := trees[0]], keys[1..], trees[1..])
  }

  /** Of several fields with one key the last counts. */
  lemma {:induction false} LastWins(m: map<string, Node>, keys: seq<string>, trees: seq<Node>, k: string)
    requires |keys| == |trees|
    ensures k in Put(m, keys, trees) <==> k in m || k in keys
    ensures k !in keys && k in m ==> Put(m, keys, trees)[k] == m[k]
    ensures forall i | 0 <= i < |keys| && keys[i] == k && k !in keys[i + 1..] :: Put(m, keys, trees)[k] == trees[i]
    decreases |keys|
  {
    if keys != [] {
      LastWins(m[keys[0] := trees[0]], keys[1..], trees[1..], k);
      assert keys == [keys[0]] + keys[1..];
      forall i | 0 <= i < |keys| && keys[i] == k && k !in keys[i + 1..] ensures Put(m, keys, trees)[k] == trees[i] {
        if i > 0 {
          assert keys[1..][i - 1] == k && keys[1..][i..] == keys[i + 1..];
        }
      }
    }
  }

  lemma OneMoreField(parts: seq<string>, key: string, rest: string, tree: Node, keys: seq<string>, trees: seq<Node>,
                     n: nat)
    requires parts != [] && TrimSpace(parts[0]) != "" && FieldsRead(Kept(parts[1..]), keys, trees, n)
    requires SplitKeyValue(TrimSpace(parts[0]), n) == Ok((key, rest)) && ParseScalar(rest, n) == Ok(tree)
    ensures FieldsRead(Kept(parts), [key] + keys, [tree] + trees, n)
  {
    assert PartIsField(parts[0], key, tree, n);
    forall i | 0 <= i < |Kept(parts)| ensures PartIsField(Kept(parts)[i], ([key] + keys)[i], ([tree] + trees)[i], n) {
      if i > 0 {
        assert PartIsField(Kept(parts[1..])[i - 1], keys[i - 1], trees[i - 1], n);
      }
    }
  }

  /** What has been read of the parts, if all of them could be. */
  lemma {:induction false} FlowMapFields(parts: seq<string>, n: nat, m: map<string, Node>)
      returns (keys: seq<string>, trees: seq<Node>)
    requires ParseFlowMap(parts, n, m).Ok?
    ensures FieldsRead(Kept(parts), keys, trees, n) && ParseFlowMap(parts, n, m) == Ok(Map(Put(m, keys, trees)))
    decreases |parts|
  {
    if parts == [] {
      keys, trees := [], [];
    } else if TrimSpace(parts[0]) == "" {
      FlowMapSkips(parts, n, m);
      keys, trees := FlowMapFields(parts[1..], n, m);
    } else {
      var (key, rest) := SplitKeyValue(TrimSpace(parts[0]), n).value;
      FlowMapStep(parts, n, m, TrimSpace(parts[0]), key, rest);
      var tree := ParseScalar(rest, n).value;
      var moreKeys, moreTrees := FlowMapFields(parts[1..], n, m[key := tree]);
      keys, trees := [key] + moreKeys, [tree] + moreTrees;
      OneMoreField(parts, key, rest, tree, moreKeys, moreTrees, n);
      assert keys[1..] == moreKeys && trees[1..] == moreTrees;
    }
  }

  lemma {:induction false} FlowMapOf(parts: seq<string>, n: nat, m: map<string, Node>,
                                     keys: seq<string>, trees: seq<Node>)
    requires FieldsRead(Kept(parts), keys, trees, n)
    ensures ParseFlowMap(parts, n, m) == Ok(Map(Put(m, keys, trees)))
    decreases |parts|
  {
    if parts == [] {
    } else if TrimSpace(parts[0]) == "" {
      FlowMapSkips(parts, n, m);
      FlowMapOf(parts[1..], n, m, keys, trees);
    } else {
      assert Kept(parts)[0] == parts[0] && Kept(parts)[1..] == Kept(parts[1..]);
      assert PartIsField(parts[0], keys[0], trees[0], n);
      var rest :| SplitKeyValue(TrimSpace(parts[0]), n) == Ok((keys[0], rest)) && ParseScalar(rest, n) == Ok(trees[0]);
      FlowMapStep(parts, n, m, TrimSpace(parts[0]), keys[0], rest);
      FlowMapOf(parts[1..], n, m[keys[0] := trees[0]], keys[1..], trees[1..]);
    }
  }

  /** Some fields that the parts read as make up the map. */
  ghost predicate MakesUp(parts: seq<string>, m: map<string, Node>, n: nat) {
    exists keys, trees :: FieldsRead(Kept(parts), keys, trees, n) && Put(map[], keys, trees) == m
  }

  lemma FlowMapExactly(parts: seq<string>, n: nat, m: map<string, Node>)
    ensures ParseFlowMap(parts, n, map[]) == Ok(Map(m)) <==> MakesUp(parts, m, n)
  {
    if ParseFlowMap(parts, n, map[]) == Ok(Map(m)) {
      var keys, trees := FlowMapFields(parts, n, map[]);
    }
    forall keys, trees | FieldsRead(Kept(parts), keys, trees, n)
      ensures ParseFlowMap(parts, n, map[]) == Ok(Map(Put(map[], keys, trees)))
    {
      FlowMapOf(parts, n, map[], keys, trees);
    }
  }

  // ---------------------------------------------------------------- all values of a line

  /** The parts, the blank ones left out, read as what the collection holds. */
  ghost predicate PartsMake(parts: seq<string>, tree: Node, n: nat) {
    if tree.Map? then MakesUp(parts, tree.entries, n)
    else tree.Seq? && PartsRead(Kept(parts), tree.items, n)
  }

  /** Some splitting of the text on its unquoted commas reads as the collection. */
  ghost predicate CollectionReads(body: string, tree: Node, n: nat) {
    exists parts :: IsSplit(parts) && JoinCommas(parts) == body && PartsMake(parts, tree, n)
  }

  /** What the first character decides. */
  ghost predicate ValueIs(s: string, tree: Node, n: nat)
    requires s != ""
  {
    if s[0] == '{' then
      tree.Map? && exists body :: EnclosesLast(s, '{', body, '}') && CollectionReads(body, tree, n)
    else if s[0] == '[' then
      tree.Seq? && exists body :: EnclosesLast(s, '[', body, ']') && CollectionReads(body, tree, n)
    else if s[0] in {'&', '*', '|', '>'} then false
    else if s[0] in {'"', '\''} then tree.Str? && s[0] !in tree.text && Encloses(s, s[0], tree.text, s[0])
    else tree.Str? && IsPlain(s, tree.text)
  }

  lemma MapBody(body: string, n: nat, tree: Node)
    ensures ParseFlowMap(SplitFlowParts(body), n, map[]) == Ok(tree) <==> tree.Map? && CollectionReads(body, tree, n)
  {
    var parts := SplitFlowParts(body);
    SplitSpec(body, parts);
    FlowMapIsMap(parts, n, map[]);
    if tree.Map? {
      FlowMapExactly(parts, n, tree.entries);
    }
    forall p | IsSplit(p) && JoinCommas(p) == body ensures p == parts {
      SplitSpec(body, p);
    }
  }

  lemma SeqBody(body: string, n: nat, tree: Node)
    ensures ParseFlowSeq(SplitFlowParts(body), n, []) == Ok(tree) <==> tree.Seq? && CollectionReads(body, tree, n)
  {
    var parts := SplitFlowParts(body);
    SplitSpec(body, parts);
    if ParseFlowSeq(parts, n, []).Ok? {
      var items := FlowSeqItems(parts, n, []);
    }
    if tree.Seq? {
      PartsExactly(parts, n, tree.items);
    }
    forall p | IsSplit(p) && JoinCommas(p) == body ensures p == parts {
      SplitSpec(body, p);
    }
  }

  lemma CollectionExactly(s: string, n: nat, tree: Node)
    requires s != "" && (s[0] == '{' || s[0] == '[') && Trimmed(s)
    ensures ParseScalar(s, n) == Ok(tree) <==> ValueIs(s, tree, n)
  {
    TrimSpaceFixes(s);
    var close := if s[0] == '{' then '}' else ']';
    forall body ensures FlowInner(s, s[0], close, n) == Ok(body) <==> EnclosesLast(s, s[0], body, close) {
      FlowInnerExactly(s, s[0], close, n, body);
    }
    var inner := FlowInner(s, s[0], close, n);
    if inner.Ok? {
      MapBody(inner.value, n, tree);
      SeqBody(inner.value, n, tree);
    }
  }

  lemma StringExactly(s: string, n: nat, tree: Node)
    requires s != "" && s[0] != '{' && s[0] != '[' && Trimmed(s)
    ensures ParseScalar(s, n) == Ok(tree) <==> ValueIs(s, tree, n)
  {
    TrimSpaceFixes(s);
    if IsQuote(s[0]) {
      if tree.Str? {
        QuotedExactly(s, n, tree.text);
      }
    } else if tree.Str? {
      PlainExactly(s, tree.text);
    }
  }

  /**
   A text reads as a tree exactly if, without the space around it, it is not empty and is what its first character
   makes it: a flow collection, a quoted string or a plain one. Anchors, aliases and block scalars are refused.
   */
  lemma ScalarExactly(raw: string, n: nat, tree: Node)
    ensures ParseScalar(raw, n) == Ok(tree) <==> exists s :: s != "" && TrimsTo(raw, s) && ValueIs(s, tree, n)
  {
    var s := TrimSpace(raw);
    TrimSpaceTrims(raw);
    TrimSpaceExactly(raw, s);
    forall t | TrimsTo(raw, t) ensures t == s {
      TrimSpaceExactly(raw, t);
    }
    ScalarTrims(raw, n);
    if s != "" {
      if s[0] == '{' || s[0] == '[' {
        CollectionExactly(s, n, tree);
      } else {
        StringExactly(s, n, tree);
      }
    }
  }
}

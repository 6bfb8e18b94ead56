/**
 When reading a scalar panics. The program indexes the first byte of a trimmed scalar; a blank scalar
 has none, and the parts of a flow collection are scalars in their turn.
 */
module YamlPanic {
  import opened Strings
  import opened Yaml
  import opened YamlLayout
  import opened YamlSteps

  /** The scalar in one part of a flow body: the value of a field, or the whole part in a sequence. */
  function ScalarOf(part: string, fields: bool): (r: Outcome<string>)
    ensures r.Ok? ==> |r.value| <= |part|
  {
    var t := TrimSpace(part);
    if !fields then Ok(t)
    else
      var kv :- SplitKeyValue(t, 0);
      Ok(kv.1)
  }

  predicate IsSkipped(part: string) {
    TrimSpace(part) == ""
  }

  /** The part is blank, or its scalar can be read. */
  predicate Readable(part: string, fields: bool) {
    IsSkipped(part) || (ScalarOf(part, fields).Ok? && ParseScalar(ScalarOf(part, fields).value, 0).Ok?)
  }

  /** The parts before part i are blank or can be read. */
  ghost predicate AllReadable(parts: seq<string>, i: nat, fields: bool)
    requires i <= |parts|
  {
    forall j | 0 <= j < i :: Readable(parts[j], fields)
  }

  lemma {:induction false} PartFits(parts: seq<string>, i: nat)
    requires i < |parts|
    ensures |parts[i]| < Size(parts)
  {
    if i > 0 {
      PartFits(parts[1..], i - 1);
    }
  }

  /** The first part of a flow body that cannot be read holds a scalar that panics. */
  ghost predicate BodyPanics(parts: seq<string>, fields: bool)
    decreases Size(parts), 0
  {
    exists i | 0 <= i < |parts| ::
      && AllReadable(parts, i, fields)
      && !IsSkipped(parts[i])
      && ScalarOf(parts[i], fields).Ok?
      && (PartFits(parts, i); Panics(ScalarOf(parts[i], fields).value))
  }

  /** The text between the brackets of a flow collection, if it is well bracketed. */
  function BodyOf(s: string): Outcome<string>
    requires s != ""
  {
    if s[0] == '{' then FlowInner(s, '{', '}', 0) else FlowInner(s, '[', ']', 0)
  }

  /** A scalar panics when it is blank, or a flow collection with a body that panics. */
  ghost predicate Panics(raw: string)
    decreases |raw|, 2
  {
    var s := TrimSpace(raw);
    s == "" || (s[0] in {'{', '['} && BodyOf(s).Ok? && BodyPanics(SplitFlowParts(BodyOf(s).value), s[0] == '{'))
  }

  // ---------------------------------------------------------------- the exact condition

  /** Part i is where reading the body panics. */
  ghost predicate PanicsAt(parts: seq<string>, i: nat, fields: bool)
    requires i < |parts|
  {
    && AllReadable(parts, i, fields)
    && !IsSkipped(parts[i])
    && ScalarOf(parts[i], fields).Ok?
    && Panics(ScalarOf(parts[i], fields).value)
  }

  lemma WhereItPanics(parts: seq<string>, fields: bool) returns (i: nat)
    requires BodyPanics(parts, fields)
    ensures i < |parts| && PanicsAt(parts, i, fields)
  {
    i :| 0 <= i < |parts| && AllReadable(parts, i, fields) && PanicsAt(parts, i, fields);
  }

  lemma PanicsThere(parts: seq<string>, i: nat, fields: bool)
    requires i < |parts| && PanicsAt(parts, i, fields)
    ensures BodyPanics(parts, fields)
  {
    assert AllReadable(parts, i, fields);
  }

  lemma LaterPart(parts: seq<string>, i: nat, fields: bool)
    requires 0 < i < |parts|
    ensures PanicsAt(parts, i, fields) <==> Readable(parts[0], fields) && PanicsAt(parts[1..], i - 1, fields)
  {
    var tail := parts[1..];
    if Readable(parts[0], fields) && AllReadable(tail, i - 1, fields) {
      forall j | 0 <= j < i ensures Readable(parts[j], fields) {
        if j > 0 {
          assert Readable(tail[j - 1], fields);
        }
      }
    }
    if AllReadable(parts, i, fields) {
      forall j | 0 <= j < i - 1 ensures Readable(tail[j], fields) {
        assert Readable(parts[j + 1], fields);
      }
    }
  }

  lemma OnePartLater(parts: seq<string>, i: nat, fields: bool)
    requires i + 1 < |parts| && Readable(parts[0], fields) && PanicsAt(parts[1..], i, fields)
    ensures PanicsAt(parts, i + 1, fields)
  {
    LaterPart(parts, i + 1, fields);
  }

  lemma PanicIsHereOrLater(parts: seq<string>, fields: bool)
    requires parts != [] && BodyPanics(parts, fields)
    ensures PanicsAt(parts, 0, fields) || (Readable(parts[0], fields) && BodyPanics(parts[1..], fields))
  {
    var i := WhereItPanics(parts, fields);
    if i > 0 {
      LaterPart(parts, i, fields);
      PanicsThere(parts[1..], i - 1, fields);
    }
  }

  lemma LaterPanicCounts(parts: seq<string>, fields: bool)
    requires parts != [] && Readable(parts[0], fields) && BodyPanics(parts[1..], fields)
    ensures BodyPanics(parts, fields)
  {
    var i := WhereItPanics(parts[1..], fields);
    OnePartLater(parts, i, fields);
    PanicsThere(parts, i + 1, fields);
  }

  /** A body panics at its first part, or past a readable first part. */
  lemma FirstPart(parts: seq<string>, fields: bool, here: bool, later: bool)
    requires parts != []
    requires here == PanicsAt(parts, 0, fields)
    requires later == (Readable(parts[0], fields) && BodyPanics(parts[1..], fields))
    ensures BodyPanics(parts, fields) <==> here || later
  {
    if here {
      PanicsThere(parts, 0, fields);
    }
    if later {
      LaterPanicCounts(parts, fields);
    }
    if BodyPanics(parts, fields) {
      PanicIsHereOrLater(parts, fields);
    }
  }

  lemma SplitIgnoresLine(s: string, n: nat)
    ensures SplitKeyValue(s, n).Ok? <==> SplitKeyValue(s, 0).Ok?
    ensures SplitKeyValue(s, n) != Crash && SplitKeyValue(s, 0) != Crash
    ensures SplitKeyValue(s, n).Ok? ==> SplitKeyValue(s, n) == SplitKeyValue(s, 0)
  {
  }

  lemma {:induction false} FieldsPanicExactly(parts: seq<string>, n: nat, m: map<string, Node>)
    ensures ParseFlowMap(parts, n, m) == Crash <==> BodyPanics(parts, true)
    decreases Size(parts), 0
  {
    if parts != [] {
      FirstPart(parts, true, PanicsAt(parts, 0, true), Readable(parts[0], true) && BodyPanics(parts[1..], true));
      var part := TrimSpace(parts[0]);
      if part == "" {
        FlowMapSkips(parts, n, m);
        FieldsPanicExactly(parts[1..], n, m);
      } else {
        SplitIgnoresLine(part, n);
        var kv := SplitKeyValue(part, n);
        if !kv.Ok? {
          FlowMapFails(parts, n, m, part);
        } else {
          FieldPanicsExactly(parts, n, m, part, kv.value.0, kv.value.1);
        }
      }
    }
  }

  lemma {:induction false} FieldPanicsExactly(
      parts: seq<string>, n: nat, m: map<string, Node>, part: string, key: string, rest: string)
    requires parts != [] && TrimSpace(parts[0]) == part != ""
    requires SplitKeyValue(part, n) == Ok((key, rest)) && ScalarOf(parts[0], true) == Ok(rest)
    ensures ParseFlowMap(parts, n, m) == Crash <==> BodyPanics(parts, true)
    decreases Size(parts), 0, 0
  {
    FirstPart(parts, true, PanicsAt(parts, 0, true), Readable(parts[0], true) && BodyPanics(parts[1..], true));
    FlowMapStep(parts, n, m, part, key, rest);
    ScalarPanicsExactly(rest, n);
    ScalarIgnoresLine(rest, n, 0);
    var val := ParseScalar(rest, n);
    if val.Ok? {
      FieldsPanicExactly(parts[1..], n, m[key := val.value]);
    }
  }

  lemma {:induction false} ItemsPanicExactly(parts: seq<string>, n: nat, acc: seq<Node>)
    ensures ParseFlowSeq(parts, n, acc) == Crash <==> BodyPanics(parts, false)
    decreases Size(parts), 0
  {
    if parts != [] {
      FirstPart(parts, false, PanicsAt(parts, 0, false), Readable(parts[0], false) && BodyPanics(parts[1..], false));
      var part := TrimSpace(parts[0]);
      if part == "" {
        ItemsPanicExactly(parts[1..], n, acc);
      } else {
        ScalarPanicsExactly(part, n);
        ScalarIgnoresLine(part, n, 0);
        var val := ParseScalar(part, n);
        if val.Ok? {
          ItemsPanicExactly(parts[1..], n, acc + [val.value]);
        }
      }
    }
  }

  /**
   Reading a scalar panics exactly when the text is blank, or when it is a well-bracketed flow collection
   whose first unreadable part holds a scalar that panics.
   */
  lemma {:induction false} ScalarPanicsExactly(raw: string, n: nat)
    ensures ParseScalar(raw, n) == Crash <==> Panics(raw)
    decreases |raw|, 1
  {
    var s := TrimSpace(raw);
    if s != "" && s[0] == '{' {
      var inner := FlowInner(s, '{', '}', n);
      if inner.Ok? {
        FieldsPanicExactly(SplitFlowParts(inner.value), n, map[]);
      }
    } else if s != "" && s[0] == '[' {
      var inner := FlowInner(s, '[', ']', n);
      if inner.Ok? {
        ItemsPanicExactly(SplitFlowParts(inner.value), n, []);
      }
    }
  }
}

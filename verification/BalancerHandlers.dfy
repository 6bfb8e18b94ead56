/**
 What becomes of one connection handler: it reads its whole copy of the pool, dials its candidates one after
 the other, none left out, and leaves nothing open behind.
 */
module BalancerHandlers {
  import opened Balancer
  import opened BalancerConns
  import opened BalancerDrain
  import opened BalancerRefs
  import opened Options

  /** The candidates are the backends that were read healthy, or in best-effort mode the whole copy as it is. */
  ghost predicate CandidatesOk(x: Handler) {
    && (forall b | b in x.seen :: b in x.readAt || b in x.readDown)
    && if x.bestEffort then x.readAt == map[] && x.candidates == x.seen
       else forall b :: b in x.candidates <==> b in x.readAt
  }

  /** It has reached this backend after failed dials at all candidates before it. */
  ghost predicate ReachedInOrder(x: Handler, to: BackendId) {
    CandidatesOk(x) && x.failed + [to] <= x.candidates
  }

  predicate Unconnected(x: Handler) {
    x.registeredAt == 0
  }

  ghost predicate ReadsSoFar(x: Handler, i: nat, healthy: seq<BackendId>) {
    && i <= |x.seen|
    && (forall b :: b in healthy <==> b in x.readAt)
    && (forall j | 0 <= j < i :: x.seen[j] in x.readAt || x.seen[j] in x.readDown)
  }

  ghost predicate TriesOk(x: Handler) {
    match x.pc
    case Fresh => Unconnected(x) && x.failed == [] && x.readAt == map[]
    case Reading(i, healthy) => Unconnected(x) && x.failed == [] && ReadsSoFar(x, i, healthy)
    case Dialing(order, k) =>
      Unconnected(x) && CandidatesOk(x) && x.candidates == order && k <= |order| && x.failed == order[..k]
    case Counted(to) => Unconnected(x) && ReachedInOrder(x, to)
    case Piping(to) => !Unconnected(x) && ReachedInOrder(x, to)
    case Released(to) => !Unconnected(x) && ReachedInOrder(x, to)
    case Done => Unconnected(x) ==> CandidatesOk(x) && x.failed == x.candidates
  }

  predicate ClosedOk(x: Handler, h: HandlerId, closed: set<HandlerId>) {
    x.pc.Done? && !Unconnected(x) ==> h in closed
  }

  ghost predicate HandlersOk(s: State) {
    s.clock > 0 && forall h :: TriesOk(H(s.handlers, h)) && ClosedOk(H(s.handlers, h), h, s.closed)
  }

  // ---------------------------------------------------------------- one handler

  lemma ReadTries(s: State, x: Handler)
    requires TriesOk(x) && x.pc.Reading? && x.pc.i < |x.seen|
    ensures TriesOk(QuietNext(s, x, ReadHealth))
  {
    var y, b := QuietNext(s, x, ReadHealth), x.seen[x.pc.i];
    forall j | 0 <= j < y.pc.i ensures y.seen[j] in y.readAt || y.seen[j] in y.readDown {
      assert j < x.pc.i ==> x.seen[j] in x.readAt || x.seen[j] in x.readDown;
    }
  }

  lemma ChooseTries(s: State, h: HandlerId, order: seq<BackendId>)
    requires TriesOk(H(s.handlers, h)) && HandlerCan(s, h, Choose(order))
    ensures TriesOk(QuietNext(s, H(s.handlers, h), Choose(order)))
  {
    var x := H(s.handlers, h);
    if x.pc.healthy != [] {
      forall b ensures b in order <==> b in x.readAt {
        assert b in multiset(order) <==> b in multiset(x.pc.healthy);
      }
    } else {
      assert forall b :: b !in x.readAt;
    }
  }

  lemma DialTries(s: State, x: Handler)
    requires TriesOk(x) && x.pc.Dialing? && x.pc.k < |x.pc.order|
    ensures TriesOk(QuietNext(s, x, DialFails))
    ensures ReachedInOrder(x, x.pc.order[x.pc.k])
  {
    var order, k := x.pc.order, x.pc.k;
    assert order[..k] + [order[k]] == order[..k + 1];
  }

  /** Track and Close change nothing of a handler but its position and the time of its registration. */
  lemma LoudMoves(s: State, h: HandlerId, act: HandlerAct)
    requires HandlerCan(s, h, act) && !Quiet(act)
    ensures var x, y := H(s.handlers, h), H(HandlerStep(s, h, act).handlers, h);
      && y == x.(pc := y.pc, registeredAt := y.registeredAt)
      && y.registeredAt == (if act.Register? then s.clock else x.registeredAt)
      && (act.DialSucceeds? ==> y.pc == Counted(x.pc.order[x.pc.k]))
      && (act.Register? ==> y.pc == Piping(x.pc.to))
      && (act.Unregister? ==> y.pc == Released(x.pc.to))
  {
  }

  lemma LoudTries(s: State, h: HandlerId, act: HandlerAct)
    requires HandlerCan(s, h, act) && !Quiet(act) && TriesOk(H(s.handlers, h)) && s.clock > 0
    ensures TriesOk(H(HandlerStep(s, h, act).handlers, h))
  {
    LoudMoves(s, h, act);
    if act.DialSucceeds? {
      DialTries(s, H(s.handlers, h));
    }
  }

  lemma QuietTries(s: State, h: HandlerId, act: HandlerAct)
    requires HandlerCan(s, h, act) && Quiet(act) && TriesOk(H(s.handlers, h))
    ensures TriesOk(QuietNext(s, H(s.handlers, h), act))
  {
    var x := H(s.handlers, h);
    match act
    case ReadHealth => ReadTries(s, x);
    case Choose(order) => ChooseTries(s, h, order);
    case DialFails => DialTries(s, x);
    case GiveUp => assert x.failed == x.pc.order;
    case _ =>
  }

  lemma OwnTries(s: State, h: HandlerId, act: HandlerAct)
    requires HandlerCan(s, h, act) && TriesOk(H(s.handlers, h)) && s.clock > 0
    ensures TriesOk(H(HandlerStep(s, h, act).handlers, h))
  {
    if Quiet(act) {
      QuietTries(s, h, act);
    } else {
      LoudTries(s, h, act);
    }
  }

  lemma OwnCloses(s: State, h: HandlerId, act: HandlerAct)
    requires HandlerCan(s, h, act) && TriesOk(H(s.handlers, h))
    ensures ClosedOk(H(HandlerStep(s, h, act).handlers, h), h, HandlerStep(s, h, act).closed)
  {
  }

  // ---------------------------------------------------------------- every run

  lemma HandlersStep(c: Config, s: State, a: Action)
    requires Refs(s) && Inv(s) && HandlersOk(s) && Can(s, a)
    ensures HandlersOk(Step(c, s, a))
  {
    var r := Step(c, s, a);
    ActEvolves(c, s, a);
    forall h ensures TriesOk(H(r.handlers, h)) && ClosedOk(H(r.handlers, h), h, r.closed) {
      assert TriesOk(H(s.handlers, h)) && ClosedOk(H(s.handlers, h), h, s.closed);
      if a.OfHandler? && a.h == h {
        OwnTries(s, h, a.hact);
        OwnCloses(s, h, a.hact);
      } else {
        OtherHandler(c, s, a, h);
      }
    }
  }

  lemma {:induction false} HandlersReached(c: Config, addrs: seq<string>, run: seq<Action>, s: State)
    requires Run(c, addrs, run) == Some(s)
    ensures HandlersOk(s)
    decreases |run|
  {
    if run != [] {
      var before := Run(c, addrs, run[..|run| - 1]).value;
      HandlersReached(c, addrs, run[..|run| - 1], before);
      InvReached(c, addrs, run[..|run| - 1], before);
      HandlersStep(c, before, run[|run| - 1]);
    }
  }

  /**
   A handler gives its client up only after every backend of its copy was read, and a dial failed at each
   that was read healthy; in best-effort mode at each of the copy, in its order.
   */
  lemma GivesUpAfterAll(c: Config, addrs: seq<string>, run: seq<Action>, s: State, h: HandlerId)
    requires Run(c, addrs, run) == Some(s) && H(s.handlers, h).pc.Done? && H(s.handlers, h).registeredAt == 0
    ensures var x := H(s.handlers, h);
      && (forall b | b in x.seen :: b in x.readAt || b in x.readDown)
      && (if x.bestEffort then x.readAt == map[] && x.failed == x.seen
          else forall b :: b in x.failed <==> b in x.readAt)
  {
    HandlersReached(c, addrs, run, s);
    assert TriesOk(H(s.handlers, h));
  }

  /** A connection is to the first candidate that answered: dials had failed at exactly those before it. */
  lemma ConnectsToFirst(c: Config, addrs: seq<string>, run: seq<Action>, s: State, h: HandlerId, b: BackendId)
    requires Run(c, addrs, run) == Some(s) && h in B(s.backends, b).conns
    ensures var x := H(s.handlers, h);
      && x.failed + [b] <= x.candidates
      && (if x.bestEffort then x.candidates == x.seen else forall y :: y in x.candidates <==> y in x.readAt)
      && (forall y | y in x.seen :: y in x.readAt || y in x.readDown)
  {
    HandlersReached(c, addrs, run, s);
    InvReached(c, addrs, run, s);
    assert H(s.handlers, h).pc == Piping(b) && TriesOk(H(s.handlers, h));
  }

  /** A handler that has ended leaves its connection closed and in no set. */
  lemma EndsClosed(c: Config, addrs: seq<string>, run: seq<Action>, s: State, h: HandlerId, b: BackendId)
    requires Run(c, addrs, run) == Some(s) && H(s.handlers, h).pc.Done?
    ensures h !in B(s.backends, b).conns
    ensures H(s.handlers, h).registeredAt > 0 ==> h in s.closed
  {
    HandlersReached(c, addrs, run, s);
    InvReached(c, addrs, run, s);
    assert h in B(s.backends, b).conns <==> H(s.handlers, h).pc == Piping(b) && h !in s.released;
    assert ClosedOk(H(s.handlers, h), h, s.closed);
  }

  // ---------------------------------------------------------------- what was read was so

  lemma OwnReads(s: State, h: HandlerId, act: HandlerAct, b: BackendId)
    requires HandlerCan(s, h, act)
    ensures var x, y := H(s.handlers, h), H(HandlerStep(s, h, act).handlers, h);
      && (b in y.readDown && b !in x.readDown ==> act.ReadHealth? && !B(s.backends, b).health.healthy)
      && (b in y.readAt ==>
            (b in x.readAt && y.readAt[b] == x.readAt[b])
            || (act.ReadHealth? && B(s.backends, b).health.healthy && y.readAt[b] == s.clock))
  {
  }

  /** Whatever a handler has noted as down was unhealthy in the state it read it in. */
  lemma {:induction false} UnhealthyWhenRead(
      c: Config, addrs: seq<string>, run: seq<Action>, s: State, h: HandlerId, b: BackendId) returns (i: nat)
    requires Run(c, addrs, run) == Some(s) && b in H(s.handlers, h).readDown
    ensures i < |run| && run[i] == OfHandler(h, ReadHealth) && Before(c, addrs, run, i).Some?
    ensures !B(Before(c, addrs, run, i).value.backends, b).health.healthy
    decreases |run|
  {
    var init, a := run[..|run| - 1], run[|run| - 1];
    var before := Run(c, addrs, init).value;
    if b in H(before.handlers, h).readDown {
      i := UnhealthyWhenRead(c, addrs, init, before, h, b);
      assert run[..i] == init[..i];
    } else {
      i := |run| - 1;
      if a.OfHandler? && a.h == h {
        OwnReads(before, h, a.hact, b);
      } else {
        OtherHandler(c, before, a, h);
      }
    }
  }

  /** And whatever it has noted as healthy was healthy at the time it noted. */
  lemma {:induction false} HealthyWhenRead(
      c: Config, addrs: seq<string>, run: seq<Action>, s: State, h: HandlerId, b: BackendId) returns (i: nat)
    requires Run(c, addrs, run) == Some(s) && b in H(s.handlers, h).readAt
    ensures i < |run| && run[i] == OfHandler(h, ReadHealth) && Before(c, addrs, run, i).Some?
    ensures var r := Before(c, addrs, run, i).value;
      B(r.backends, b).health.healthy && r.clock == H(s.handlers, h).readAt[b]
    decreases |run|
  {
    var init, a := run[..|run| - 1], run[|run| - 1];
    var before := Run(c, addrs, init).value;
    if b in H(before.handlers, h).readAt && H(before.handlers, h).readAt[b] == H(s.handlers, h).readAt[b] {
      i := HealthyWhenRead(c, addrs, init, before, h, b);
      assert run[..i] == init[..i];
    } else {
      i := |run| - 1;
      if a.OfHandler? && a.h == h {
        OwnReads(before, h, a.hact, b);
      } else {
        OtherHandler(c, before, a, h);
      }
    }
  }
}

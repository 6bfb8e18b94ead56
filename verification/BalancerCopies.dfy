/**
 Every thread works on a copy, and the copy is what it copied: the reconcile's and the handler's are the pool of
 the state in which they were taken, so a reconcile brings the monitors in line with the pool itself.
 */
module BalancerCopies {
  import opened Balancer
  import opened BalancerDrain
  import opened BalancerMonitors
  import opened Options

  // ---------------------------------------------------------------- the checker's copy

  lemma CheckerStays(c: Config, s: State, a: Action)
    requires Can(s, a) && Act(c, s, a).checker.Reconciling? && a != OfChecker(CopyForReconcile)
    ensures s.checker == Act(c, s, a).checker
  {
  }

  /** Since action number i the checker has copied nothing anew. */
  ghost predicate CopiedAt(run: seq<Action>, i: nat) {
    && i < |run| && run[i] == OfChecker(CopyForReconcile)
    && forall j | i < j < |run| :: run[j] != OfChecker(CopyForReconcile)
  }

  /** What a pending reconcile works on is the pool as it was when the checker last copied it. */
  lemma {:induction false} CopyIsPool(c: Config, addrs: seq<string>, run: seq<Action>, s: State) returns (i: nat)
    requires Run(c, addrs, run) == Some(s) && s.checker.Reconciling?
    ensures CopiedAt(run, i) && Before(c, addrs, run, i).Some?
    ensures s.checker.current == set b | b in Before(c, addrs, run, i).value.pool
    decreases |run|
  {
    var init, a := run[..|run| - 1], run[|run| - 1];
    var before := Run(c, addrs, init).value;
    if a == OfChecker(CopyForReconcile) {
      i := |run| - 1;
    } else {
      CheckerStays(c, before, a);
      i := CopyIsPool(c, addrs, init, before);
      assert run[..i] == init[..i];
    }
  }

  /** The pool changes by the poller's hand only. */
  lemma {:induction false} PoolStays(c: Config, addrs: seq<string>, run: seq<Action>, i: nat, s: State)
    requires Run(c, addrs, run) == Some(s) && i < |run| && Before(c, addrs, run, i).Some?
    requires forall j | i <= j < |run| :: !(run[j].OfPoller? && run[j].pact.Set?)
    ensures s.pool == Before(c, addrs, run, i).value.pool
    decreases |run|
  {
    var init, a := run[..|run| - 1], run[|run| - 1];
    var before := Run(c, addrs, init).value;
    SamePool(c, before, a);
    if i < |init| {
      assert run[..i] == init[..i];
      PoolStays(c, addrs, init, i, before);
    }
  }

  /**
   If discovery has not changed the pool since the checker copied it, the reconcile leaves monitors for exactly
   the backends of the pool, none of them cancelled unless the checker is, and every other monitor cancelled.
   */
  lemma ReconcileFollowsPool(c: Config, addrs: seq<string>, run: seq<Action>, s: State, i: nat)
    requires Run(c, addrs, run) == Some(s) && s.checker.Reconciling? && CopiedAt(run, i)
    requires forall j | i <= j < |run| :: !(run[j].OfPoller? && run[j].pact.Set?)
    ensures var s' := CheckerStep(s, Reconcile);
      && (forall b :: b in s'.monitors <==> b in s.pool)
      && (forall m | m in s'.threads :: s'.threads[m].cancelled <==> s.cancelled || m.backend !in s.pool)
      && (forall b | b in s.pool :: s'.monitors[b] in s'.threads && s'.monitors[b].backend == b)
  {
    var k := CopyIsPool(c, addrs, run, s);
    assert k == i;
    PoolStays(c, addrs, run, i, s);
    KeysMatchSnapshot(c, addrs, run, s);
  }

  // ---------------------------------------------------------------- a handler's copy

  lemma OwnCopy(s: State, h: HandlerId, act: HandlerAct)
    requires HandlerCan(s, h, act) && !act.CopyPool?
    ensures !H(s.handlers, h).pc.Fresh?
    ensures H(HandlerStep(s, h, act).handlers, h).seen == H(s.handlers, h).seen
    ensures H(HandlerStep(s, h, act).handlers, h).copiedAt == H(s.handlers, h).copiedAt
  {
  }

  lemma TakesPool(s: State, h: HandlerId)
    requires HandlerCan(s, h, CopyPool)
    ensures var y := H(HandlerStep(s, h, CopyPool).handlers, h); y.seen == s.pool && y.copiedAt == s.clock
  {
  }

  /** What a handler has seen is the pool as it was when the handler copied it. */
  lemma {:induction false} SeenIsPool(c: Config, addrs: seq<string>, run: seq<Action>, s: State, h: HandlerId)
      returns (i: nat)
    requires Run(c, addrs, run) == Some(s) && !H(s.handlers, h).pc.Fresh?
    ensures i < |run| && run[i] == OfHandler(h, CopyPool) && Before(c, addrs, run, i).Some?
    ensures var r := Before(c, addrs, run, i).value;
      H(s.handlers, h).seen == r.pool && H(s.handlers, h).copiedAt == r.clock
    decreases |run|
  {
    var init, a := run[..|run| - 1], run[|run| - 1];
    var before := Run(c, addrs, init).value;
    if a == OfHandler(h, CopyPool) {
      i := |run| - 1;
      TakesPool(before, h);
    } else {
      if a.OfHandler? && a.h == h {
        OwnCopy(before, h, a.hact);
      } else {
        OtherHandler(c, before, a, h);
      }
      i := SeenIsPool(c, addrs, init, before, h);
      assert run[..i] == init[..i];
    }
  }
}

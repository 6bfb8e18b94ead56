/**
 Each instance is drained for its removal at most once, as long as discovery repeats no address in a list.
 What the removal drain adds to Drained is then the size of that one snapshot.
 */
module BalancerOnce {
  import opened Balancer
  import opened BalancerConns
  import opened BalancerCounters
  import opened BalancerDrain
  import opened BalancerMonitors
  import opened BalancerPool
  import opened BalancerRefs
  import opened BalancerSweeps
  import opened Options
  import Pools

  /** The lists that validation lets through. */
  ghost predicate NoRepeats(run: seq<Action>) {
    forall i | 0 <= i < |run| :: run[i].OfPoller? && run[i].pact.Set? ==> Pools.Distinct(run[i].pact.addrs)
  }

  /** The instances whose removal drain has returned. */
  ghost function Removals(c: Config, addrs: seq<string>, run: seq<Action>): set<BackendId>
    requires Run(c, addrs, run).Some?
  {
    if run == [] then {}
    else
      var init, a := run[..|run| - 1], run[|run| - 1];
      var before := Run(c, addrs, init).value;
      Removals(c, addrs, init) + if a == OfPoller(SweepReturns) then {before.poller.drain.of} else {}
  }

  /** What the poller still has to do holds nothing twice and nothing that is done. */
  ghost predicate Ahead(p: Poller, next: BackendId, finished: set<BackendId>) {
    !p.Idle? ==>
      && Pools.Distinct(p.removed)
      && (forall j | 0 <= j < |p.removed| :: p.removed[j] < next && (p.i <= j ==> p.removed[j] !in finished))
  }

  ghost predicate OnceInv(s: State, finished: set<BackendId>) {
    && Pools.Distinct(s.pool)
    && (forall b | b in finished :: b < s.nextBackend && b !in s.pool)
    && InTurn(s.poller) && Ahead(s.poller, s.nextBackend, finished)
    && (forall b {:trigger B(s.backends, b)} | b !in finished :: B(s.backends, b).pollerDrained == {})
  }

  // ---------------------------------------------------------------- frames

  lemma MonitorKeepsPollerDrained(c: Config, s: State, m: MonitorId, act: MonitorAct, b: BackendId)
    requires MonitorCan(s, m, act)
    ensures B(MonitorEffect(c, s, m, act).backends, b).pollerDrained == B(s.backends, b).pollerDrained
  {
  }

  lemma PollerKeepsPollerDrained(s: State, act: PollerAct, b: BackendId)
    requires PollerCan(s, act) && !act.Set? && !(act.SweepReturns? && b == s.poller.drain.of)
    ensures B(PollerEffect(s, act).backends, b).pollerDrained == B(s.backends, b).pollerDrained
  {
  }

  lemma PollerDrainedFrame(c: Config, s: State, a: Action, b: BackendId)
    requires Refs(s) && Can(s, a) && !(a == OfPoller(SweepReturns) && b == s.poller.drain.of)
    ensures B(Act(c, s, a).backends, b).pollerDrained == B(s.backends, b).pollerDrained
  {
    match a
    case OfHandler(h, act) => HandlerCount(s, h, act, b);
    case OfMonitor(m, act) => MonitorKeepsPollerDrained(c, s, m, act, b);
    case OfChecker(_) =>
    case OfPoller(act) =>
      if act.Set? {
        SetAddrsFrame(s, act.addrs, b);
      } else {
        PollerKeepsPollerDrained(s, act, b);
      }
  }

  // ---------------------------------------------------------------- a new pool

  lemma NewPoolIsDistinct(s: State, addrs: seq<string>)
    requires Refs(s) && Pools.Distinct(addrs)
    ensures Pools.Distinct(SetAddrs(s, addrs).pool)
  {
    var s' := SetAddrs(s, addrs);
    InstancesAre(s, addrs, s.nextBackend);
    forall i, j | 0 <= i < j < |s'.pool| ensures s'.pool[i] != s'.pool[j] {
      SetAddrsInstalls(s, addrs, i, 0);
      SetAddrsInstalls(s, addrs, j, 0);
    }
  }

  lemma {:induction false} NotKeptIsDistinct(s: State, pool: seq<BackendId>, addrs: seq<string>)
    requires Pools.Distinct(pool)
    ensures Pools.Distinct(NotKept(s, pool, addrs))
    decreases |pool|
  {
    if pool != [] {
      NotKeptIsDistinct(s, pool[1..], addrs);
      NotKeptHas(s, pool[1..], addrs, pool[0]);
      assert pool[0] !in pool[1..];
    }
  }

  lemma SetKeepsOnce(s: State, addrs: seq<string>, finished: set<BackendId>)
    requires Refs(s) && OnceInv(s, finished) && Pools.Distinct(addrs)
    ensures var s' := SetAddrs(s, addrs);
      && Pools.Distinct(s'.pool)
      && (forall b | b in finished :: b < s'.nextBackend && b !in s'.pool)
      && Ahead(s'.poller, s'.nextBackend, finished)
  {
    var s' := SetAddrs(s, addrs);
    NewPoolIsDistinct(s, addrs);
    NotKeptIsDistinct(s, s.pool, addrs);
    forall b | b in finished ensures b !in s'.pool {
      PoolOnlyGains(s, addrs, b);
    }
    var removed := s'.poller.removed;
    forall j | 0 <= j < |removed| ensures removed[j] < s.nextBackend && removed[j] !in finished {
      NotKeptHas(s, s.pool, addrs, removed[j]);
    }
  }

  // ---------------------------------------------------------------- every step

  lemma SweptOnce(s: State, finished: set<BackendId>)
    requires OnceInv(s, finished) && PollerCan(s, SweepReturns)
    ensures s.poller.drain.of !in finished && s.poller.drain.of < s.nextBackend
    ensures Ahead(PollerNext(s, SweepReturns), s.nextBackend, finished + {s.poller.drain.of})
  {
    var p := s.poller;
    assert p.drain.of == p.removed[p.i];
  }

  lemma PollerKeepsAhead(s: State, act: PollerAct, finished: set<BackendId>)
    requires PollerCan(s, act) && !act.Set? && !act.SweepReturns? && Ahead(s.poller, s.nextBackend, finished)
    ensures Ahead(PollerNext(s, act), s.nextBackend, finished)
  {
  }

  lemma AheadStep(c: Config, s: State, a: Action, finished: set<BackendId>)
    requires Refs(s) && OnceInv(s, finished) && Can(s, a)
    requires !(a.OfPoller? && a.pact.Set?) && a != OfPoller(SweepReturns)
    ensures var r := Act(c, s, a);
      r.pool == s.pool && r.nextBackend == s.nextBackend && Ahead(r.poller, r.nextBackend, finished)
  {
    SamePool(c, s, a);
    if a.OfPoller? {
      PollerKeepsAhead(s, a.pact, finished);
    } else {
      PollerUntouched(c, s, a);
    }
  }

  lemma SweepStep(c: Config, s: State, finished: set<BackendId>)
    requires Refs(s) && RemovalsOk(s) && OnceInv(s, finished) && PollerCan(s, SweepReturns)
    ensures OnceInv(Step(c, s, OfPoller(SweepReturns)), finished + {s.poller.drain.of})
  {
    var a, r := OfPoller(SweepReturns), Step(c, s, OfPoller(SweepReturns));
    SweptOnce(s, finished);
    SamePool(c, s, a);
    InTurnStep(c, s, a);
    forall b {:trigger B(r.backends, b)} | b !in finished + {s.poller.drain.of}
      ensures B(r.backends, b).pollerDrained == {}
    {
      PollerDrainedFrame(c, s, a, b);
    }
  }

  lemma OnceStep(c: Config, s: State, a: Action, finished: set<BackendId>)
    requires Refs(s) && OnceInv(s, finished) && Can(s, a) && a != OfPoller(SweepReturns)
    requires a.OfPoller? && a.pact.Set? ==> Pools.Distinct(a.pact.addrs)
    ensures OnceInv(Step(c, s, a), finished)
  {
    var r := Step(c, s, a);
    if a.OfPoller? && a.pact.Set? {
      SetKeepsOnce(s, a.pact.addrs, finished);
    } else {
      AheadStep(c, s, a, finished);
    }
    InTurnStep(c, s, a);
    forall b {:trigger B(r.backends, b)} | b !in finished ensures B(r.backends, b).pollerDrained == {} {
      PollerDrainedFrame(c, s, a, b);
    }
  }

  lemma StartOnce(addrs: seq<string>)
    ensures OnceInv(Start(addrs), {})
  {
  }

  lemma {:induction false} OnceReached(c: Config, addrs: seq<string>, run: seq<Action>, s: State)
    requires Run(c, addrs, run) == Some(s) && NoRepeats(run)
    ensures OnceInv(s, Removals(c, addrs, run))
    decreases |run|
  {
    if run == [] {
      StartOnce(addrs);
    } else {
      var init, a := run[..|run| - 1], run[|run| - 1];
      var before := Run(c, addrs, init).value;
      OnceReached(c, addrs, init, before);
      InvReached(c, addrs, init, before);
      ProvenanceReached(c, addrs, init, before);
      if a == OfPoller(SweepReturns) {
        SweepStep(c, before, Removals(c, addrs, init));
      } else {
        OnceStep(c, before, a, Removals(c, addrs, init));
        assert Removals(c, addrs, run) == Removals(c, addrs, init);
      }
    }
  }

  /**
   When a removal drain returns, no earlier one has returned for the same instance; what the poller has
   counted for the instance is from then on the snapshot of this one drain.
   */
  lemma RemovedOnlyOnce(c: Config, addrs: seq<string>, run: seq<Action>, s: State)
    requires Run(c, addrs, run) == Some(s) && NoRepeats(run) && PollerCan(s, SweepReturns)
    ensures var d := s.poller.drain;
      && d.of !in Removals(c, addrs, run)
      && B(Step(c, s, OfPoller(SweepReturns)).backends, d.of).pollerDrained == d.snapshot
  {
    OnceReached(c, addrs, run, s);
    SweptOnce(s, Removals(c, addrs, run));
  }
}

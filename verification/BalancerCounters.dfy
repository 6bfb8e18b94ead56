/**
 The Drained counter against ConnsTotal. Drains of one kind have disjoint snapshots, so a connection is
 counted at most twice: once by a monitor's drain and once by a removal drain that overlapped it.
 */
module BalancerCounters {
  import opened Balancer
  import opened BalancerConns
  import opened BalancerMonitors
  import opened BalancerRefs
  import opened Options

  ghost predicate CountOk(x: Backend) {
    && x.drained == |x.monitorDrained| + |x.pollerDrained|
    && x.monitorDrained <= x.gone && x.pollerDrained <= x.gone
    && (!x.overlapped ==> x.monitorDrained !! x.pollerDrained)
  }

  /** The snapshots of the drains under way hold nothing that has been counted by one of their kind. */
  ghost predicate UncountedByMonitor(s: State, b: BackendId, d: Drain) {
    var x := B(s.backends, b);
    && d.snapshot !! x.monitorDrained
    && (!x.overlapped ==> d.snapshot !! x.pollerDrained && !PollerDrains(s, b))
  }

  ghost predicate UncountedByPoller(s: State) {
    s.poller.Sweeping? ==>
      var x, d := B(s.backends, s.poller.drain.of), s.poller.drain;
      d.snapshot !! x.pollerDrained && (!x.overlapped ==> d.snapshot !! x.monitorDrained)
  }

  ghost predicate CountInv(s: State) {
    && (forall b :: CountOk(B(s.backends, b)))
    && (forall m | m in s.threads && s.threads[m].pc.Draining? ::
          UncountedByMonitor(s, m.backend, s.threads[m].pc.drain))
    && UncountedByPoller(s)
  }

  // ---------------------------------------------------------------- frames

  predicate SameCount(x: Backend, y: Backend) {
    y.drained == x.drained && y.monitorDrained == x.monitorDrained && y.pollerDrained == x.pollerDrained
    && y.overlapped == x.overlapped
  }

  /** The steps that change the counters of a backend. */
  predicate Counts(s: State, a: Action, b: BackendId)
    requires Can(s, a)
  {
    match a
    case OfMonitor(m, act) => m.backend == b && (act.Copy? || act.DrainReturns?)
    case OfPoller(act) =>
      (act.CopyRemoved? && b == s.poller.removed[s.poller.i]) || (act.SweepReturns? && b == s.poller.drain.of)
    case _ => false
  }

  lemma HandlerCount(s: State, h: HandlerId, act: HandlerAct, b: BackendId)
    requires HandlerCan(s, h, act)
    ensures SameCount(B(s.backends, b), B(HandlerStep(s, h, act).backends, b))
  {
  }

  lemma MonitorCount(c: Config, s: State, m: MonitorId, act: MonitorAct, b: BackendId)
    requires MonitorCan(s, m, act) && !(m.backend == b && (act.Copy? || act.DrainReturns?))
    ensures SameCount(B(s.backends, b), B(MonitorEffect(c, s, m, act).backends, b))
  {
  }

  lemma PollerCount(s: State, act: PollerAct, b: BackendId)
    requires PollerCan(s, act) && !act.Set? && !Counts(s, OfPoller(act), b)
    ensures SameCount(B(s.backends, b), B(PollerEffect(s, act).backends, b))
  {
  }

  lemma CountFrame(c: Config, s: State, a: Action, b: BackendId)
    requires Refs(s) && Can(s, a) && !Counts(s, a, b)
    ensures SameCount(B(s.backends, b), B(Act(c, s, a).backends, b))
  {
    match a
    case OfHandler(h, act) => HandlerCount(s, h, act, b);
    case OfMonitor(m, act) => MonitorCount(c, s, m, act, b);
    case OfChecker(_) =>
    case OfPoller(act) =>
      if act.Set? {
        SetAddrsFrame(s, act.addrs, b);
      } else {
        PollerCount(s, act, b);
      }
  }

  lemma GoneGrows(c: Config, s: State, a: Action, b: BackendId)
    requires Refs(s) && ConnInv(s) && DrainsOk(s) && Can(s, a)
    ensures B(s.backends, b).gone <= B(Act(c, s, a).backends, b).gone
  {
    ActKeeps(c, s, a);
    forall h | h in B(s.backends, b).gone ensures h in B(Act(c, s, a).backends, b).gone {
      GoneStays(s, Act(c, s, a), b, h);
    }
  }

  // ---------------------------------------------------------------- the counters

  lemma UnionCounts(a: set<HandlerId>, b: set<HandlerId>)
    requires a !! b
    ensures |a + b| == |a| + |b|
  {
    if b != {} {
      var h :| h in b;
      UnionCounts(a, b - {h});
      assert a + b == (a + (b - {h})) + {h};
    }
  }

  lemma MonitorReturns(c: Config, s: State, m: MonitorId)
    requires Inv(s) && CountInv(s) && MonitorCan(s, m, DrainReturns)
    ensures CountOk(B(MonitorEffect(c, s, m, DrainReturns).backends, m.backend))
  {
    var d := s.threads[m].pc.drain;
    OverMeansClosed(s, d);
    assert CountOk(B(s.backends, m.backend)) && UncountedByMonitor(s, m.backend, d);
    UnionCounts(B(s.backends, m.backend).monitorDrained, d.snapshot);
  }

  lemma PollerReturns(s: State)
    requires Inv(s) && CountInv(s) && PollerCan(s, SweepReturns)
    ensures CountOk(B(PollerEffect(s, SweepReturns).backends, s.poller.drain.of))
  {
    var d := s.poller.drain;
    OverMeansClosed(s, d);
    assert CountOk(B(s.backends, d.of));
    UnionCounts(B(s.backends, d.of).pollerDrained, d.snapshot);
  }

  lemma MonitorCounts(c: Config, s: State, m: MonitorId, act: MonitorAct)
    requires Inv(s) && CountInv(s) && MonitorCan(s, m, act) && (act.Copy? || act.DrainReturns?)
    ensures CountOk(B(MonitorEffect(c, s, m, act).backends, m.backend))
  {
    assert CountOk(B(s.backends, m.backend));
    if act.DrainReturns? {
      MonitorReturns(c, s, m);
    }
  }

  lemma PollerCounts(s: State, act: PollerAct, b: BackendId)
    requires Inv(s) && CountInv(s) && PollerCan(s, act) && Counts(s, OfPoller(act), b)
    ensures CountOk(B(PollerEffect(s, act).backends, b))
  {
    assert CountOk(B(s.backends, b));
    if act.SweepReturns? {
      PollerReturns(s);
    }
  }

  lemma UncountedOk(x: Backend, y: Backend)
    requires CountOk(x) && SameCount(x, y) && x.gone <= y.gone
    ensures CountOk(y)
  {
  }

  lemma CountStep(c: Config, s: State, a: Action, b: BackendId)
    requires Refs(s) && Inv(s) && CountInv(s) && Can(s, a)
    ensures CountOk(B(Act(c, s, a).backends, b))
  {
    if !Counts(s, a, b) {
      CountFrame(c, s, a, b);
      GoneGrows(c, s, a, b);
      UncountedOk(B(s.backends, b), B(Act(c, s, a).backends, b));
    } else if a.OfMonitor? {
      MonitorCounts(c, s, a.m, a.mact);
    } else {
      PollerCounts(s, a.pact, b);
    }
  }

  // ---------------------------------------------------------------- the drains under way

  lemma OwnUncounted(c: Config, s: State, m: MonitorId, act: MonitorAct)
    requires Inv(s) && CountInv(s) && MonitorCan(s, m, act) && MonitorNext(c, s, m, act).pc.Draining?
    ensures UncountedByMonitor(MonitorEffect(c, s, m, act), m.backend, MonitorNext(c, s, m, act).pc.drain)
  {
    assert CountOk(B(s.backends, m.backend));
    if act.Copy? {
      StagesAreDisjoint(s, m.backend);
    } else {
      assert act.DrainIt?;
      assert UncountedByMonitor(s, m.backend, s.threads[m].pc.drain);
      MonitorCount(c, s, m, act, m.backend);
    }
  }

  lemma PollerKeepsUncounted(s: State, act: PollerAct, m: MonitorId)
    requires Inv(s) && CountInv(s) && PollerCan(s, act) && !act.Set?
    requires m in s.threads && s.threads[m].pc.Draining?
    ensures UncountedByMonitor(PollerStep(s, act), m.backend, s.threads[m].pc.drain)
  {
    assert UncountedByMonitor(s, m.backend, s.threads[m].pc.drain);
    if !Counts(s, OfPoller(act), m.backend) {
      PollerCount(s, act, m.backend);
    }
  }

  lemma QuietKeepsUncounted(c: Config, s: State, a: Action, m: MonitorId)
    requires Refs(s) && CountInv(s) && Can(s, a) && !Counts(s, a, m.backend)
    requires !a.OfPoller? || a.pact.Set?
    requires m in s.threads && s.threads[m].pc.Draining?
    ensures UncountedByMonitor(Act(c, s, a), m.backend, s.threads[m].pc.drain)
  {
    CountFrame(c, s, a, m.backend);
    assert UncountedByMonitor(s, m.backend, s.threads[m].pc.drain);
  }

  lemma MonitorDrainStep(c: Config, s: State, a: Action, m: MonitorId)
    requires Refs(s) && Inv(s) && MonitorInv(s) && CountInv(s) && Can(s, a)
    requires m in Act(c, s, a).threads && Act(c, s, a).threads[m].pc.Draining?
    ensures UncountedByMonitor(Act(c, s, a), m.backend, Act(c, s, a).threads[m].pc.drain)
  {
    if a.OfMonitor? && a.m == m {
      OwnUncounted(c, s, m, a.mact);
    } else {
      OtherThread(c, s, a, m);
      if a.OfPoller? && !a.pact.Set? {
        PollerKeepsUncounted(s, a.pact, m);
      } else {
        if a.OfMonitor? {
          assert a.m.backend != m.backend;
        }
        QuietKeepsUncounted(c, s, a, m);
      }
    }
  }

  lemma OwnPollerUncounted(s: State, act: PollerAct)
    requires Inv(s) && CountInv(s) && PollerCan(s, act) && !act.Set?
    ensures UncountedByPoller(PollerStep(s, act))
  {
    if act.CopyRemoved? {
      var b := s.poller.removed[s.poller.i];
      assert CountOk(B(s.backends, b));
      StagesAreDisjoint(s, b);
    } else if act.SweepIt? {
      PollerCount(s, act, s.poller.drain.of);
    }
  }

  lemma MonitorKeepsPoller(c: Config, s: State, m: MonitorId, act: MonitorAct)
    requires Inv(s) && CountInv(s) && MonitorCan(s, m, act) && s.poller.Sweeping?
    ensures var d, y := s.poller.drain, B(MonitorEffect(c, s, m, act).backends, s.poller.drain.of);
      d.snapshot !! y.pollerDrained && (!y.overlapped ==> d.snapshot !! y.monitorDrained)
  {
    var b := s.poller.drain.of;
    assert UncountedByPoller(s);
    if b != m.backend || !(act.Copy? || act.DrainReturns?) {
      MonitorCount(c, s, m, act, b);
    } else if act.DrainReturns? {
      assert UncountedByMonitor(s, b, s.threads[m].pc.drain);
      assert PollerDrains(s, b);
    }
  }

  /** A step of anyone that leaves the counters of the backend being swept alone. */
  lemma AsideKeepsPoller(s: State, r: State)
    requires UncountedByPoller(s) && r.poller == s.poller
    requires s.poller.Sweeping? ==> SameCount(B(s.backends, s.poller.drain.of), B(r.backends, s.poller.drain.of))
    ensures UncountedByPoller(r)
  {
  }

  lemma AsideStepsKeepPoller(c: Config, s: State, a: Action)
    requires Refs(s) && CountInv(s) && Can(s, a) && (a.OfHandler? || a.OfChecker?)
    ensures UncountedByPoller(Act(c, s, a))
  {
    var b := if s.poller.Sweeping? then s.poller.drain.of else 0;
    CountFrame(c, s, a, b);
    AsideKeepsPoller(s, Act(c, s, a));
  }

  lemma PollerDrainCountStep(c: Config, s: State, a: Action)
    requires Refs(s) && Inv(s) && CountInv(s) && Can(s, a)
    ensures UncountedByPoller(Act(c, s, a))
  {
    match a
    case OfMonitor(m, act) =>
      if s.poller.Sweeping? {
        MonitorKeepsPoller(c, s, m, act);
      }
    case OfPoller(act) =>
      if !act.Set? {
        OwnPollerUncounted(s, act);
      }
    case _ => AsideStepsKeepPoller(c, s, a);
  }

  lemma CountInvStep(c: Config, s: State, a: Action)
    requires Refs(s) && Inv(s) && MonitorInv(s) && CountInv(s) && Can(s, a)
    ensures CountInv(Step(c, s, a))
  {
    var s' := Act(c, s, a);
    forall b ensures CountOk(B(s'.backends, b)) {
      CountStep(c, s, a, b);
    }
    forall m | m in s'.threads && s'.threads[m].pc.Draining?
      ensures UncountedByMonitor(Step(c, s, a), m.backend, s'.threads[m].pc.drain)
    {
      MonitorDrainStep(c, s, a, m);
    }
    PollerDrainCountStep(c, s, a);
  }

  lemma {:induction false} CountReached(c: Config, addrs: seq<string>, run: seq<Action>, s: State)
    requires Run(c, addrs, run) == Some(s)
    ensures CountInv(s)
    decreases |run|
  {
    if run != [] {
      var before := Run(c, addrs, run[..|run| - 1]).value;
      CountReached(c, addrs, run[..|run| - 1], before);
      InvReached(c, addrs, run[..|run| - 1], before);
      MonitorsReached(c, addrs, run[..|run| - 1], before);
      CountInvStep(c, before, run[|run| - 1]);
    }
  }

  // ---------------------------------------------------------------- the theorem

  lemma OverlapCountsTwice(a: set<HandlerId>, b: set<HandlerId>)
    ensures |a + b| + |a * b| == |a| + |b|
  {
    assert b == a * b + (b - a);
    UnionCounts(a * b, b - a);
    assert a + b == a + (b - a);
    UnionCounts(a, b - a);
  }

  lemma RestCounts(part: set<HandlerId>, all: set<HandlerId>)
    requires part <= all
    ensures |part| + |all - part| == |all|
  {
    assert all == part + (all - part);
    UnionCounts(part, all - part);
  }

  lemma Smaller(a: set<HandlerId>, b: set<HandlerId>)
    requires a <= b
    ensures |a| <= |b|
  {
    RestCounts(a, b);
  }

  lemma DrainedAgrees(x: Backend)
    requires CountOk(x) && x.total == |x.pending| + |x.conns| + |x.gone|
    ensures x.drained + |x.pending| + |x.conns| + |x.gone - (x.monitorDrained + x.pollerDrained)|
      == x.total + |x.monitorDrained * x.pollerDrained|
  {
    OverlapCountsTwice(x.monitorDrained, x.pollerDrained);
    RestCounts(x.monitorDrained + x.pollerDrained, x.gone);
  }

  lemma DrainedOk(x: Backend)
    requires CountOk(x) && x.total == |x.pending| + |x.conns| + |x.gone|
    ensures |x.monitorDrained * x.pollerDrained| <= |x.pollerDrained|
    ensures !x.overlapped ==> x.drained <= x.total
  {
    DrainedAgrees(x);
    Smaller(x.monitorDrained * x.pollerDrained, x.pollerDrained);
    if !x.overlapped {
      assert x.monitorDrained * x.pollerDrained == {};
    }
  }

  /**
   Drained against ConnsTotal, exactly: with the connections that no drain has found added to the one, and those
   that drains of both kinds have found added to the other, they agree. So Drained is the larger of the two only
   when a monitor's drain of the backend has overlapped a removal drain.
   */
  lemma DrainedIsBounded(c: Config, addrs: seq<string>, run: seq<Action>, s: State, b: BackendId)
    requires Run(c, addrs, run) == Some(s)
    ensures var x := B(s.backends, b);
      && x.drained + |x.pending| + |x.conns| + |x.gone - (x.monitorDrained + x.pollerDrained)|
           == x.total + |x.monitorDrained * x.pollerDrained|
      && (!x.overlapped ==> x.drained <= x.total)
      && x.drained <= x.total + |x.monitorDrained * x.pollerDrained| <= x.total + |x.pollerDrained|
      && x.monitorDrained <= x.gone && x.pollerDrained <= x.gone
  {
    CountReached(c, addrs, run, s);
    InvReached(c, addrs, run, s);
    assert CountOk(B(s.backends, b));
    DrainedAgrees(B(s.backends, b));
    DrainedOk(B(s.backends, b));
  }
}

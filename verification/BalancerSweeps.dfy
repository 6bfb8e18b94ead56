/**
 No turn and no removal goes undrained: an unhealthy backend whose monitor is done with the turn has been
 swept since, and so has every backend that the poller has worked off.
 */
module BalancerSweeps {
  import opened Balancer
  import opened BalancerConns
  import opened BalancerDrain
  import opened BalancerMonitors
  import opened BalancerRefs
  import opened Options

  /** On the way from the report that turned the backend to the end of the drain that answers it. */
  predicate Answering(pc: MonitorPc) {
    pc.Changed? || pc.Snapshotting? || pc.Draining?
  }

  predicate SweptSinceTurn(bs: BackendMap, b: BackendId) {
    !B(bs, b).health.healthy ==> SweptSince(bs, b, B(bs, b).downAt + 1)
  }

  ghost predicate Monitored(s: State, b: BackendId) {
    exists m :: m in s.threads && m.backend == b
  }

  /** Only a monitored backend can be unhealthy, and its monitor sweeps it before doing anything else. */
  ghost predicate TurnsSwept(s: State) {
    && (forall b :: B(s.backends, b).health.healthy || Monitored(s, b))
    && (forall m | m in s.threads && !Answering(s.threads[m].pc) :: SweptSinceTurn(s.backends, m.backend))
  }

  /** The removed backends that the poller is through with. */
  predicate WorkedOff(bs: BackendMap, p: Poller) {
    !p.Idle? ==> forall j | 0 <= j < p.i && j < |p.removed| ::
      SweptSince(bs, p.removed[j], B(bs, p.removed[j]).removedAt + 1)
  }

  // ---------------------------------------------------------------- turns

  /** Whoever else moves, a backend stays as it was: healthy, or swept since its turn. */
  lemma OthersKeepSwept(c: Config, s: State, a: Action, b: BackendId)
    requires Refs(s) && DownsOk(s) && Can(s, a) && SweptSinceTurn(s.backends, b)
    requires !(a.OfMonitor? && a.mact.ReportIt? && a.m.backend == b)
    ensures SweptSinceTurn(Act(c, s, a).backends, b)
    ensures !B(Act(c, s, a).backends, b).health.healthy ==> !B(s.backends, b).health.healthy
  {
    HealthFrame(c, s, a, b);
    if !B(Act(c, s, a).backends, b).health.healthy {
      SweptSinceStep(c, s, a, b, B(s.backends, b).downAt + 1);
    }
  }

  lemma OwnSwept(c: Config, s: State, m: MonitorId, act: MonitorAct)
    requires Refs(s) && DownsOk(s) && TurnsSwept(s) && MonitorCan(s, m, act)
    requires s.threads[m].pc.Draining? ==> s.threads[m].pc.drain.of == m.backend
    requires !Answering(MonitorNext(c, s, m, act).pc)
    ensures SweptSinceTurn(MonitorEffect(c, s, m, act).backends, m.backend)
  {
    assert s.threads[m].pc.Draining? ==> B(s.backends, m.backend).downAt < s.threads[m].pc.drain.at;
    if !Answering(s.threads[m].pc) {
      assert SweptSinceTurn(s.backends, m.backend);
    }
  }

  lemma OnlyReconcileStarts(c: Config, s: State, a: Action, m: MonitorId)
    requires Can(s, a) && m in Act(c, s, a).threads && m !in s.threads
    ensures a == OfChecker(Reconcile)
  {
  }

  /** A monitor that has just been started watches a backend nobody has reported on. */
  lemma NewMonitorSwept(c: Config, s: State, a: Action, m: MonitorId)
    requires MonitorInv(s) && TurnsSwept(s) && Can(s, a)
    requires m in Act(c, s, a).threads && m !in s.threads
    ensures SweptSinceTurn(Act(c, s, a).backends, m.backend)
  {
    OnlyReconcileStarts(c, s, a, m);
    NewlyMonitored(s, m);
    assert B(s.backends, m.backend).health.healthy;
  }

  lemma ThreadSwept(c: Config, s: State, a: Action, m: MonitorId)
    requires Refs(s) && Inv(s) && MonitorInv(s) && DownsOk(s) && TurnsSwept(s) && Can(s, a)
    requires m in Act(c, s, a).threads && !Answering(Act(c, s, a).threads[m].pc)
    ensures SweptSinceTurn(Act(c, s, a).backends, m.backend)
  {
    if m !in s.threads {
      NewMonitorSwept(c, s, a, m);
    } else if a.OfMonitor? && a.m == m {
      OwnSwept(c, s, m, a.mact);
    } else {
      OtherStays(c, s, a, m);
      assert a.OfMonitor? ==> a.m.backend != m.backend;
      OthersKeepSwept(c, s, a, m.backend);
    }
  }

  lemma StillMonitored(c: Config, s: State, a: Action, b: BackendId)
    requires Refs(s) && DownsOk(s) && TurnsSwept(s) && Can(s, a)
    ensures B(Act(c, s, a).backends, b).health.healthy || Monitored(Act(c, s, a), b)
  {
    HealthFrame(c, s, a, b);
    StepKeepsThreads(c, s, a);
    var threads := Act(c, s, a).threads;
    if a.OfMonitor? && a.m.backend == b {
      assert a.m in threads;
    } else if Monitored(s, b) {
      var m :| m in s.threads && m.backend == b;
      assert m in threads;
    }
  }

  lemma TurnsSweptStep(c: Config, s: State, a: Action)
    requires Refs(s) && Inv(s) && MonitorInv(s) && DownsOk(s) && TurnsSwept(s) && Can(s, a)
    ensures TurnsSwept(Step(c, s, a))
  {
    var r := Act(c, s, a);
    forall b ensures B(r.backends, b).health.healthy || Monitored(Step(c, s, a), b) {
      StillMonitored(c, s, a, b);
      if Monitored(r, b) {
        var m :| m in r.threads && m.backend == b;
        assert m in Step(c, s, a).threads;
      }
    }
    forall m | m in r.threads && !Answering(r.threads[m].pc) ensures SweptSinceTurn(r.backends, m.backend) {
      ThreadSwept(c, s, a, m);
    }
  }

  // ---------------------------------------------------------------- removals

  lemma OneWorkedOff(c: Config, s: State, a: Action, b: BackendId)
    requires Refs(s) && Can(s, a) && !(a.OfPoller? && a.pact.Set?)
    requires SweptSince(s.backends, b, B(s.backends, b).removedAt + 1)
    ensures SweptSince(Act(c, s, a).backends, b, B(Act(c, s, a).backends, b).removedAt + 1)
  {
    RemovalFrame(c, s, a, b);
    SweptSinceStep(c, s, a, b, B(s.backends, b).removedAt + 1);
  }

  lemma PollerUntouched(c: Config, s: State, a: Action)
    requires Can(s, a) && !a.OfPoller?
    ensures Act(c, s, a).poller == s.poller
  {
  }

  lemma WorkedOffAt(c: Config, s: State, a: Action, j: nat)
    requires Refs(s) && RemovalsOk(s) && Can(s, a) && !(a.OfPoller? && a.pact.Set?) && WorkedOff(s.backends, s.poller)
    requires !Act(c, s, a).poller.Idle? && j < Act(c, s, a).poller.i && j < |Act(c, s, a).poller.removed|
    requires s.poller.Sweeping? ==> s.poller.i < |s.poller.removed| && s.poller.drain.of == s.poller.removed[s.poller.i]
    ensures var bs, b := Act(c, s, a).backends, Act(c, s, a).poller.removed[j];
      SweptSince(bs, b, B(bs, b).removedAt + 1)
  {
    if !a.OfPoller? {
      PollerUntouched(c, s, a);
    }
    if j < s.poller.i {
      OneWorkedOff(c, s, a, s.poller.removed[j]);
    } else {
      assert a.pact.SweepReturns? && j == s.poller.i;
      RemovalFrame(c, s, a, s.poller.drain.of);
    }
  }

  /** The drain under way is that of the backend whose turn it is. */
  predicate InTurn(p: Poller) {
    p.Sweeping? ==> p.i < |p.removed| && p.drain.of == p.removed[p.i]
  }

  lemma InTurnStep(c: Config, s: State, a: Action)
    requires Can(s, a) && InTurn(s.poller)
    ensures InTurn(Act(c, s, a).poller)
  {
    if !a.OfPoller? {
      PollerUntouched(c, s, a);
    } else if !a.pact.Set? {
      assert Act(c, s, a).poller == PollerNext(s, a.pact);
    }
  }

  lemma WorkedOffStep(c: Config, s: State, a: Action)
    requires Refs(s) && RemovalsOk(s) && Can(s, a) && WorkedOff(s.backends, s.poller) && InTurn(s.poller)
    ensures WorkedOff(Step(c, s, a).backends, Step(c, s, a).poller)
  {
    if !(a.OfPoller? && a.pact.Set?) {
      var r := Act(c, s, a);
      if !r.poller.Idle? {
        forall j | 0 <= j < r.poller.i && j < |r.poller.removed|
          ensures SweptSince(r.backends, r.poller.removed[j], B(r.backends, r.poller.removed[j]).removedAt + 1)
        {
          WorkedOffAt(c, s, a, j);
        }
      }
    }
  }

  // ---------------------------------------------------------------- every run

  ghost predicate SweepInv(s: State) {
    TurnsSwept(s) && WorkedOff(s.backends, s.poller) && InTurn(s.poller)
  }

  lemma {:induction false} SweepsReached(c: Config, addrs: seq<string>, run: seq<Action>, s: State)
    requires Run(c, addrs, run) == Some(s)
    ensures SweepInv(s)
    decreases |run|
  {
    if run != [] {
      var init, a := run[..|run| - 1], run[|run| - 1];
      var before := Run(c, addrs, init).value;
      SweepsReached(c, addrs, init, before);
      InvReached(c, addrs, init, before);
      MonitorsReached(c, addrs, init, before);
      ProvenanceReached(c, addrs, init, before);
      TurnsSweptStep(c, before, a);
      WorkedOffStep(c, before, a);
      InTurnStep(c, before, a);
    }
  }

  /**
   No turn goes undrained. In every reachable state, once the monitor of an unhealthy backend is done with the
   turn, whatever is open to the backend was registered after the turn, by a handler that had read it healthy
   before or was in best-effort mode, having read no backend healthy at all.
   */
  lemma NoTurnUndrained(c: Config, addrs: seq<string>, run: seq<Action>, s: State, m: MonitorId, h: HandlerId)
    requires Run(c, addrs, run) == Some(s) && m in s.threads && !Answering(s.threads[m].pc)
    requires !B(s.backends, m.backend).health.healthy && h in B(s.backends, m.backend).conns
    ensures var x, b := H(s.handlers, h), m.backend;
      && B(s.backends, b).downAt < x.registeredAt
      && (if x.bestEffort then x.readAt == map[] else b in x.readAt && x.readAt[b] < B(s.backends, b).downAt)
  {
    SweepsReached(c, addrs, run, s);
    assert SweptSinceTurn(s.backends, m.backend);
    RegisteredAfter(c, addrs, run, s, m.backend, B(s.backends, m.backend).downAt + 1, h);
  }

  /** Nor does a removal: when the poller finishes, each backend it removed has been swept since its removal. */
  lemma NoRemovalUndrained(c: Config, addrs: seq<string>, run: seq<Action>, s: State, j: nat)
    requires Run(c, addrs, run) == Some(s) && PollerCan(s, Finish) && j < |s.poller.removed|
    ensures var b := s.poller.removed[j];
      && b !in s.pool
      && forall h | h in B(s.backends, b).conns ::
           H(s.handlers, h).copiedAt < B(s.backends, b).removedAt < H(s.handlers, h).registeredAt
  {
    SweepsReached(c, addrs, run, s);
    ProvenanceReached(c, addrs, run, s);
    var b := s.poller.removed[j];
    forall h | h in B(s.backends, b).conns
      ensures H(s.handlers, h).copiedAt < B(s.backends, b).removedAt < H(s.handlers, h).registeredAt
    {
      RegisteredAfter(c, addrs, run, s, b, B(s.backends, b).removedAt + 1, h);
    }
  }
}

/**
 One monitor per backend instance, ever. A backend that leaves the pool does not come back, so its
 cancelled monitor is never replaced, and all reports on an instance come from one thread.
 */
module BalancerMonitors {
  import opened Balancer
  import opened BalancerConns
  import opened BalancerRefs
  import opened Options

  ghost predicate Unregistered(s: State, m: MonitorId) {
    m.backend !in s.monitors
  }

  ghost predicate OnePerBackend(s: State) {
    forall m, m' | m in s.threads && m' in s.threads && m.backend == m'.backend :: m == m'
  }

  /** A cancelled monitor may still be about to make the report it had checked before; it makes no other. */
  predicate LateOk(t: Monitor) {
    && t.lateReports <= 1
    && (!t.cancelled ==> t.lateReports == 0)
    && (t.cancelled && t.pc.Checked? ==> t.lateReports == 0)
  }

  ghost predicate ThreadsOk(s: State) {
    && (forall b | b in s.monitors :: s.monitors[b] in s.threads && s.monitors[b].backend == b)
    && (forall m | m in s.threads :: m.round < s.round && LateOk(s.threads[m]))
  }

  ghost predicate CancelsOk(s: State) {
    forall m | m in s.threads && (Unregistered(s, m) || s.cancelled) :: s.threads[m].cancelled
  }

  /** Monitors that are no longer registered watch backends that neither the pool nor a pending reconcile knows. */
  ghost predicate StaysAway(s: State) {
    && (!s.checker.Stopped? ==> forall m | m in s.threads && Unregistered(s, m) :: m.backend !in s.pool)
    && (s.checker.Reconciling? ==>
          forall m | m in s.threads && (Unregistered(s, m) || m.backend !in s.checker.current) ::
            m.backend !in s.pool && m.backend !in s.checker.current)
  }

  ghost predicate MonitorInv(s: State) {
    OnePerBackend(s) && ThreadsOk(s) && CancelsOk(s) && StaysAway(s)
  }

  lemma LateNext(c: Config, s: State, m: MonitorId, act: MonitorAct)
    requires MonitorCan(s, m, act) && LateOk(s.threads[m])
    ensures LateOk(MonitorNext(c, s, m, act)) && MonitorNext(c, s, m, act).cancelled == s.threads[m].cancelled
  {
  }

  predicate SameMonitors(s: State, s': State) {
    && s'.pool == s.pool && s'.monitors == s.monitors && s'.threads == s.threads
    && s'.round == s.round && s'.checker == s.checker && s'.cancelled == s.cancelled
  }

  lemma OneThreadMoves(s: State, r: State, m: MonitorId, t: Monitor)
    requires MonitorInv(s) && m in s.threads && LateOk(t) && t.cancelled == s.threads[m].cancelled
    requires SameMonitors(s.(threads := s.threads[m := t]), r)
    ensures MonitorInv(r)
  {
    assert r.threads.Keys == s.threads.Keys;
  }

  lemma MonitorMoves(c: Config, s: State, m: MonitorId, act: MonitorAct)
    requires MonitorInv(s) && MonitorCan(s, m, act)
    ensures MonitorInv(MonitorStep(c, s, m, act))
  {
    LateNext(c, s, m, act);
    OneThreadMoves(s, MonitorStep(c, s, m, act), m, MonitorNext(c, s, m, act));
  }

  lemma CopyMoves(s: State)
    requires MonitorInv(s) && CheckerCan(s, CopyForReconcile)
    ensures MonitorInv(CheckerStep(s, CopyForReconcile))
  {
  }

  lemma CancelMoves(s: State)
    requires MonitorInv(s) && CheckerCan(s, Cancel)
    ensures MonitorInv(CheckerStep(s, Cancel))
  {
  }

  lemma StopMoves(s: State)
    requires MonitorInv(s) && CheckerCan(s, Stop)
    ensures MonitorInv(CheckerStep(s, Stop))
  {
  }

  /** The monitor that the next reconcile starts for a backend that has none. */
  predicate Starts(s: State, m: MonitorId, current: set<BackendId>) {
    m == MonitorId(s.round, m.backend) && m.backend in current && m.backend !in s.monitors
  }

  lemma AddedAre(s: State, current: set<BackendId>, m: MonitorId)
    ensures m in Added(s, current).Values <==> Starts(s, m, current)
  {
    if m.backend in current && m.backend !in s.monitors {
      assert Added(s, current)[m.backend] in Added(s, current).Values;
    }
  }

  /** What has become of one thread after a reconcile: running on, cancelled, or new. */
  lemma ReconciledThread(s: State, m: MonitorId)
    requires ThreadsOk(s) && CheckerCan(s, Reconcile)
    ensures var threads, current := CheckerStep(s, Reconcile).threads, s.checker.current;
      && (m in threads <==> m in s.threads || Starts(s, m, current))
      && (m in s.threads ==>
            threads[m] == if Dropped(s, m, current) then s.threads[m].(cancelled := true) else s.threads[m])
      && (m in threads && m !in s.threads ==> threads[m] == Monitor(Probing, s.cancelled, 0))
  {
    AddedAre(s, s.checker.current, m);
  }

  /** After a reconcile there is a registered monitor for exactly the backends of its pool snapshot. */
  lemma ReconciledMonitors(s: State)
    requires CheckerCan(s, Reconcile)
    ensures var s' := CheckerStep(s, Reconcile);
      && s'.monitors.Keys == s.checker.current
      && (forall b | b in s'.monitors ::
            s'.monitors[b] == if b in s.monitors then s.monitors[b] else MonitorId(s.round, b))
  {
  }

  lemma ReconcileKeepsUnique(s: State)
    requires MonitorInv(s) && CheckerCan(s, Reconcile)
    ensures OnePerBackend(CheckerStep(s, Reconcile))
  {
    var s' := CheckerStep(s, Reconcile);
    forall m, m' | m in s'.threads && m' in s'.threads && m.backend == m'.backend ensures m == m' {
      ReconciledThread(s, m);
      ReconciledThread(s, m');
      assert Unregistered(s, m) <==> Unregistered(s, m');
    }
  }

  lemma ReconcileKeepsRegistered(s: State, b: BackendId)
    requires MonitorInv(s) && CheckerCan(s, Reconcile) && b in CheckerStep(s, Reconcile).monitors
    ensures var s' := CheckerStep(s, Reconcile); s'.monitors[b] in s'.threads && s'.monitors[b].backend == b
  {
    ReconciledMonitors(s);
    ReconciledThread(s, if b in s.monitors then s.monitors[b] else MonitorId(s.round, b));
  }

  lemma ReconcileKeepsThread(s: State, m: MonitorId)
    requires MonitorInv(s) && CheckerCan(s, Reconcile) && m in CheckerStep(s, Reconcile).threads
    ensures var s' := CheckerStep(s, Reconcile);
      && m.round < s'.round && LateOk(s'.threads[m])
      && (Unregistered(s', m) || s'.cancelled ==> s'.threads[m].cancelled)
      && (Unregistered(s', m) ==> m in s.threads && m.backend !in s'.pool)
  {
    ReconciledMonitors(s);
    ReconciledThread(s, m);
    if m in s.threads {
      assert LateOk(s.threads[m]);
      assert Unregistered(s, m) || m.backend in s.monitors;
    }
  }

  lemma ReconcileMoves(s: State)
    requires MonitorInv(s) && CheckerCan(s, Reconcile)
    ensures MonitorInv(CheckerStep(s, Reconcile))
  {
    var s' := CheckerStep(s, Reconcile);
    ReconcileKeepsUnique(s);
    forall b | b in s'.monitors ensures s'.monitors[b] in s'.threads && s'.monitors[b].backend == b {
      ReconcileKeepsRegistered(s, b);
    }
    forall m | m in s'.threads
      ensures m.round < s'.round && LateOk(s'.threads[m])
      ensures Unregistered(s', m) || s'.cancelled ==> s'.threads[m].cancelled
      ensures Unregistered(s', m) ==> m.backend !in s'.pool
    {
      ReconcileKeepsThread(s, m);
    }
  }

  lemma CheckerMoves(s: State, act: CheckerAct)
    requires MonitorInv(s) && CheckerCan(s, act)
    ensures MonitorInv(CheckerStep(s, act))
  {
    match act
    case CopyForReconcile => CopyMoves(s);
    case Reconcile => ReconcileMoves(s);
    case Cancel => CancelMoves(s);
    case Stop => StopMoves(s);
  }

  /** A new pool consists of instances of the old one and of instances nobody has seen. */
  lemma PoolOnlyGains(s: State, addrs: seq<string>, b: BackendId)
    requires Refs(s) && b < s.nextBackend && b !in s.pool
    ensures b !in SetAddrs(s, addrs).pool
  {
    InstancesAre(s, addrs, s.nextBackend);
  }

  lemma SetAddrsMoves(s: State, addrs: seq<string>)
    requires MonitorInv(s) && Refs(s)
    ensures MonitorInv(SetAddrs(s, addrs))
  {
    forall m | m in s.threads && m.backend !in s.pool ensures m.backend !in SetAddrs(s, addrs).pool {
      PoolOnlyGains(s, addrs, m.backend);
    }
  }

  /** Steps of the handlers and of the draining poller touch nothing the monitors are made of. */
  lemma OthersMove(s: State, s': State)
    requires MonitorInv(s) && SameMonitors(s, s')
    ensures MonitorInv(s')
  {
  }

  lemma HandlerMoves(s: State, h: HandlerId, act: HandlerAct)
    requires MonitorInv(s) && HandlerCan(s, h, act)
    ensures MonitorInv(HandlerStep(s, h, act))
  {
    OthersMove(s, HandlerStep(s, h, act));
  }

  lemma PollerMoves(s: State, act: PollerAct)
    requires Refs(s) && MonitorInv(s) && PollerCan(s, act)
    ensures MonitorInv(PollerStep(s, act))
  {
    if act.Set? {
      SetAddrsMoves(s, act.addrs);
    } else {
      OthersMove(s, PollerStep(s, act));
    }
  }

  lemma ActMoves(c: Config, s: State, a: Action)
    requires Refs(s) && MonitorInv(s) && Can(s, a)
    ensures MonitorInv(Act(c, s, a))
  {
    match a
    case OfHandler(h, act) => HandlerMoves(s, h, act);
    case OfMonitor(m, act) => MonitorMoves(c, s, m, act);
    case OfChecker(act) => CheckerMoves(s, act);
    case OfPoller(act) => PollerMoves(s, act);
  }

  lemma StepMoves(c: Config, s: State, a: Action)
    requires Refs(s) && MonitorInv(s) && Can(s, a)
    ensures MonitorInv(Step(c, s, a))
  {
    ActMoves(c, s, a);
    OthersMove(Act(c, s, a), Step(c, s, a));
  }

  lemma {:induction false} MonitorsReached(c: Config, addrs: seq<string>, run: seq<Action>, s: State)
    requires Run(c, addrs, run) == Some(s)
    ensures MonitorInv(s)
    decreases |run|
  {
    if run != [] {
      var before := Run(c, addrs, run[..|run| - 1]).value;
      MonitorsReached(c, addrs, run[..|run| - 1], before);
      InvReached(c, addrs, run[..|run| - 1], before);
      StepMoves(c, before, run[|run| - 1]);
    }
  }

  // ---------------------------------------------------------------- who is running

  predicate Registered(s: State, m: MonitorId) {
    m.backend in s.monitors && s.monitors[m.backend] == m
  }

  /**
   Only cancelled monitors exit, and until the checker is cancelled no registered monitor is; once it has stopped,
   none is registered.
   */
  ghost predicate RunsOk(s: State) {
    && (forall m | m in s.threads && s.threads[m].pc.Exited? :: s.threads[m].cancelled)
    && (!s.cancelled ==> forall m | m in s.threads && Registered(s, m) :: !s.threads[m].cancelled)
    && (s.checker.Stopped? ==> s.cancelled && s.monitors == map[])
  }

  lemma OnlyCancelledExit(c: Config, s: State, m: MonitorId, act: MonitorAct)
    requires MonitorCan(s, m, act)
    ensures var t := MonitorNext(c, s, m, act);
      t.cancelled == s.threads[m].cancelled && (t.pc.Exited? ==> t.cancelled)
  {
  }

  lemma OneThreadRuns(s: State, r: State, m: MonitorId, t: Monitor)
    requires RunsOk(s) && m in s.threads && t.cancelled == s.threads[m].cancelled && (t.pc.Exited? ==> t.cancelled)
    requires SameMonitors(s.(threads := s.threads[m := t]), r)
    ensures RunsOk(r)
  {
    assert forall x :: Registered(r, x) <==> Registered(s, x);
  }

  lemma MonitorRuns(c: Config, s: State, m: MonitorId, act: MonitorAct)
    requires RunsOk(s) && MonitorCan(s, m, act)
    ensures RunsOk(MonitorStep(c, s, m, act))
  {
    OnlyCancelledExit(c, s, m, act);
    OneThreadRuns(s, MonitorStep(c, s, m, act), m, MonitorNext(c, s, m, act));
  }

  lemma ReconcileKeepsRunning(s: State, m: MonitorId)
    requires MonitorInv(s) && RunsOk(s) && CheckerCan(s, Reconcile) && m in CheckerStep(s, Reconcile).threads
    ensures var s' := CheckerStep(s, Reconcile);
      && (s'.threads[m].pc.Exited? ==> s'.threads[m].cancelled)
      && (!s'.cancelled && Registered(s', m) ==> !s'.threads[m].cancelled)
  {
    ReconciledMonitors(s);
    ReconciledThread(s, m);
    if m in s.threads && Registered(CheckerStep(s, Reconcile), m) {
      assert m.round < s.round;
      assert Registered(s, m);
    }
  }

  lemma ReconcileRuns(s: State)
    requires MonitorInv(s) && RunsOk(s) && CheckerCan(s, Reconcile)
    ensures RunsOk(CheckerStep(s, Reconcile))
  {
    var s' := CheckerStep(s, Reconcile);
    forall m | m in s'.threads
      ensures s'.threads[m].pc.Exited? ==> s'.threads[m].cancelled
      ensures !s'.cancelled && Registered(s', m) ==> !s'.threads[m].cancelled
    {
      ReconcileKeepsRunning(s, m);
    }
  }

  lemma CheckerRuns(s: State, act: CheckerAct)
    requires MonitorInv(s) && RunsOk(s) && CheckerCan(s, act)
    ensures RunsOk(CheckerStep(s, act))
  {
    if act.Reconcile? {
      ReconcileRuns(s);
    } else if act.CopyForReconcile? {
      assert forall m :: Registered(CheckerStep(s, act), m) <==> Registered(s, m);
    }
  }

  /** Handlers and the poller neither cancel nor register. */
  lemma OthersRun(s: State, r: State)
    requires RunsOk(s) && r.monitors == s.monitors && r.threads == s.threads
    requires r.cancelled == s.cancelled && r.checker == s.checker
    ensures RunsOk(r)
  {
    assert forall m :: Registered(r, m) <==> Registered(s, m);
  }

  lemma HandlerRuns(s: State, h: HandlerId, act: HandlerAct)
    requires RunsOk(s) && HandlerCan(s, h, act)
    ensures RunsOk(HandlerStep(s, h, act))
  {
    OthersRun(s, HandlerStep(s, h, act));
  }

  lemma PollerRuns(s: State, act: PollerAct)
    requires RunsOk(s) && PollerCan(s, act)
    ensures RunsOk(PollerStep(s, act))
  {
    OthersRun(s, PollerStep(s, act));
  }

  lemma ActRuns(c: Config, s: State, a: Action)
    requires MonitorInv(s) && RunsOk(s) && Can(s, a)
    ensures RunsOk(Act(c, s, a))
  {
    match a
    case OfHandler(h, act) => HandlerRuns(s, h, act);
    case OfMonitor(m, act) => MonitorRuns(c, s, m, act);
    case OfChecker(act) => CheckerRuns(s, act);
    case OfPoller(act) => PollerRuns(s, act);
  }

  lemma StepRuns(c: Config, s: State, a: Action)
    requires MonitorInv(s) && RunsOk(s) && Can(s, a)
    ensures RunsOk(Step(c, s, a))
  {
    ActRuns(c, s, a);
    OthersRun(Act(c, s, a), Step(c, s, a));
  }

  lemma {:induction false} RunsReached(c: Config, addrs: seq<string>, run: seq<Action>, s: State)
    requires Run(c, addrs, run) == Some(s)
    ensures RunsOk(s)
    decreases |run|
  {
    if run != [] {
      var before := Run(c, addrs, run[..|run| - 1]).value;
      RunsReached(c, addrs, run[..|run| - 1], before);
      MonitorsReached(c, addrs, run[..|run| - 1], before);
      StepRuns(c, before, run[|run| - 1]);
    }
  }

  lemma CancelledExactly(s: State, m: MonitorId)
    requires MonitorInv(s) && RunsOk(s) && m in s.threads
    ensures s.threads[m].cancelled <==> s.cancelled || Unregistered(s, m)
  {
    assert Registered(s, m) || Unregistered(s, m);
  }

  /**
   In every reachable state the monitors that are still to go on are exactly the registered ones, until the
   checker itself is cancelled; and no monitor has ended without having been cancelled.
   */
  lemma RegisteredKeepRunning(c: Config, addrs: seq<string>, run: seq<Action>, s: State, m: MonitorId)
    requires Run(c, addrs, run) == Some(s) && m in s.threads
    ensures s.threads[m].cancelled <==> s.cancelled || m.backend !in s.monitors
    ensures s.threads[m].pc.Exited? ==> s.threads[m].cancelled
  {
    MonitorsReached(c, addrs, run, s);
    RunsReached(c, addrs, run, s);
    CancelledExactly(s, m);
  }

  /** A checker that has stopped leaves no monitor registered and none that is not to end. */
  lemma StopsAll(c: Config, addrs: seq<string>, run: seq<Action>, s: State)
    requires Run(c, addrs, run) == Some(s) && s.checker.Stopped?
    ensures s.monitors == map[] && forall m | m in s.threads :: s.threads[m].cancelled
  {
    MonitorsReached(c, addrs, run, s);
    RunsReached(c, addrs, run, s);
  }

  /** The checker moves no thread that is already running. */
  lemma CheckerKeepsPc(s: State, act: CheckerAct, m: MonitorId)
    requires MonitorInv(s) && CheckerCan(s, act) && m in s.threads
    ensures m in CheckerStep(s, act).threads && CheckerStep(s, act).threads[m].pc == s.threads[m].pc
  {
    if act.Reconcile? {
      ReconciledThread(s, m);
    }
  }

  lemma OtherStays(c: Config, s: State, a: Action, m: MonitorId)
    requires MonitorInv(s) && Can(s, a) && m in s.threads && !(a.OfMonitor? && a.m == m)
    ensures m in Act(c, s, a).threads && Act(c, s, a).threads[m].pc == s.threads[m].pc
  {
    if a.OfChecker? {
      CheckerKeepsPc(s, a.cact, m);
    }
  }

  /** A reconcile starts a monitor only for a backend that never had one. */
  lemma NewlyMonitored(s: State, m: MonitorId)
    requires MonitorInv(s) && CheckerCan(s, Reconcile) && m in CheckerStep(s, Reconcile).threads && m !in s.threads
    ensures forall x | x in s.threads :: x.backend != m.backend
  {
    ReconciledThread(s, m);
    assert m.backend in s.checker.current && m.backend !in s.monitors;
  }

  // ---------------------------------------------------------------- over a whole run

  lemma SamePool(c: Config, s: State, a: Action)
    requires Can(s, a) && !(a.OfPoller? && a.pact.Set?)
    ensures Act(c, s, a).pool == s.pool && Act(c, s, a).nextBackend == s.nextBackend
  {
  }

  /** What one step keeps: every thread, every instance, and the absence of an old instance from the pool. */
  lemma StepStaysAway(c: Config, s: State, a: Action, b: BackendId)
    requires Refs(s) && Can(s, a) && b < s.nextBackend
    ensures b < Step(c, s, a).nextBackend
    ensures b !in s.pool ==> b !in Step(c, s, a).pool
  {
    if a.OfPoller? && a.pact.Set? {
      if b !in s.pool {
        PoolOnlyGains(s, a.pact.addrs, b);
      }
    } else {
      SamePool(c, s, a);
    }
  }

  lemma CheckerKeepsThreads(s: State, act: CheckerAct)
    requires CheckerCan(s, act)
    ensures s.threads.Keys <= CheckerStep(s, act).threads.Keys
  {
  }

  lemma StepKeepsThreads(c: Config, s: State, a: Action)
    requires Can(s, a)
    ensures s.threads.Keys <= Act(c, s, a).threads.Keys
  {
    if a.OfChecker? {
      CheckerKeepsThreads(s, a.cact);
    }
  }

  lemma LastOf(run: seq<Action>, more: seq<Action>)
    requires more != []
    ensures (run + more)[..|run + more| - 1] == run + more[..|more| - 1]
    ensures (run + more)[|run + more| - 1] == more[|more| - 1]
  {
  }

  /** An instance that has left the pool is in no later pool, so a returning address gets a new one. */
  lemma {:induction false} NeverReturns(
      c: Config, addrs: seq<string>, run: seq<Action>, more: seq<Action>, s: State, s': State, b: BackendId)
    requires Run(c, addrs, run) == Some(s) && Run(c, addrs, run + more) == Some(s')
    requires b < s.nextBackend
    ensures b < s'.nextBackend && (b !in s.pool ==> b !in s'.pool)
    decreases |more|
  {
    if more == [] {
      assert run + more == run;
    } else {
      LastOf(run, more);
      var before := Run(c, addrs, run + more[..|more| - 1]).value;
      NeverReturns(c, addrs, run, more[..|more| - 1], s, before, b);
      InvReached(c, addrs, run + more[..|more| - 1], before);
      StepStaysAway(c, before, more[|more| - 1], b);
    }
  }

  lemma {:induction false} ThreadsStay(
      c: Config, addrs: seq<string>, run: seq<Action>, more: seq<Action>, s: State, s': State)
    requires Run(c, addrs, run) == Some(s) && Run(c, addrs, run + more) == Some(s')
    ensures s.threads.Keys <= s'.threads.Keys
    decreases |more|
  {
    if more == [] {
      assert run + more == run;
    } else {
      LastOf(run, more);
      var before := Run(c, addrs, run + more[..|more| - 1]).value;
      ThreadsStay(c, addrs, run, more[..|more| - 1], s, before);
      StepKeepsThreads(c, before, more[|more| - 1]);
    }
  }

  /**
   An instance has one monitor in its whole life: whoever watches it at any time of a run is the thread that
   watches it at any later time. So its reports come one after the other, and one at most after the cancellation.
   */
  lemma OneMonitorEver(c: Config, addrs: seq<string>, run: seq<Action>, more: seq<Action>, s: State, s': State,
                       m: MonitorId, m': MonitorId)
    requires Run(c, addrs, run) == Some(s) && Run(c, addrs, run + more) == Some(s')
    requires m in s.threads && m' in s'.threads && m.backend == m'.backend
    ensures m == m' && s'.threads[m'].lateReports <= 1
  {
    ThreadsStay(c, addrs, run, more, s, s');
    MonitorsReached(c, addrs, run + more, s');
  }

  /**
   A reconcile leaves a registered monitor for each backend of its pool copy, not cancelled and not ended
   unless the checker is cancelled, and every other monitor cancelled.
   */
  lemma KeysMatchSnapshot(c: Config, addrs: seq<string>, run: seq<Action>, s: State)
    requires Run(c, addrs, run) == Some(s) && s.checker.Reconciling?
    ensures var s' := CheckerStep(s, Reconcile);
      && s'.monitors.Keys == s.checker.current
      && (forall b | b in s'.monitors :: s'.monitors[b] in s'.threads && s'.monitors[b].backend == b)
      && (forall m | m in s'.threads ::
            && (s'.threads[m].cancelled <==> s.cancelled || m.backend !in s.checker.current)
            && (s'.threads[m].pc.Exited? ==> s'.threads[m].cancelled))
  {
    var s' := CheckerStep(s, Reconcile);
    MonitorsReached(c, addrs, run, s);
    RunsReached(c, addrs, run, s);
    ReconciledMonitors(s);
    ReconcileMoves(s);
    ReconcileRuns(s);
    forall m | m in s'.threads ensures s'.threads[m].cancelled <==> s'.cancelled || Unregistered(s', m) {
      CancelledExactly(s', m);
    }
  }

  /** In every run a reconcile starts a monitor only for a backend that no thread has watched before. */
  lemma StartsFirstMonitor(c: Config, addrs: seq<string>, run: seq<Action>, s: State, m: MonitorId)
    requires Run(c, addrs, run) == Some(s) && s.checker.Reconciling?
    requires m in CheckerStep(s, Reconcile).threads && m !in s.threads
    ensures forall x | x in s.threads :: x.backend != m.backend
    ensures m.backend in s.checker.current && CheckerStep(s, Reconcile).monitors[m.backend] == m
  {
    MonitorsReached(c, addrs, run, s);
    NewlyMonitored(s, m);
    ReconciledThread(s, m);
    ReconciledMonitors(s);
  }
}

/**
 The checker's best-effort flag. Its committed changes alternate whatever the monitors do; that it tells
 whether any backend is healthy needs transitions handled one at a time on an unchanged pool.
 */
module BestEffort {
  import opened Balancer
  import opened BalancerConns
  import opened BalancerMonitors
  import opened Options

  // ---------------------------------------------------------------- alternation

  /** Enter, leave, enter, and so on. */
  predicate Alternates(changes: seq<bool>) {
    forall i | 0 <= i < |changes| :: changes[i] == (i % 2 == 0)
  }

  predicate FlagOk(s: State) {
    Alternates(s.changes) && s.degraded == (|s.changes| % 2 == 1)
  }

  lemma MonitorFlag(c: Config, s: State, m: MonitorId, act: MonitorAct)
    requires MonitorCan(s, m, act) && !act.Commit?
    ensures var r := MonitorEffect(c, s, m, act); r.degraded == s.degraded && r.changes == s.changes
  {
  }

  lemma FlagFrame(c: Config, s: State, a: Action)
    requires Can(s, a) && !(a.OfMonitor? && a.mact.Commit?)
    ensures Act(c, s, a).degraded == s.degraded && Act(c, s, a).changes == s.changes
  {
    if a.OfMonitor? {
      MonitorFlag(c, s, a.m, a.mact);
    }
  }

  lemma FlagStep(c: Config, s: State, a: Action)
    requires Can(s, a) && FlagOk(s)
    ensures FlagOk(Step(c, s, a))
  {
    if a.OfMonitor? && a.mact.Commit? {
    } else {
      FlagFrame(c, s, a);
    }
  }

  lemma {:induction false} FlagReached(c: Config, addrs: seq<string>, run: seq<Action>, s: State)
    requires Run(c, addrs, run) == Some(s)
    ensures FlagOk(s)
    decreases |run|
  {
    if run != [] {
      var before := Run(c, addrs, run[..|run| - 1]).value;
      FlagReached(c, addrs, run[..|run| - 1], before);
      FlagStep(c, before, run[|run| - 1]);
    }
  }

  lemma FlagMeans(s: State)
    requires FlagOk(s)
    ensures forall i | 0 <= i < |s.changes| :: s.changes[i] == (i % 2 == 0)
    ensures s.degraded == (s.changes != [] && s.changes[|s.changes| - 1])
  {
  }

  /** In every interleaving the flag is entered and left in turn, entered first, and holds iff it was entered last. */
  lemma ChangesAlternate(c: Config, addrs: seq<string>, run: seq<Action>, s: State)
    requires Run(c, addrs, run) == Some(s)
    ensures forall i | 0 <= i < |s.changes| :: s.changes[i] == (i % 2 == 0)
    ensures s.degraded == (s.changes != [] && s.changes[|s.changes| - 1])
  {
    FlagReached(c, addrs, run, s);
    FlagMeans(s);
  }

  // ---------------------------------------------------------------- one transition at a time

  /** Between the report that changed the state and the commit that follows it. */
  predicate Handling(pc: MonitorPc) {
    pc.Changed? || pc.Snapshotting? || pc.Draining? || pc.Counting? || pc.Scanning? || pc.Committing?
  }

  ghost predicate Busy(s: State) {
    exists m | m in s.threads :: Handling(s.threads[m].pc)
  }

  /** The report that the monitor is about to make turns its backend. */
  predicate Turns(c: Config, s: State, m: MonitorId)
    requires MonitorCan(s, m, ReportIt)
  {
    Backends.Report(B(s.backends, m.backend).health, s.threads[m].pc.ok, c.fall, c.rise).1
  }

  /** The pool does not change, and no report turns a backend while another turn is being handled. */
  ghost predicate Orderly(c: Config, s: State, a: Action)
    requires Can(s, a)
  {
    match a
    case OfPoller(act) => !act.Set?
    case OfMonitor(m, act) =>
      act.ReportIt? && Turns(c, s, m) ==> !Busy(s)
    case _ => true
  }

  ghost predicate OneAtATime(c: Config, addrs: seq<string>, run: seq<Action>)
    requires Run(c, addrs, run).Some?
    decreases |run|
  {
    run == [] ||
    (OneAtATime(c, addrs, run[..|run| - 1]) && Orderly(c, Run(c, addrs, run[..|run| - 1]).value, run[|run| - 1]))
  }

  predicate Healthy(s: State, b: BackendId) {
    B(s.backends, b).health.healthy
  }

  predicate NoneHealthy(s: State) {
    forall i | 0 <= i < |s.pool| :: !Healthy(s, s.pool[i])
  }

  /** What the thread that handles a turn has found out so far is still true. */
  predicate ScanOk(s: State, pc: MonitorPc) {
    && (pc.Scanning? ==>
          && pc.seen == s.pool && pc.i <= |pc.seen|
          && (pc.anyHealthy <==> exists j | 0 <= j < pc.i :: Healthy(s, s.pool[j])))
    && (pc.Committing? ==> pc.degraded == NoneHealthy(s))
  }

  ghost predicate OrderlyInv(s: State) {
    && (forall m, m' | m in s.threads && m' in s.threads
          && Handling(s.threads[m].pc) && Handling(s.threads[m'].pc) :: m == m')
    && (!Busy(s) ==> s.degraded == NoneHealthy(s))
    && (forall m | m in s.threads :: ScanOk(s, s.threads[m].pc))
  }

  /** The health of every backend is the same. */
  ghost predicate SameHealth(s: State, r: State) {
    r.pool == s.pool && forall b {:trigger Healthy(r, b)} {:trigger Healthy(s, b)} :: Healthy(r, b) == Healthy(s, b)
  }

  lemma HandlerHealthy(s: State, h: HandlerId, act: HandlerAct)
    requires HandlerCan(s, h, act)
    ensures SameHealth(s, HandlerStep(s, h, act))
  {
  }

  lemma PollerHealthy(s: State, act: PollerAct)
    requires PollerCan(s, act) && !act.Set?
    ensures SameHealth(s, PollerEffect(s, act))
  {
  }

  lemma MonitorHealthy(c: Config, s: State, m: MonitorId, act: MonitorAct)
    requires MonitorCan(s, m, act)
    requires act.ReportIt? ==> !Turns(c, s, m)
    ensures SameHealth(s, MonitorEffect(c, s, m, act))
  {
  }

  lemma SameHealthScan(s: State, r: State, pc: MonitorPc)
    requires SameHealth(s, r) && ScanOk(s, pc)
    ensures ScanOk(r, pc) && NoneHealthy(r) == NoneHealthy(s)
  {
  }

  /** Steps that leave the monitors, their flag and the health of the backends alone. */
  lemma AsideStep(s: State, r: State)
    requires OrderlyInv(s) && SameHealth(s, r) && r.threads == s.threads && r.degraded == s.degraded
    ensures OrderlyInv(r)
  {
    forall m | m in r.threads ensures ScanOk(r, r.threads[m].pc) {
      SameHealthScan(s, r, r.threads[m].pc);
    }
    assert NoneHealthy(r) == NoneHealthy(s);
  }

  /** A thread there now was there before, at the same place, or is about to make its first probe. */
  predicate CameFrom(s: State, threads: map<MonitorId, Monitor>, m: MonitorId)
    requires m in threads
  {
    threads[m].pc.Probing? || (m in s.threads && threads[m].pc == s.threads[m].pc)
  }

  lemma NewThreadsAreIdle(s: State, r: State)
    requires OrderlyInv(s) && r.backends == s.backends && r.pool == s.pool && r.degraded == s.degraded
    requires forall m | m in r.threads :: CameFrom(s, r.threads, m)
    requires forall m | m in s.threads :: m in r.threads && r.threads[m].pc == s.threads[m].pc
    ensures OrderlyInv(r)
  {
    assert SameHealth(s, r);
    assert NoneHealthy(r) == NoneHealthy(s);
    forall m | m in r.threads ensures ScanOk(r, r.threads[m].pc) {
      if !r.threads[m].pc.Probing? {
        SameHealthScan(s, r, s.threads[m].pc);
      }
    }
  }

  /** The checker only cancels monitors and starts new ones. */
  lemma CheckerOrderly(s: State, act: CheckerAct)
    requires MonitorInv(s) && OrderlyInv(s) && CheckerCan(s, act)
    ensures OrderlyInv(CheckerStep(s, act))
  {
    var r := CheckerStep(s, act);
    forall m | m in r.threads ensures CameFrom(s, r.threads, m) {
      CheckerThreads(s, act, m);
    }
    forall m | m in s.threads ensures m in r.threads && r.threads[m].pc == s.threads[m].pc {
      CheckerKeepsPc(s, act, m);
    }
    NewThreadsAreIdle(s, r);
  }

  lemma TurnOrderly(c: Config, s: State, m: MonitorId)
    requires OrderlyInv(s) && MonitorCan(s, m, ReportIt) && !Busy(s) && MonitorNext(c, s, m, ReportIt).pc.Changed?
    ensures OrderlyInv(MonitorStep(c, s, m, ReportIt))
  {
    var r := MonitorStep(c, s, m, ReportIt);
    assert Handling(r.threads[m].pc);
    assert forall x | x in s.threads :: !Handling(s.threads[x].pc);
  }

  lemma CommitOrderly(c: Config, s: State, m: MonitorId)
    requires OrderlyInv(s) && MonitorCan(s, m, Commit) && SameHealth(s, MonitorEffect(c, s, m, Commit))
    ensures OrderlyInv(MonitorStep(c, s, m, Commit))
  {
    var r := MonitorStep(c, s, m, Commit);
    assert Handling(s.threads[m].pc);
    assert ScanOk(s, s.threads[m].pc);
    forall x | x in r.threads ensures ScanOk(r, r.threads[x].pc) {
      if x != m {
        SameHealthScan(s, r, s.threads[x].pc);
      }
    }
  }

  /** All other steps neither start nor end the handling of a turn. */
  lemma HandlingGoesOn(c: Config, s: State, m: MonitorId, act: MonitorAct)
    requires MonitorCan(s, m, act) && !act.Commit? && !(act.ReportIt? && MonitorNext(c, s, m, act).pc.Changed?)
    ensures Handling(MonitorNext(c, s, m, act).pc) == Handling(s.threads[m].pc)
  {
  }

  lemma OwnScan(c: Config, s: State, m: MonitorId, act: MonitorAct)
    requires OrderlyInv(s) && MonitorCan(s, m, act)
    ensures ScanOk(s, MonitorNext(c, s, m, act).pc)
  {
    assert ScanOk(s, s.threads[m].pc);
    if act.Scan? {
      var pc := s.threads[m].pc;
      assert Healthy(s, s.pool[pc.i]) == B(s.backends, pc.seen[pc.i]).health.healthy;
    }
  }

  lemma QuietMonitorOrderly(c: Config, s: State, m: MonitorId, act: MonitorAct)
    requires OrderlyInv(s) && MonitorCan(s, m, act) && !act.Commit?
    requires SameHealth(s, MonitorEffect(c, s, m, act))
    requires Handling(MonitorNext(c, s, m, act).pc) == Handling(s.threads[m].pc)
    requires ScanOk(s, MonitorNext(c, s, m, act).pc)
    ensures OrderlyInv(MonitorStep(c, s, m, act))
  {
    var r := MonitorStep(c, s, m, act);
    MonitorFlag(c, s, m, act);
    assert SameHealth(s, r);
    forall x | x in r.threads ensures ScanOk(r, r.threads[x].pc) {
      SameHealthScan(s, r, if x == m then MonitorNext(c, s, m, act).pc else s.threads[x].pc);
    }
    assert forall x | x in r.threads :: Handling(r.threads[x].pc) == Handling(s.threads[x].pc);
    assert Busy(r) == Busy(s) by {
      if Busy(s) {
        var x :| x in s.threads && Handling(s.threads[x].pc);
        assert x in r.threads && Handling(r.threads[x].pc);
      }
    }
  }

  lemma MonitorOrderly(c: Config, s: State, m: MonitorId, act: MonitorAct)
    requires OrderlyInv(s) && MonitorCan(s, m, act) && Orderly(c, s, OfMonitor(m, act))
    ensures OrderlyInv(MonitorStep(c, s, m, act))
  {
    var pc, pc' := s.threads[m].pc, MonitorNext(c, s, m, act).pc;
    if act.ReportIt? && pc'.Changed? {
      TurnOrderly(c, s, m);
    } else {
      MonitorHealthy(c, s, m, act);
      if act.Commit? {
        CommitOrderly(c, s, m);
      } else {
        HandlingGoesOn(c, s, m, act);
        OwnScan(c, s, m, act);
        QuietMonitorOrderly(c, s, m, act);
      }
    }
  }

  lemma ActOrderly(c: Config, s: State, a: Action)
    requires MonitorInv(s) && OrderlyInv(s) && Can(s, a) && Orderly(c, s, a)
    ensures OrderlyInv(Act(c, s, a))
  {
    match a
    case OfHandler(h, act) =>
      HandlerHealthy(s, h, act);
      AsideStep(s, HandlerStep(s, h, act));
    case OfPoller(act) =>
      PollerHealthy(s, act);
      AsideStep(s, PollerStep(s, act));
    case OfChecker(act) => CheckerOrderly(s, act);
    case OfMonitor(m, act) => MonitorOrderly(c, s, m, act);
  }

  lemma OrderlyStep(c: Config, s: State, a: Action)
    requires MonitorInv(s) && OrderlyInv(s) && Can(s, a) && Orderly(c, s, a)
    ensures OrderlyInv(Step(c, s, a))
  {
    ActOrderly(c, s, a);
    AsideStep(Act(c, s, a), Step(c, s, a));
  }

  lemma {:induction false} OrderlyReached(c: Config, addrs: seq<string>, run: seq<Action>, s: State)
    requires Run(c, addrs, run) == Some(s) && OneAtATime(c, addrs, run) && addrs != []
    ensures OrderlyInv(s)
    decreases |run|
  {
    if run != [] {
      var before := Run(c, addrs, run[..|run| - 1]).value;
      OrderlyReached(c, addrs, run[..|run| - 1], before);
      MonitorsReached(c, addrs, run[..|run| - 1], before);
      OrderlyStep(c, before, run[|run| - 1]);
    } else {
      assert Healthy(s, s.pool[0]);
    }
  }

  /**
   With transitions handled one at a time on an unchanged non-empty pool, the flag tells between transitions
   exactly whether no backend is healthy.
   */
  lemma FlagIsExact(c: Config, addrs: seq<string>, run: seq<Action>, s: State)
    requires Run(c, addrs, run) == Some(s) && OneAtATime(c, addrs, run) && addrs != []
    requires forall m | m in s.threads :: !Handling(s.threads[m].pc)
    ensures s.degraded <==> forall b | b in s.pool :: !B(s.backends, b).health.healthy
  {
    OrderlyReached(c, addrs, run, s);
    assert !Busy(s);
    if NoneHealthy(s) {
      forall b | b in s.pool ensures !B(s.backends, b).health.healthy {
        var i :| 0 <= i < |s.pool| && s.pool[i] == b;
        assert !Healthy(s, s.pool[i]);
      }
    } else {
      var i :| 0 <= i < |s.pool| && Healthy(s, s.pool[i]);
      assert s.pool[i] in s.pool;
    }
  }
}

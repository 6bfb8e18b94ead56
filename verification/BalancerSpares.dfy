/**
 The dual of drain safety: nobody cuts the connections of a backend that is healthy and in the pool.
 */
module BalancerSpares {
  import opened Balancer
  import opened BalancerConns
  import opened BalancerDrain
  import opened BalancerMonitors
  import opened BalancerRefs
  import opened Options

  /** About to take the snapshot of a drain, or working it off. */
  predicate Cutting(pc: MonitorPc) {
    pc.Snapshotting? || pc.Draining?
  }

  ghost predicate CutsOk(s: State) {
    forall m | m in s.threads && Cutting(s.threads[m].pc) :: !B(s.backends, m.backend).health.healthy
  }

  // ---------------------------------------------------------------- frames

  predicate ReportsOn(a: Action, b: BackendId) {
    a.OfMonitor? && a.mact.ReportIt? && a.m.backend == b
  }

  lemma MonitorKeepsHealth(c: Config, s: State, m: MonitorId, act: MonitorAct, b: BackendId)
    requires MonitorCan(s, m, act) && !ReportsOn(OfMonitor(m, act), b)
    ensures B(MonitorEffect(c, s, m, act).backends, b).health == B(s.backends, b).health
  {
  }

  lemma HealthStays(c: Config, s: State, a: Action, b: BackendId)
    requires Refs(s) && Can(s, a) && !ReportsOn(a, b)
    ensures B(Act(c, s, a).backends, b).health == B(s.backends, b).health
  {
    match a
    case OfHandler(h, act) => HandlerHealth(s, h, act, b);
    case OfMonitor(m, act) => MonitorKeepsHealth(c, s, m, act, b);
    case OfChecker(_) =>
    case OfPoller(act) =>
      if act.Set? {
        SetAddrsFrame(s, act.addrs, b);
      } else {
        PollerHealth(s, act, b);
      }
  }

  lemma OwnCuts(c: Config, s: State, m: MonitorId, act: MonitorAct)
    requires MonitorCan(s, m, act) && CutsOk(s) && Cutting(MonitorNext(c, s, m, act).pc)
    ensures !B(s.backends, m.backend).health.healthy && !act.ReportIt?
  {
  }

  // ---------------------------------------------------------------- every step

  lemma CutsStep(c: Config, s: State, a: Action)
    requires Refs(s) && MonitorInv(s) && CutsOk(s) && Can(s, a)
    ensures CutsOk(Step(c, s, a))
  {
    var r := Act(c, s, a);
    forall m | m in r.threads && Cutting(r.threads[m].pc) ensures !B(r.backends, m.backend).health.healthy {
      if a.OfMonitor? && a.m == m {
        OwnCuts(c, s, m, a.mact);
      } else {
        OtherThread(c, s, a, m);
        assert a.OfMonitor? ==> a.m.backend != m.backend;
      }
      HealthStays(c, s, a, m.backend);
    }
  }

  lemma {:induction false} CutsReached(c: Config, addrs: seq<string>, run: seq<Action>, s: State)
    requires Run(c, addrs, run) == Some(s)
    ensures CutsOk(s)
    decreases |run|
  {
    if run != [] {
      var before := Run(c, addrs, run[..|run| - 1]).value;
      CutsReached(c, addrs, run[..|run| - 1], before);
      InvReached(c, addrs, run[..|run| - 1], before);
      MonitorsReached(c, addrs, run[..|run| - 1], before);
      CutsStep(c, before, run[|run| - 1]);
    }
  }

  // ---------------------------------------------------------------- who takes a connection out

  /** The connection h leaves the set of backend b. */
  predicate Leaves(s: State, r: State, b: BackendId, h: HandlerId) {
    h in B(s.backends, b).conns && h !in B(r.backends, b).conns
  }

  lemma HandlerTakesOwn(s: State, h: HandlerId, act: HandlerAct, b: BackendId, g: HandlerId)
    requires HandlerCan(s, h, act) && Leaves(s, HandlerStep(s, h, act), b, g)
    ensures g == h && act.Unregister?
  {
  }

  lemma MonitorTakes(c: Config, s: State, m: MonitorId, act: MonitorAct, b: BackendId, h: HandlerId)
    requires MonitorCan(s, m, act) && Leaves(s, MonitorEffect(c, s, m, act), b, h)
    ensures s.threads[m].pc.Draining? && s.threads[m].pc.drain.of == b
  {
  }

  lemma PollerTakes(s: State, act: PollerAct, b: BackendId, h: HandlerId)
    requires PollerCan(s, act) && !act.Set? && Leaves(s, PollerEffect(s, act), b, h)
    ensures s.poller.Sweeping? && s.poller.drain.of == b
  {
  }

  /** Whoever takes a connection out: its own handler, a drain by the backend's monitor, or the removal drain. */
  lemma WhoTakes(c: Config, s: State, a: Action, b: BackendId, h: HandlerId)
    requires Refs(s) && Inv(s) && Can(s, a) && Leaves(s, Act(c, s, a), b, h)
    ensures
      || a == OfHandler(h, Unregister)
      || (a.OfMonitor? && a.m.backend == b && s.threads[a.m].pc.Draining?)
      || (s.poller.Sweeping? && s.poller.drain.of == b)
  {
    match a
    case OfHandler(g, act) => HandlerTakesOwn(s, g, act, b, h);
    case OfMonitor(m, act) => MonitorTakes(c, s, m, act, b, h);
    case OfChecker(_) =>
    case OfPoller(act) =>
      if act.Set? {
        SetAddrsFrame(s, act.addrs, b);
      } else {
        PollerTakes(s, act, b, h);
      }
  }

  /** In every reachable state a monitor that drains, or is about to, watches an unhealthy backend. */
  lemma CutsOnlyUnhealthy(c: Config, addrs: seq<string>, run: seq<Action>, s: State, m: MonitorId)
    requires Run(c, addrs, run) == Some(s) && m in s.threads && Cutting(s.threads[m].pc)
    ensures !B(s.backends, m.backend).health.healthy
  {
    CutsReached(c, addrs, run, s);
  }

  /** So a connection of a healthy backend in the pool leaves the backend's set by its own handler only. */
  lemma HealthyAreSpared(c: Config, addrs: seq<string>, run: seq<Action>, s: State, a: Action,
                         b: BackendId, h: HandlerId)
    requires Run(c, addrs, run) == Some(s) && Can(s, a) && Leaves(s, Act(c, s, a), b, h)
    requires B(s.backends, b).health.healthy && b in s.pool
    ensures a == OfHandler(h, Unregister)
  {
    CutsReached(c, addrs, run, s);
    InvReached(c, addrs, run, s);
    ProvenanceReached(c, addrs, run, s);
    WhoTakes(c, s, a, b, h);
  }
}

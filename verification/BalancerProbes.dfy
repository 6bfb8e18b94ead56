/**
 Health in every interleaving: a backend is what the fall/rise machine makes of the probes of its monitor, each
 reported once, and a turn is handled exactly when a report has brought it about.
 */
module BalancerProbes {
  import opened Balancer
  import opened BalancerConns
  import opened BalancerMonitors
  import opened BalancerRefs
  import opened BalancerSpares
  import opened BalancerSweeps
  import opened Hysteresis
  import opened Options

  /** A probe that has come back before its monitor was cancelled. */
  predicate Counts(s: State, a: Action, b: BackendId)
    requires Can(s, a)
  {
    a.OfMonitor? && a.mact.Probe? && a.m.backend == b && !s.threads[a.m].cancelled
  }

  /** The results of the probes of a backend, oldest first. */
  ghost function Probed(c: Config, addrs: seq<string>, run: seq<Action>, b: BackendId): seq<bool>
    requires Run(c, addrs, run).Some?
  {
    if run == [] then []
    else
      var init, a := run[..|run| - 1], run[|run| - 1];
      var before := Run(c, addrs, init).value;
      Probed(c, addrs, init, b) + if Counts(before, a, b) then [a.mact.ok] else []
  }

  /** The health once the probe that is still to be reported, if there is one, has been. */
  function Due(c: Config, health: Backends.Health, pc: MonitorPc): Backends.Health {
    if pc.Checked? then Backends.Report(health, pc.ok, c.fall, c.rise).0 else health
  }

  ghost predicate Watched(s: State, b: BackendId) {
    exists m | m in s.threads :: m.backend == b
  }

  ghost predicate ProbesOk(c: Config, s: State, b: BackendId, probed: seq<bool>) {
    && (!Watched(s, b) ==> After(probed, c.fall, c.rise) == B(s.backends, b).health)
    && (forall m | m in s.threads && m.backend == b ::
          After(probed, c.fall, c.rise) == Due(c, B(s.backends, b).health, s.threads[m].pc))
  }

  // ---------------------------------------------------------------- every step

  lemma AfterOneMore(h: seq<bool>, ok: bool, fall: nat, rise: nat)
    ensures After(h + [ok], fall, rise) == Backends.Report(After(h, fall, rise), ok, fall, rise).0
  {
    assert (h + [ok])[..|h|] == h;
  }

  lemma MonitorHealthNext(c: Config, s: State, m: MonitorId, act: MonitorAct)
    requires MonitorCan(s, m, act)
    ensures var x, y := B(s.backends, m.backend).health, B(MonitorEffect(c, s, m, act).backends, m.backend).health;
      var pc, next := s.threads[m].pc, MonitorNext(c, s, m, act).pc;
      && (act.ReportIt? ==> pc.Checked? && y == Backends.Report(x, pc.ok, c.fall, c.rise).0 && !next.Checked?)
      && (act.Probe? ==>
            && y == x && !pc.Checked?
            && next == if s.threads[m].cancelled then Waiting else Checked(act.ok))
      && (!act.ReportIt? && !act.Probe? ==> y == x && !pc.Checked? && !next.Checked?)
  {
  }

  lemma OwnProbes(c: Config, s: State, m: MonitorId, act: MonitorAct, probed: seq<bool>)
    requires MonitorCan(s, m, act) && ProbesOk(c, s, m.backend, probed)
    ensures var more := probed + if Counts(s, OfMonitor(m, act), m.backend) then [act.ok] else [];
      After(more, c.fall, c.rise) ==
        Due(c, B(MonitorEffect(c, s, m, act).backends, m.backend).health, MonitorNext(c, s, m, act).pc)
  {
    MonitorHealthNext(c, s, m, act);
    if Counts(s, OfMonitor(m, act), m.backend) {
      AfterOneMore(probed, act.ok, c.fall, c.rise);
    } else {
      assert probed + [] == probed;
    }
  }

  lemma NewIsFirst(c: Config, s: State, a: Action, m: MonitorId)
    requires MonitorInv(s) && Can(s, a) && m in Act(c, s, a).threads && m !in s.threads
    ensures !Watched(s, m.backend)
  {
    OnlyReconcileStarts(c, s, a, m);
    NewlyMonitored(s, m);
  }

  /** The threads of a backend after a step of someone else. */
  lemma OthersProbes(c: Config, s: State, a: Action, b: BackendId, probed: seq<bool>)
    requires Refs(s) && MonitorInv(s) && Can(s, a) && ProbesOk(c, s, b, probed)
    requires !(a.OfMonitor? && a.m.backend == b)
    ensures ProbesOk(c, Step(c, s, a), b, probed)
  {
    HealthStays(c, s, a, b);
    StepKeepsThreads(c, s, a);
    var r := Step(c, s, a);
    forall m | m in r.threads && m.backend == b
      ensures After(probed, c.fall, c.rise) == Due(c, B(r.backends, b).health, r.threads[m].pc)
    {
      if m in s.threads {
        OtherStays(c, s, a, m);
      } else {
        OtherThread(c, s, a, m);
        NewIsFirst(c, s, a, m);
      }
    }
    if Watched(s, b) {
      var m :| m in s.threads && m.backend == b;
      assert m in r.threads;
    }
  }

  lemma ProbesStep(c: Config, s: State, a: Action, b: BackendId, probed: seq<bool>)
    requires Refs(s) && MonitorInv(s) && Can(s, a) && ProbesOk(c, s, b, probed)
    ensures ProbesOk(c, Step(c, s, a), b, probed + if Counts(s, a, b) then [a.mact.ok] else [])
  {
    if a.OfMonitor? && a.m.backend == b {
      OwnProbes(c, s, a.m, a.mact, probed);
      assert a.m in Step(c, s, a).threads;
    } else {
      OthersProbes(c, s, a, b, probed);
      assert probed + [] == probed;
    }
  }

  lemma {:induction false} ProbesReached(c: Config, addrs: seq<string>, run: seq<Action>, s: State, b: BackendId)
    requires Run(c, addrs, run) == Some(s)
    ensures ProbesOk(c, s, b, Probed(c, addrs, run, b))
    decreases |run|
  {
    if run != [] {
      var init, a := run[..|run| - 1], run[|run| - 1];
      var before := Run(c, addrs, init).value;
      ProbesReached(c, addrs, init, before, b);
      InvReached(c, addrs, init, before);
      MonitorsReached(c, addrs, init, before);
      ProbesStep(c, before, a, b, Probed(c, addrs, init, b));
    }
  }

  // ---------------------------------------------------------------- the theorems

  /**
   Whatever interleaves, and while no result is waiting to be reported, a backend is unhealthy exactly when in
   the history of its probes a run of fall failures has had no answer by a later run of rise successes.
   */
  lemma ProbesDecide(c: Config, addrs: seq<string>, run: seq<Action>, s: State, b: BackendId)
    requires Run(c, addrs, run) == Some(s) && c.fall >= 1 && c.rise >= 1
    requires forall m | m in s.threads && m.backend == b :: !s.threads[m].pc.Checked?
    ensures B(s.backends, b).health == After(Probed(c, addrs, run, b), c.fall, c.rise)
    ensures !B(s.backends, b).health.healthy <==> Down(Probed(c, addrs, run, b), c.fall, c.rise)
  {
    ProbesReached(c, addrs, run, s, b);
    HealthIsHistory(Probed(c, addrs, run, b), c.fall, c.rise);
  }

  /** A report sends its monitor on to handle a turn exactly if it has turned the backend. */
  lemma TurnsAreHandled(c: Config, s: State, m: MonitorId)
    requires MonitorCan(s, m, ReportIt)
    ensures var r := MonitorStep(c, s, m, ReportIt);
      && (r.threads[m].pc.Changed? <==>
            (B(r.backends, m.backend).health.healthy != B(s.backends, m.backend).health.healthy))
      && (r.threads[m].pc.Changed? || r.threads[m].pc.Waiting?)
  {
  }
}

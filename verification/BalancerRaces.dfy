/** Interleavings that show how far the claims about drains, counters and the best-effort flag may go. */
module BalancerRaces {
  import opened Backends
  import opened Balancer
  import opened Options

  const ONE_STRIKE := Config(1, 1)
  const M0 := MonitorId(0, 0)
  const DEAD := Health(false, 0, 0)

  lemma Then(c: Config, addrs: seq<string>, run: seq<Action>, s: State, a: Action)
    returns (longer: seq<Action>, r: State)
    requires Run(c, addrs, run) == Some(s) && Can(s, a)
    ensures Run(c, addrs, longer) == Some(r) && r == Step(c, s, a) && longer == run + [a]
  {
    longer, r := run + [a], Step(c, s, a);
    Extend(c, addrs, run, a);
  }

  // ---------------------------------------------------------------- one backend

  /** The pool is one backend, and its monitor is the only thread of the checker. */
  predicate Single(s: State, pc: MonitorPc) {
    s.pool == [0] && s.threads == map[M0 := Monitor(pc, false, 0)] && s.poller == Idle && s.nextBackend == 1
  }

  lemma AddedZero(s: State)
    requires s.monitors == map[] && s.round == 0
    ensures Added(s, {0}) == map[0 := M0] && Added(s, {0}).Values == {M0}
  {
    assert Added(s, {0})[0] in Added(s, {0}).Values;
  }

  lemma Watched() returns (run: seq<Action>, s: State)
    ensures Run(ONE_STRIKE, ["a"], run) == Some(s) && Single(s, Probing)
    ensures B(s.backends, 0) == NEW_BACKEND.(addr := "a") && s.handlers == map[] && s.released == {} && !s.degraded
  {
    run, s := [], Start(["a"]);
    assert s.pool == [0];
    run, s := Then(ONE_STRIKE, ["a"], run, s, OfChecker(CopyForReconcile));
    assert 0 in s.pool;
    assert s.checker.current == {0} && s.monitors == map[] && s.round == 0;
    AddedZero(s);
    run, s := Then(ONE_STRIKE, ["a"], run, s, OfChecker(Reconcile));
  }

  lemma PoolCopied(run: seq<Action>, s: State) returns (longer: seq<Action>, r: State)
    requires Run(ONE_STRIKE, ["a"], run) == Some(s) && Single(s, Probing) && s.handlers == map[]
    ensures Run(ONE_STRIKE, ["a"], longer) == Some(r) && Single(r, Probing)
    ensures r.backends == s.backends && r.released == s.released
    ensures H(r.handlers, 0) == NEW_HANDLER.(pc := Reading(0, []), seen := [0], copiedAt := s.clock)
  {
    longer, r := Then(ONE_STRIKE, ["a"], run, s, OfHandler(0, CopyPool));
  }

  lemma HealthRead(run: seq<Action>, s: State, copiedAt: nat) returns (longer: seq<Action>, r: State)
    requires Run(ONE_STRIKE, ["a"], run) == Some(s) && Single(s, Probing) && B(s.backends, 0).health == FRESH
    requires H(s.handlers, 0) == NEW_HANDLER.(pc := Reading(0, []), seen := [0], copiedAt := copiedAt)
    ensures Run(ONE_STRIKE, ["a"], longer) == Some(r) && Single(r, Probing)
    ensures r.backends == s.backends && r.released == s.released
    ensures H(r.handlers, 0).pc == Reading(1, [0]) && H(r.handlers, 0).seen == [0]
  {
    longer, r := Then(ONE_STRIKE, ["a"], run, s, OfHandler(0, ReadHealth));
  }

  /** Handler 0 copies the pool, reads the backend healthy and is about to dial it. */
  lemma Chosen(run: seq<Action>, s: State) returns (longer: seq<Action>, r: State)
    requires Run(ONE_STRIKE, ["a"], run) == Some(s) && Single(s, Probing)
    requires B(s.backends, 0).health == FRESH && s.handlers == map[]
    ensures Run(ONE_STRIKE, ["a"], longer) == Some(r) && Single(r, Probing)
    ensures r.backends == s.backends && r.released == s.released
    ensures H(r.handlers, 0).pc == Dialing([0], 0) && !H(r.handlers, 0).bestEffort
  {
    longer, r := PoolCopied(run, s);
    longer, r := HealthRead(longer, r, s.clock);
    longer, r := Then(ONE_STRIKE, ["a"], longer, r, OfHandler(0, Choose([0])));
  }

  lemma Connected(run: seq<Action>, s: State) returns (longer: seq<Action>, r: State)
    requires Run(ONE_STRIKE, ["a"], run) == Some(s)
    requires H(s.handlers, 0).pc == Dialing([0], 0)
    ensures Run(ONE_STRIKE, ["a"], longer) == Some(r)
    ensures r.pool == s.pool && r.threads == s.threads && r.poller == s.poller && r.nextBackend == s.nextBackend
    ensures r.released == s.released
    ensures var x := B(s.backends, 0);
      B(r.backends, 0) == x.(total := x.total + 1, conns := x.conns + {0}, pending := x.pending + {0} - {0})
  {
    longer, r := Then(ONE_STRIKE, ["a"], run, s, OfHandler(0, DialSucceeds));
    longer, r := Then(ONE_STRIKE, ["a"], longer, r, OfHandler(0, Register));
  }

  /** One failed probe turns the backend unhealthy. */
  lemma Struck(run: seq<Action>, s: State) returns (longer: seq<Action>, r: State)
    requires Run(ONE_STRIKE, ["a"], run) == Some(s) && Single(s, Probing) && B(s.backends, 0).health == FRESH
    ensures Run(ONE_STRIKE, ["a"], longer) == Some(r) && Single(r, Changed)
    ensures B(r.backends, 0) == B(s.backends, 0).(health := DEAD, downAt := s.clock + 1)
    ensures r.handlers == s.handlers && r.released == s.released && r.clock == s.clock + 2 && r.degraded == s.degraded
  {
    longer, r := Then(ONE_STRIKE, ["a"], run, s, OfMonitor(M0, Probe(false)));
    longer, r := Then(ONE_STRIKE, ["a"], longer, r, OfMonitor(M0, ReportIt));
  }

  /** Its monitor notices and copies the connections. */
  lemma TakenDown(run: seq<Action>, s: State) returns (longer: seq<Action>, r: State)
    requires Run(ONE_STRIKE, ["a"], run) == Some(s) && Single(s, Probing)
    requires B(s.backends, 0).health == FRESH && !B(s.backends, 0).overlapped
    ensures Run(ONE_STRIKE, ["a"], longer) == Some(r)
    ensures var x := B(s.backends, 0);
      && Single(r, Draining(Drain(0, s.clock + 3, x.conns, x.conns, None)))
      && B(r.backends, 0) == x.(health := DEAD, downAt := s.clock + 1)
    ensures r.handlers == s.handlers && r.released == s.released && r.clock == s.clock + 4 && r.degraded == s.degraded
  {
    longer, r := Struck(run, s);
    longer, r := Then(ONE_STRIKE, ["a"], longer, r, OfMonitor(M0, Look));
    longer, r := Then(ONE_STRIKE, ["a"], longer, r, OfMonitor(M0, Copy));
  }

  /**
   "An unhealthy backend has no connections" fails: a handler that read the backend healthy connects after
   the drain that followed the turn has returned.
   */
  lemma StaleConnection() returns (run: seq<Action>, s: State)
    ensures Run(ONE_STRIKE, ["a"], run) == Some(s)
    ensures var x := B(s.backends, 0);
      !x.health.healthy && x.sweptAt.Some? && x.downAt < x.sweptAt.value && x.conns == {0}
  {
    run, s := Watched();
    run, s := Chosen(run, s);
    run, s := TakenDown(run, s);
    run, s := Then(ONE_STRIKE, ["a"], run, s, OfMonitor(M0, DrainReturns));
    run, s := Connected(run, s);
  }

  lemma Removed(run: seq<Action>, s: State) returns (longer: seq<Action>, r: State)
    requires Run(ONE_STRIKE, ["a"], run) == Some(s) && s.pool == [0] && s.poller == Idle && s.nextBackend == 1
    requires B(s.backends, 0).addr == "a" && B(s.backends, 0).conns == {0} && 0 !in s.released
    ensures Run(ONE_STRIKE, ["a"], longer) == Some(r)
    ensures r.threads == s.threads && 0 in r.released
    ensures B(r.backends, 0).drained == B(s.backends, 0).drained + 1 && B(r.backends, 0).total == B(s.backends, 0).total
  {
    assert NotKept(s, [0], ["b"]) == [0];
    longer, r := Then(ONE_STRIKE, ["a"], run, s, OfPoller(Set(["b"])));
    assert B(r.backends, 0).conns == {0};
    longer, r := Then(ONE_STRIKE, ["a"], longer, r, OfPoller(CopyRemoved));
    longer, r := Then(ONE_STRIKE, ["a"], longer, r, OfPoller(SweepIt(Take(0))));
    longer, r := Then(ONE_STRIKE, ["a"], longer, r, OfPoller(SweepIt(CloseIt)));
    longer, r := Then(ONE_STRIKE, ["a"], longer, r, OfPoller(SweepReturns));
  }

  lemma MonitorSweeps(run: seq<Action>, s: State) returns (longer: seq<Action>, r: State)
    requires Run(ONE_STRIKE, ["a"], run) == Some(s) && 0 in s.released
    requires M0 in s.threads && s.threads[M0].pc.Draining?
    requires var d := s.threads[M0].pc.drain; d.of == 0 && d.snapshot == {0} && d.todo == {0} && d.closing.None?
    ensures Run(ONE_STRIKE, ["a"], longer) == Some(r)
    ensures B(r.backends, 0).drained == B(s.backends, 0).drained + 1 && B(r.backends, 0).total == B(s.backends, 0).total
  {
    longer, r := Then(ONE_STRIKE, ["a"], run, s, OfMonitor(M0, DrainIt(Take(0))));
    longer, r := Then(ONE_STRIKE, ["a"], longer, r, OfMonitor(M0, DrainIt(CloseIt)));
    longer, r := Then(ONE_STRIKE, ["a"], longer, r, OfMonitor(M0, DrainReturns));
  }

  /** Drained exceeds ConnsTotal: both the monitor's drain and the removal drain have the connection. */
  lemma CountedTwice() returns (run: seq<Action>, s: State)
    ensures Run(ONE_STRIKE, ["a"], run) == Some(s)
    ensures B(s.backends, 0).total == 1 && B(s.backends, 0).drained == 2
  {
    run, s := Watched();
    run, s := Chosen(run, s);
    run, s := Connected(run, s);
    run, s := TakenDown(run, s);
    run, s := Removed(run, s);
    run, s := MonitorSweeps(run, s);
  }

  lemma Replaced(run: seq<Action>, s: State) returns (longer: seq<Action>, r: State)
    requires Run(ONE_STRIKE, ["a"], run) == Some(s) && s.pool == [0] && s.poller == Idle && s.nextBackend == 1
    requires B(s.backends, 0).addr == "a"
    ensures Run(ONE_STRIKE, ["a"], longer) == Some(r) && r.threads == s.threads && r.degraded == s.degraded
    ensures r.pool == [1] && B(r.backends, 1).health == FRESH
  {
    assert Instance(s, [0], "b") == None;
    assert Instances(s, ["b"], 1) == [1];
    longer, r := Then(ONE_STRIKE, ["a"], run, s, OfPoller(Set(["b"])));
  }

  lemma Returned(run: seq<Action>, s: State, d: Drain) returns (longer: seq<Action>, r: State)
    requires Run(ONE_STRIKE, ["a"], run) == Some(s) && Single(s, Draining(d)) && DrainOver(d) && d.of == 0
    ensures Run(ONE_STRIKE, ["a"], longer) == Some(r) && Single(r, Counting)
    ensures B(r.backends, 0).health == B(s.backends, 0).health && B(r.backends, 0).addr == B(s.backends, 0).addr
  {
    longer, r := Then(ONE_STRIKE, ["a"], run, s, OfMonitor(M0, DrainReturns));
  }

  lemma Recounting(run: seq<Action>, s: State, d: Drain) returns (longer: seq<Action>, r: State)
    requires Run(ONE_STRIKE, ["a"], run) == Some(s) && Single(s, Draining(d)) && DrainOver(d) && d.of == 0
    ensures Run(ONE_STRIKE, ["a"], longer) == Some(r) && Single(r, Scanning([0], 0, false))
    ensures B(r.backends, 0).health == B(s.backends, 0).health && B(r.backends, 0).addr == B(s.backends, 0).addr
  {
    longer, r := Returned(run, s, d);
    longer, r := Then(ONE_STRIKE, ["a"], longer, r, OfMonitor(M0, CopyForCount));
  }

  lemma Recounted(run: seq<Action>, s: State) returns (longer: seq<Action>, r: State)
    requires Run(ONE_STRIKE, ["a"], run) == Some(s) && Single(s, Scanning([0], 0, false))
    requires !B(s.backends, 0).health.healthy
    ensures Run(ONE_STRIKE, ["a"], longer) == Some(r) && Single(r, Committing(true)) && r.backends == s.backends
  {
    longer, r := Then(ONE_STRIKE, ["a"], run, s, OfMonitor(M0, Scan));
    longer, r := Then(ONE_STRIKE, ["a"], longer, r, OfMonitor(M0, ScanReturns));
  }

  lemma Committed(run: seq<Action>, s: State, d: Drain) returns (longer: seq<Action>, r: State)
    requires Run(ONE_STRIKE, ["a"], run) == Some(s) && Single(s, Draining(d)) && DrainOver(d) && d.of == 0
    requires !B(s.backends, 0).health.healthy && B(s.backends, 0).addr == "a"
    ensures Run(ONE_STRIKE, ["a"], longer) == Some(r) && Single(r, Waiting)
    ensures r.degraded && B(r.backends, 0).addr == "a"
  {
    longer, r := Recounting(run, s, d);
    longer, r := Recounted(longer, r);
    longer, r := Then(ONE_STRIKE, ["a"], longer, r, OfMonitor(M0, Commit));
  }

  /** The flag still says that no backend is healthy after discovery has replaced the dead one by a fresh one. */
  lemma FlagOutlivesPool() returns (run: seq<Action>, s: State)
    ensures Run(ONE_STRIKE, ["a"], run) == Some(s)
    ensures s.degraded && forall b | b in s.pool :: B(s.backends, b).health.healthy
    ensures s.pool != [] && forall m | m in s.threads :: s.threads[m].pc.Waiting?
  {
    run, s := Watched();
    run, s := TakenDown(run, s);
    run, s := Committed(run, s, s.threads[M0].pc.drain);
    run, s := Replaced(run, s);
  }

  // ---------------------------------------------------------------- two backends

  const BOTH := ["a", "b"]
  const M1 := MonitorId(0, 1)

  /** What the flag depends on has not changed, but for one thread. */
  predicate OnlyThread(s: State, r: State, m: MonitorId, pc: MonitorPc) {
    r.pool == s.pool && r.threads == s.threads[m := Monitor(pc, false, 0)]
  }

  lemma AddedBoth(s: State)
    requires s.monitors == map[] && s.round == 0
    ensures Added(s, {0, 1}) == map[0 := M0, 1 := M1] && Added(s, {0, 1}).Values == {M0, M1}
  {
    assert Added(s, {0, 1})[0] in Added(s, {0, 1}).Values;
    assert Added(s, {0, 1})[1] in Added(s, {0, 1}).Values;
  }

  lemma TwoElements(pool: seq<BackendId>)
    requires pool == [0, 1]
    ensures (set b | b in pool) == {0, 1}
  {
    assert 0 in pool && 1 in pool;
  }

  lemma BothCopied() returns (run: seq<Action>, s: State)
    ensures Run(ONE_STRIKE, BOTH, run) == Some(s) && s.pool == [0, 1] && !s.degraded && s.changes == []
    ensures s.checker == Reconciling({0, 1}) && s.monitors == map[] && s.threads == map[]
    ensures s.round == 0 && !s.cancelled
    ensures B(s.backends, 0) == NEW_BACKEND.(addr := "a") && B(s.backends, 1) == NEW_BACKEND.(addr := "b")
  {
    run, s := [], Start(BOTH);
    assert s.pool == [0, 1];
    var before := s;
    run, s := Then(ONE_STRIKE, BOTH, run, s, OfChecker(CopyForReconcile));
    TwoElements(before.pool);
  }

  lemma BothStarted(s: State)
    requires s.monitors == map[] && s.threads == map[] && s.round == 0 && !s.cancelled
    ensures Running(s, {0, 1}) + Started(s, {0, 1})
      == map[M0 := Monitor(Probing, false, 0), M1 := Monitor(Probing, false, 0)]
  {
    AddedBoth(s);
  }

  lemma BothWatched() returns (run: seq<Action>, s: State)
    ensures Run(ONE_STRIKE, BOTH, run) == Some(s) && s.pool == [0, 1] && !s.degraded && s.changes == []
    ensures s.threads == map[M0 := Monitor(Probing, false, 0), M1 := Monitor(Probing, false, 0)]
    ensures B(s.backends, 0) == NEW_BACKEND.(addr := "a") && B(s.backends, 1) == NEW_BACKEND.(addr := "b")
  {
    run, s := BothCopied();
    BothStarted(s);
    run, s := Then(ONE_STRIKE, BOTH, run, s, OfChecker(Reconcile));
  }

  lemma Failed(run: seq<Action>, s: State, m: MonitorId) returns (longer: seq<Action>, r: State)
    requires Run(ONE_STRIKE, BOTH, run) == Some(s) && m in s.threads && s.threads[m] == Monitor(Probing, false, 0)
    requires B(s.backends, m.backend).health == FRESH
    ensures Run(ONE_STRIKE, BOTH, longer) == Some(r) && OnlyThread(s, r, m, Changed)
    ensures r.degraded == s.degraded && r.changes == s.changes
    ensures forall b {:trigger B(r.backends, b)} ::
      && B(r.backends, b).health == (if b == m.backend then DEAD else B(s.backends, b).health)
      && B(r.backends, b).conns == B(s.backends, b).conns
  {
    longer, r := Then(ONE_STRIKE, BOTH, run, s, OfMonitor(m, Probe(false)));
    longer, r := Then(ONE_STRIKE, BOTH, longer, r, OfMonitor(m, ReportIt));
  }

  lemma Copied(run: seq<Action>, s: State, m: MonitorId) returns (longer: seq<Action>, r: State)
    requires Run(ONE_STRIKE, BOTH, run) == Some(s) && m in s.threads && s.threads[m] == Monitor(Changed, false, 0)
    requires !B(s.backends, m.backend).health.healthy && B(s.backends, m.backend).conns == {}
    ensures Run(ONE_STRIKE, BOTH, longer) == Some(r)
    ensures OnlyThread(s, r, m, Draining(Drain(m.backend, s.clock + 1, {}, {}, None)))
    ensures r.degraded == s.degraded && r.changes == s.changes
    ensures forall b {:trigger B(r.backends, b)} ::
      B(r.backends, b).health == B(s.backends, b).health && B(r.backends, b).conns == B(s.backends, b).conns
  {
    longer, r := Then(ONE_STRIKE, BOTH, run, s, OfMonitor(m, Look));
    longer, r := Then(ONE_STRIKE, BOTH, longer, r, OfMonitor(m, Copy));
  }

  lemma Drained(run: seq<Action>, s: State, m: MonitorId) returns (longer: seq<Action>, r: State)
    requires Run(ONE_STRIKE, BOTH, run) == Some(s) && m in s.threads && s.threads[m] == Monitor(Changed, false, 0)
    requires !B(s.backends, m.backend).health.healthy && B(s.backends, m.backend).conns == {}
    ensures Run(ONE_STRIKE, BOTH, longer) == Some(r) && OnlyThread(s, r, m, Counting)
    ensures r.degraded == s.degraded && r.changes == s.changes
    ensures forall b {:trigger B(r.backends, b)} ::
      B(r.backends, b).health == B(s.backends, b).health && B(r.backends, b).conns == B(s.backends, b).conns
  {
    longer, r := Copied(run, s, m);
    longer, r := Then(ONE_STRIKE, BOTH, longer, r, OfMonitor(m, DrainReturns));
  }

  lemma Scanned(run: seq<Action>, s: State, m: MonitorId) returns (longer: seq<Action>, r: State)
    requires Run(ONE_STRIKE, BOTH, run) == Some(s) && m in s.threads && s.threads[m] == Monitor(Counting, false, 0)
    requires s.pool == [0, 1]
    ensures var first := B(s.backends, 0).health.healthy;
      Run(ONE_STRIKE, BOTH, longer) == Some(r) && OnlyThread(s, r, m, Scanning([0, 1], 1, first))
    ensures r.backends == s.backends && r.degraded == s.degraded && r.changes == s.changes
  {
    longer, r := Then(ONE_STRIKE, BOTH, run, s, OfMonitor(m, CopyForCount));
    longer, r := Then(ONE_STRIKE, BOTH, longer, r, OfMonitor(m, Scan));
  }

  lemma Surveyed(run: seq<Action>, s: State, m: MonitorId) returns (longer: seq<Action>, r: State)
    requires Run(ONE_STRIKE, BOTH, run) == Some(s) && m in s.threads && s.threads[m] == Monitor(Counting, false, 0)
    requires s.pool == [0, 1]
    ensures var none := !B(s.backends, 0).health.healthy && !B(s.backends, 1).health.healthy;
      Run(ONE_STRIKE, BOTH, longer) == Some(r) && OnlyThread(s, r, m, Committing(none))
    ensures r.backends == s.backends && r.degraded == s.degraded && r.changes == s.changes
  {
    longer, r := Scanned(run, s, m);
    longer, r := Then(ONE_STRIKE, BOTH, longer, r, OfMonitor(m, Scan));
    longer, r := Then(ONE_STRIKE, BOTH, longer, r, OfMonitor(m, ScanReturns));
  }

  /** The first monitor is about to commit that some backend is healthy. */
  lemma FirstCounts() returns (run: seq<Action>, s: State)
    ensures Run(ONE_STRIKE, BOTH, run) == Some(s) && s.pool == [0, 1] && !s.degraded && s.changes == []
    ensures s.threads == map[M0 := Monitor(Committing(false), false, 0), M1 := Monitor(Probing, false, 0)]
    ensures B(s.backends, 0).health == DEAD && B(s.backends, 1).health == FRESH && B(s.backends, 1).conns == {}
  {
    run, s := BothWatched();
    run, s := Failed(run, s, M0);
    run, s := Drained(run, s, M0);
    run, s := Surveyed(run, s, M0);
  }

  lemma BothCommitted(run: seq<Action>, s: State) returns (longer: seq<Action>, r: State)
    requires Run(ONE_STRIKE, BOTH, run) == Some(s) && !s.degraded && s.changes == []
    requires s.threads == map[M0 := Monitor(Committing(false), false, 0), M1 := Monitor(Committing(true), false, 0)]
    ensures Run(ONE_STRIKE, BOTH, longer) == Some(r) && !r.degraded && r.changes == [true, false]
    ensures r.pool == s.pool && r.backends == s.backends
    ensures r.threads == map[M0 := Monitor(Waiting, false, 0), M1 := Monitor(Waiting, false, 0)]
  {
    longer, r := Then(ONE_STRIKE, BOTH, run, s, OfMonitor(M1, Commit));
    longer, r := Then(ONE_STRIKE, BOTH, longer, r, OfMonitor(M0, Commit));
  }

  /**
   On a pool that never changed the flag can end up wrong: the monitor that counted first, when the other
   backend was still healthy, commits last.
   */
  lemma StaleCommit() returns (run: seq<Action>, s: State)
    ensures Run(ONE_STRIKE, BOTH, run) == Some(s)
    ensures !s.degraded && forall b | b in s.pool :: !B(s.backends, b).health.healthy
    ensures s.pool != [] && forall m | m in s.threads :: s.threads[m].pc.Waiting?
    ensures s.changes == [true, false]
  {
    run, s := FirstCounts();
    run, s := Failed(run, s, M1);
    run, s := Drained(run, s, M1);
    run, s := Surveyed(run, s, M1);
    run, s := BothCommitted(run, s);
  }
}

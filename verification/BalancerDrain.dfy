/**
 Drain safety. A drain empties its snapshot; what it cannot catch was registered after the snapshot, by a
 handler that had read the backend healthy before the turn, had copied the pool before the removal, or
 found no backend healthy at all.
 */
module BalancerDrain {
  import opened Balancer
  import opened BalancerConns
  import opened BalancerMonitors
  import opened BalancerRefs
  import opened Options

  // ---------------------------------------------------------------- what a handler may connect to

  /** The backends that a handler may yet be, or is, connected to. */
  predicate MayReach(x: Handler, b: BackendId) {
    match x.pc
    case Reading(_, healthy) => b in healthy
    case Dialing(order, _) => b in order
    case Counted(to) => b == to
    case Piping(to) => b == to
    case Released(to) => b == to
    case _ => false
  }

  /** Best-effort mode is for handlers that have read every backend of their copy and none healthy. */
  ghost predicate ModeOk(x: Handler) {
    && (x.pc.Fresh? ==> x.readAt == map[])
    && (x.pc.Reading? ==> forall b | b in x.readAt :: b in x.pc.healthy)
    && (x.bestEffort ==> x.readAt == map[] && !x.pc.Fresh? && !x.pc.Reading?)
  }

  /** It found them in its copy of the pool, and read them healthy unless none was. */
  ghost predicate Justified(x: Handler) {
    && ModeOk(x)
    && (x.pc.Reading? ==> x.pc.i <= |x.seen|)
    && (forall b {:trigger MayReach(x, b)} | MayReach(x, b) ::
          b in x.seen && (b in x.readAt || x.bestEffort))
  }

  ghost predicate AllJustified(s: State) {
    forall h :: Justified(H(s.handlers, h))
  }

  /** A backend read healthy has been so until its last turn to unhealthy, at least. */
  ghost predicate ReadsPrecede(bs: BackendMap, clock: nat, x: Handler) {
    forall b | b in x.readAt ::
      x.readAt[b] < clock && (!B(bs, b).health.healthy ==> x.readAt[b] < B(bs, b).downAt)
  }

  ghost predicate ReadsOk(s: State) {
    forall h :: ReadsPrecede(s.backends, s.clock, H(s.handlers, h))
  }

  /** A backend copied from the pool has been in it until its removal. */
  ghost predicate CopyPrecedes(bs: BackendMap, pool: seq<BackendId>, clock: nat, x: Handler) {
    x.copiedAt < clock && forall b | b in x.seen && b !in pool :: x.copiedAt < B(bs, b).removedAt
  }

  ghost predicate CopiesOk(s: State) {
    forall h :: CopyPrecedes(s.backends, s.pool, s.clock, H(s.handlers, h))
  }

  // ---------------------------------------------------------------- when drains begin

  /** A monitor's drain begins after the turn it answers to. */
  ghost predicate DownsOk(s: State) {
    && (forall b :: B(s.backends, b).downAt < s.clock)
    && (forall m | m in s.threads && s.threads[m].pc.Draining? ::
          B(s.backends, m.backend).downAt < s.threads[m].pc.drain.at)
  }

  /** The poller's begins after the removal. */
  ghost predicate PollerOk(s: State, p: Poller) {
    && (p.Removing? ==> forall b | b in p.removed :: b !in s.pool)
    && (p.Sweeping? ==>
          && (forall b | b in p.removed :: b !in s.pool)
          && p.drain.of !in s.pool
          && B(s.backends, p.drain.of).removedAt < p.drain.at)
  }

  ghost predicate RemovalsOk(s: State) {
    (forall b :: B(s.backends, b).removedAt < s.clock) && PollerOk(s, s.poller)
  }

  ghost predicate Provenance(s: State) {
    AllJustified(s) && ReadsOk(s) && CopiesOk(s) && DownsOk(s) && RemovalsOk(s)
  }

  // ---------------------------------------------------------------- frames

  /** A backend turns unhealthy only by a report of its own monitor, which notes the time. */
  ghost predicate HealthMoves(s: State, b: BackendId, y: Backend) {
    var x := B(s.backends, b);
    && (y.downAt == x.downAt || (y.downAt == s.clock && !y.health.healthy))
    && (!y.health.healthy ==> y.downAt == s.clock || (!x.health.healthy && y.downAt == x.downAt))
  }

  lemma HandlerHealth(s: State, h: HandlerId, act: HandlerAct, b: BackendId)
    requires HandlerCan(s, h, act)
    ensures var x, y := B(s.backends, b), B(HandlerStep(s, h, act).backends, b);
      y.health == x.health && y.downAt == x.downAt && y.removedAt == x.removedAt
  {
  }

  lemma MonitorHealth(c: Config, s: State, m: MonitorId, act: MonitorAct, b: BackendId)
    requires MonitorCan(s, m, act)
    ensures var x, y := B(s.backends, b), B(MonitorEffect(c, s, m, act).backends, b);
      && HealthMoves(s, b, y) && y.removedAt == x.removedAt
      && (!(act.ReportIt? && m.backend == b) ==> y.downAt == x.downAt)
  {
  }

  lemma PollerHealth(s: State, act: PollerAct, b: BackendId)
    requires PollerCan(s, act) && !act.Set?
    ensures var x, y := B(s.backends, b), B(PollerEffect(s, act).backends, b);
      y.health == x.health && y.downAt == x.downAt && y.removedAt == x.removedAt
  {
  }

  lemma HealthFrame(c: Config, s: State, a: Action, b: BackendId)
    requires Refs(s) && Can(s, a)
    ensures HealthMoves(s, b, B(Act(c, s, a).backends, b))
    ensures !(a.OfMonitor? && a.mact.ReportIt? && a.m.backend == b) ==>
      B(Act(c, s, a).backends, b).downAt == B(s.backends, b).downAt
  {
    match a
    case OfHandler(h, act) => HandlerHealth(s, h, act, b);
    case OfMonitor(m, act) => MonitorHealth(c, s, m, act, b);
    case OfChecker(_) =>
    case OfPoller(act) =>
      if act.Set? {
        SetAddrsFrame(s, act.addrs, b);
      } else {
        PollerHealth(s, act, b);
      }
  }

  /** Everything but a new pool leaves the pool and the times of removal alone. */
  lemma RemovedAtStays(c: Config, s: State, a: Action, b: BackendId)
    requires Can(s, a) && !(a.OfPoller? && a.pact.Set?)
    ensures B(Act(c, s, a).backends, b).removedAt == B(s.backends, b).removedAt
  {
    match a
    case OfHandler(h, act) => HandlerHealth(s, h, act, b);
    case OfMonitor(m, act) => MonitorHealth(c, s, m, act, b);
    case OfChecker(_) =>
    case OfPoller(act) => PollerHealth(s, act, b);
  }

  lemma RemovalFrame(c: Config, s: State, a: Action, b: BackendId)
    requires Refs(s) && Can(s, a)
    ensures var s' := Act(c, s, a);
      && B(s'.backends, b).removedAt ==
           (if b in s.pool && b !in s'.pool then s.clock else B(s.backends, b).removedAt)
      && (b < s.nextBackend && b !in s.pool ==> b !in s'.pool)
      && (!(a.OfPoller? && a.pact.Set?) ==> s'.pool == s.pool)
  {
    if a.OfPoller? && a.pact.Set? {
      SetAddrsFrame(s, a.pact.addrs, b);
      if b < s.nextBackend && b !in s.pool {
        PoolOnlyGains(s, a.pact.addrs, b);
      }
    } else {
      RemovedAtStays(c, s, a, b);
      SamePool(c, s, a);
    }
  }

  lemma OtherHandlerStep(s: State, h: HandlerId, act: HandlerAct, other: HandlerId)
    requires HandlerCan(s, h, act) && other != h
    ensures H(HandlerStep(s, h, act).handlers, other) == H(s.handlers, other)
  {
  }

  lemma OtherHandler(c: Config, s: State, a: Action, h: HandlerId)
    requires Can(s, a) && !(a.OfHandler? && a.h == h)
    ensures H(Act(c, s, a).handlers, h) == H(s.handlers, h)
  {
    if a.OfHandler? {
      OtherHandlerStep(s, a.h, a.hact, h);
    }
  }

  /** What a handler's own step does to its history. */
  lemma OwnHistory(s: State, h: HandlerId, act: HandlerAct)
    requires HandlerCan(s, h, act)
    ensures var x, y := H(s.handlers, h), H(HandlerStep(s, h, act).handlers, h);
      && (forall b | b in y.readAt ::
            (b in x.readAt && y.readAt[b] == x.readAt[b])
            || (y.readAt[b] == s.clock && B(s.backends, b).health.healthy))
      && (if act.CopyPool? then y.seen == s.pool && y.copiedAt == s.clock
          else y.seen == x.seen && y.copiedAt == x.copiedAt)
      && (act.ReadHealth? || y.readAt == x.readAt)
  {
  }

  // ---------------------------------------------------------------- justification

  lemma ReadJustified(s: State, x: Handler)
    requires Justified(x) && x.pc.Reading? && x.pc.i < |x.seen|
    ensures Justified(QuietNext(s, x, ReadHealth))
  {
    var y := QuietNext(s, x, ReadHealth);
    forall b {:trigger MayReach(y, b)} | MayReach(y, b) ensures b in y.seen && b in y.readAt {
      assert MayReach(x, b) || b == x.seen[x.pc.i];
    }
  }

  lemma ChooseJustified(s: State, h: HandlerId, order: seq<BackendId>)
    requires Justified(H(s.handlers, h)) && HandlerCan(s, h, Choose(order))
    ensures Justified(QuietNext(s, H(s.handlers, h), Choose(order)))
  {
    var x := H(s.handlers, h);
    var y := QuietNext(s, x, Choose(order));
    forall b {:trigger MayReach(y, b)} | MayReach(y, b) ensures b in y.seen && (b in y.readAt || y.bestEffort) {
      if x.pc.healthy != [] {
        assert b in multiset(order);
        assert b in multiset(x.pc.healthy);
        assert MayReach(x, b);
      }
    }
  }

  lemma LoudJustified(s: State, h: HandlerId, act: HandlerAct)
    requires HandlerCan(s, h, act) && Justified(H(s.handlers, h)) && !Quiet(act)
    ensures Justified(H(HandlerStep(s, h, act).handlers, h))
  {
    var x, y := H(s.handlers, h), H(HandlerStep(s, h, act).handlers, h);
    assert y.seen == x.seen && y.readAt == x.readAt && y.bestEffort == x.bestEffort;
    forall b {:trigger MayReach(y, b)} | MayReach(y, b) ensures b in y.seen && (b in y.readAt || y.bestEffort) {
      assert MayReach(x, b);
    }
  }

  lemma OwnJustified(s: State, h: HandlerId, act: HandlerAct)
    requires HandlerCan(s, h, act) && Justified(H(s.handlers, h))
    ensures Justified(H(HandlerStep(s, h, act).handlers, h))
  {
    if act.ReadHealth? {
      ReadJustified(s, H(s.handlers, h));
    } else if act.Choose? {
      ChooseJustified(s, h, act.order);
    } else if !Quiet(act) {
      LoudJustified(s, h, act);
    } else {
      var x, y := H(s.handlers, h), H(HandlerStep(s, h, act).handlers, h);
      assert forall b {:trigger MayReach(y, b)} | MayReach(y, b) :: MayReach(x, b);
    }
  }

  // ---------------------------------------------------------------- every step

  lemma JustifiedStep(c: Config, s: State, a: Action)
    requires Can(s, a) && AllJustified(s)
    ensures AllJustified(Act(c, s, a))
  {
    forall h ensures Justified(H(Act(c, s, a).handlers, h)) {
      assert Justified(H(s.handlers, h));
      if a.OfHandler? && a.h == h {
        OwnJustified(s, h, a.hact);
      } else {
        OtherHandler(c, s, a, h);
      }
    }
  }

  lemma ReadsOneStep(c: Config, s: State, a: Action, h: HandlerId)
    requires Refs(s) && Can(s, a) && ReadsPrecede(s.backends, s.clock, H(s.handlers, h))
    ensures ReadsPrecede(Act(c, s, a).backends, s.clock + 1, H(Act(c, s, a).handlers, h))
  {
    var bs, y := Act(c, s, a).backends, H(Act(c, s, a).handlers, h);
    forall b | b in y.readAt
      ensures y.readAt[b] < s.clock + 1 && (!B(bs, b).health.healthy ==> y.readAt[b] < B(bs, b).downAt)
    {
      HealthFrame(c, s, a, b);
      if a.OfHandler? && a.h == h {
        OwnHistory(s, h, a.hact);
        HandlerHealth(s, h, a.hact, b);
      } else {
        OtherHandler(c, s, a, h);
      }
    }
  }

  lemma ReadsStep(c: Config, s: State, a: Action)
    requires Refs(s) && Can(s, a) && ReadsOk(s)
    ensures ReadsOk(Step(c, s, a))
  {
    var s' := Step(c, s, a);
    forall h ensures ReadsPrecede(s'.backends, s'.clock, H(s'.handlers, h)) {
      ReadsOneStep(c, s, a, h);
    }
  }

  lemma CopiesOneStep(c: Config, s: State, a: Action, h: HandlerId)
    requires Refs(s) && Can(s, a) && CopyPrecedes(s.backends, s.pool, s.clock, H(s.handlers, h))
    ensures CopyPrecedes(Act(c, s, a).backends, Act(c, s, a).pool, s.clock + 1, H(Act(c, s, a).handlers, h))
  {
    var s', x := Act(c, s, a), H(s.handlers, h);
    var y := H(s'.handlers, h);
    if a.OfHandler? && a.h == h {
      OwnHistory(s, h, a.hact);
    } else {
      OtherHandler(c, s, a, h);
    }
    assert HandlerBelow(x, s.nextBackend);
    forall b | b in y.seen && b !in s'.pool ensures y.copiedAt < B(s'.backends, b).removedAt {
      RemovalFrame(c, s, a, b);
    }
  }

  lemma CopiesStep(c: Config, s: State, a: Action)
    requires Refs(s) && Can(s, a) && CopiesOk(s)
    ensures CopiesOk(Step(c, s, a))
  {
    var s' := Step(c, s, a);
    forall h ensures CopyPrecedes(s'.backends, s'.pool, s'.clock, H(s'.handlers, h)) {
      CopiesOneStep(c, s, a, h);
    }
  }

  lemma OwnDownStep(c: Config, s: State, m: MonitorId, act: MonitorAct)
    requires Refs(s) && MonitorCan(s, m, act) && DownsOk(s)
    requires MonitorNext(c, s, m, act).pc.Draining?
    ensures B(Act(c, s, OfMonitor(m, act)).backends, m.backend).downAt < MonitorNext(c, s, m, act).pc.drain.at
  {
    HealthFrame(c, s, OfMonitor(m, act), m.backend);
  }

  lemma OtherDownStep(c: Config, s: State, a: Action, m: MonitorId)
    requires Refs(s) && MonitorInv(s) && Can(s, a) && DownsOk(s) && !(a.OfMonitor? && a.m == m)
    requires m in Act(c, s, a).threads && Act(c, s, a).threads[m].pc.Draining?
    ensures B(Act(c, s, a).backends, m.backend).downAt < Act(c, s, a).threads[m].pc.drain.at
  {
    OtherThread(c, s, a, m);
    HealthFrame(c, s, a, m.backend);
    if a.OfMonitor? {
      assert a.m.backend != m.backend;
    }
  }

  lemma DownsStep(c: Config, s: State, a: Action)
    requires Refs(s) && Inv(s) && MonitorInv(s) && Can(s, a) && DownsOk(s)
    ensures DownsOk(Step(c, s, a))
  {
    var s' := Step(c, s, a);
    forall b ensures B(s'.backends, b).downAt < s'.clock {
      HealthFrame(c, s, a, b);
    }
    forall m | m in s'.threads && s'.threads[m].pc.Draining?
      ensures B(s'.backends, m.backend).downAt < s'.threads[m].pc.drain.at
    {
      if a.OfMonitor? && a.m == m {
        OwnDownStep(c, s, m, a.mact);
      } else {
        OtherDownStep(c, s, a, m);
      }
    }
  }

  lemma {:induction false} InstancesFit(s: State, addrs: seq<string>, next: BackendId)
    ensures forall b | b in Instances(s, addrs, next) :: next <= b || B(s.backends, b).addr in addrs
    decreases |addrs|
  {
    if addrs != [] {
      var found := Instance(s, s.pool, addrs[0]);
      InstanceIs(s, s.pool, addrs[0]);
      InstancesFit(s, addrs[1..], if found.Some? then next else next + 1);
    }
  }

  /** What SetAddrs reports as removed is not in the pool it leaves. */
  lemma RemovedLeaves(s: State, addrs: seq<string>, b: BackendId)
    requires Refs(s) && b in NotKept(s, s.pool, addrs)
    ensures b !in SetAddrs(s, addrs).pool
  {
    NotKeptAre(s, s.pool, addrs);
    InstancesFit(s, addrs, s.nextBackend);
  }

  lemma OwnPollerStays(s: State, act: PollerAct)
    requires PollerCan(s, act) && !act.Set? && RemovalsOk(s)
    ensures PollerOk(s, PollerNext(s, act))
  {
  }

  lemma PollerAfter(c: Config, s: State, a: Action)
    requires Can(s, a) && RemovalsOk(s) && !(a.OfPoller? && a.pact.Set?)
    ensures PollerOk(s, Act(c, s, a).poller)
  {
    if a.OfPoller? {
      OwnPollerStays(s, a.pact);
    } else {
      assert Act(c, s, a).poller == s.poller;
    }
  }

  lemma PollerStays(c: Config, s: State, a: Action)
    requires Refs(s) && Can(s, a) && RemovalsOk(s) && !(a.OfPoller? && a.pact.Set?)
    ensures Act(c, s, a).pool == s.pool && PollerOk(Act(c, s, a), Act(c, s, a).poller)
  {
    var p := Act(c, s, a).poller;
    PollerAfter(c, s, a);
    RemovalFrame(c, s, a, if p.Sweeping? then p.drain.of else 0);
  }

  lemma RemovalsStep(c: Config, s: State, a: Action)
    requires Refs(s) && Can(s, a) && RemovalsOk(s)
    ensures RemovalsOk(Step(c, s, a))
  {
    var s' := Step(c, s, a);
    forall b ensures B(s'.backends, b).removedAt < s'.clock {
      RemovalFrame(c, s, a, b);
    }
    if a.OfPoller? && a.pact.Set? {
      forall b | b in s'.poller.removed ensures b !in s'.pool {
        RemovedLeaves(s, a.pact.addrs, b);
      }
    } else {
      PollerStays(c, s, a);
    }
  }

  lemma ProvenanceStep(c: Config, s: State, a: Action)
    requires Refs(s) && Inv(s) && MonitorInv(s) && Can(s, a) && Provenance(s)
    ensures Provenance(Step(c, s, a))
  {
    JustifiedStep(c, s, a);
    ReadsStep(c, s, a);
    CopiesStep(c, s, a);
    DownsStep(c, s, a);
    RemovalsStep(c, s, a);
  }

  lemma {:induction false} ProvenanceReached(c: Config, addrs: seq<string>, run: seq<Action>, s: State)
    requires Run(c, addrs, run) == Some(s)
    ensures Provenance(s)
    decreases |run|
  {
    if run != [] {
      var before := Run(c, addrs, run[..|run| - 1]).value;
      ProvenanceReached(c, addrs, run[..|run| - 1], before);
      InvReached(c, addrs, run[..|run| - 1], before);
      MonitorsReached(c, addrs, run[..|run| - 1], before);
      ProvenanceStep(c, before, run[|run| - 1]);
    }
  }

  // ---------------------------------------------------------------- the theorems

  /** Some finished drain of the backend has taken its snapshot at this time or later. */
  predicate SweptSince(bs: BackendMap, b: BackendId, at: nat) {
    B(bs, b).sweptAt.Some? && at <= B(bs, b).sweptAt.value
  }

  lemma SweptSinceStep(c: Config, s: State, a: Action, b: BackendId, at: nat)
    requires Refs(s) && Can(s, a) && SweptSince(s.backends, b, at)
    ensures SweptSince(Act(c, s, a).backends, b, at)
  {
    if a.OfMonitor? && a.mact.DrainReturns? && b == a.m.backend {
    } else if a.OfPoller? && a.pact.SweepReturns? && b == s.poller.drain.of {
    } else {
      SweptUnchanged(c, s, a, b);
    }
  }

  lemma {:induction false} SweptSinceLater(
      c: Config, addrs: seq<string>, run: seq<Action>, more: seq<Action>, s: State, s': State, b: BackendId, at: nat)
    requires Run(c, addrs, run) == Some(s) && Run(c, addrs, run + more) == Some(s')
    requires SweptSince(s.backends, b, at)
    ensures SweptSince(s'.backends, b, at)
    decreases |more|
  {
    if more == [] {
      assert run + more == run;
    } else {
      LastOf(run, more);
      var before := Run(c, addrs, run + more[..|more| - 1]).value;
      SweptSinceLater(c, addrs, run, more[..|more| - 1], s, before, b, at);
      InvReached(c, addrs, run + more[..|more| - 1], before);
      SweptSinceStep(c, before, more[|more| - 1], b, at);
    }
  }

  lemma RegisteredAfter(c: Config, addrs: seq<string>, run: seq<Action>, s: State, b: BackendId, at: nat, h: HandlerId)
    requires Run(c, addrs, run) == Some(s) && SweptSince(s.backends, b, at) && h in B(s.backends, b).conns
    ensures var x := H(s.handlers, h);
      && at < x.registeredAt && b in x.seen && b < s.nextBackend
      && (if x.bestEffort then x.readAt == map[] else b in x.readAt)
      && ReadsPrecede(s.backends, s.clock, x) && CopyPrecedes(s.backends, s.pool, s.clock, x)
  {
    InvReached(c, addrs, run, s);
    ProvenanceReached(c, addrs, run, s);
    assert SweepHolds(s, b, B(s.backends, b).sweptAt);
    var x := H(s.handlers, h);
    assert HandlerBelow(x, s.nextBackend) && Justified(x) && ReadsPrecede(s.backends, s.clock, x)
        && CopyPrecedes(s.backends, s.pool, s.clock, x);
    assert x.pc == Piping(b);
    assert MayReach(x, b);
  }

  /**
   Drain safety for a turn to unhealthy. From the moment the turn's DrainAll returns, and as long as the
   backend stays unhealthy, every connection still open was registered after the snapshot that the drain
   worked off, by a handler that had read the backend healthy before the turn or was in best-effort mode,
   having read no backend healthy at all.
   */
  lemma DrainSafety(c: Config, addrs: seq<string>, run: seq<Action>, more: seq<Action>, s: State, s': State,
                    m: MonitorId, h: HandlerId)
    requires Run(c, addrs, run) == Some(s) && MonitorCan(s, m, DrainReturns)
    requires Run(c, addrs, run + [OfMonitor(m, DrainReturns)] + more) == Some(s')
    requires !B(s'.backends, m.backend).health.healthy
    requires B(s'.backends, m.backend).downAt == B(s.backends, m.backend).downAt
    requires h in B(s'.backends, m.backend).conns
    ensures var x, b, d := H(s'.handlers, h), m.backend, s.threads[m].pc.drain;
      && B(s.backends, b).downAt < d.at < x.registeredAt
      && (if x.bestEffort then x.readAt == map[] else b in x.readAt && x.readAt[b] < B(s.backends, b).downAt)
  {
    var a, at := OfMonitor(m, DrainReturns), s.threads[m].pc.drain.at;
    InvReached(c, addrs, run, s);
    ProvenanceReached(c, addrs, run, s);
    Extend(c, addrs, run, a);
    assert SweptSince(Step(c, s, a).backends, m.backend, at);
    SweptSinceLater(c, addrs, run + [a], more, Step(c, s, a), s', m.backend, at);
    RegisteredAfter(c, addrs, run + [a] + more, s', m.backend, at, h);
  }

  lemma {:induction false} RemovedOnce(
      c: Config, addrs: seq<string>, run: seq<Action>, more: seq<Action>, s: State, s': State, b: BackendId)
    requires Run(c, addrs, run) == Some(s) && Run(c, addrs, run + more) == Some(s')
    requires b < s.nextBackend && b !in s.pool
    ensures B(s'.backends, b).removedAt == B(s.backends, b).removedAt
    decreases |more|
  {
    if more == [] {
      assert run + more == run;
    } else {
      LastOf(run, more);
      var before := Run(c, addrs, run + more[..|more| - 1]).value;
      RemovedOnce(c, addrs, run, more[..|more| - 1], s, before, b);
      NeverReturns(c, addrs, run, more[..|more| - 1], s, before, b);
      InvReached(c, addrs, run + more[..|more| - 1], before);
      RemovalFrame(c, before, more[|more| - 1], b);
    }
  }

  /**
   Drain safety for a removal. From the moment the drain of a removed backend returns, the instance is out
   of the pool, and every connection still open to it was registered after the drain's snapshot, by a handler
   that had copied the pool before the removal.
   */
  lemma RemovalSafety(c: Config, addrs: seq<string>, run: seq<Action>, more: seq<Action>, s: State, s': State)
    requires Run(c, addrs, run) == Some(s) && PollerCan(s, SweepReturns)
    requires Run(c, addrs, run + [OfPoller(SweepReturns)] + more) == Some(s')
    ensures var b, d := s.poller.drain.of, s.poller.drain;
      && b !in s'.pool
      && B(s.backends, b).removedAt < d.at
      && forall h | h in B(s'.backends, b).conns ::
           d.at < H(s'.handlers, h).registeredAt && H(s'.handlers, h).copiedAt < B(s.backends, b).removedAt
  {
    var a, b, at := OfPoller(SweepReturns), s.poller.drain.of, s.poller.drain.at;
    InvReached(c, addrs, run, s);
    ProvenanceReached(c, addrs, run, s);
    Extend(c, addrs, run, a);
    assert SweptSince(Step(c, s, a).backends, b, at);
    SweptSinceLater(c, addrs, run + [a], more, Step(c, s, a), s', b, at);
    NeverReturns(c, addrs, run + [a], more, Step(c, s, a), s', b);
    RemovedOnce(c, addrs, run + [a], more, Step(c, s, a), s', b);
    forall h | h in B(s'.backends, b).conns
      ensures at < H(s'.handlers, h).registeredAt && H(s'.handlers, h).copiedAt < B(s.backends, b).removedAt
    {
      RegisteredAfter(c, addrs, run + [a] + more, s', b, at, h);
    }
  }
}

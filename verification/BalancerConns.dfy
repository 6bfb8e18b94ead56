/**
 The connection sets under every interleaving: each counted connection is pending, registered or
 gone, leaves the set once, and no finished drain leaves a connection of its snapshot behind.
 */
module BalancerConns {
  import opened Balancer
  import opened BalancerRefs
  import opened Options

  // ---------------------------------------------------------------- the invariant

  ghost predicate RegisteredOk(s: State) {
    forall h, b :: h in B(s.backends, b).conns <==> H(s.handlers, h).pc == Piping(b) && h !in s.released
  }

  ghost predicate PendingOk(s: State) {
    forall h, b :: h in B(s.backends, b).pending <==> H(s.handlers, h).pc == Counted(b)
  }

  predicate Late(pc: HandlerPc) {
    pc.Piping? || pc.Released? || pc.Done?
  }

  ghost predicate GoneOk(s: State) {
    && (forall h, b :: h in B(s.backends, b).gone ==> h in s.released)
    && (forall h :: h in s.released ==> Late(H(s.handlers, h).pc))
  }

  predicate Adds(x: Backend) {
    x.total == |x.pending| + |x.conns| + |x.gone|
  }

  ghost predicate TotalOk(s: State) {
    forall b :: Adds(B(s.backends, b))
  }

  /** Registered means piping and not yet closed by anyone; every counted connection is in exactly one stage. */
  ghost predicate ConnInv(s: State) {
    RegisteredOk(s) && PendingOk(s) && GoneOk(s) && TotalOk(s)
  }

  predicate Early(pc: HandlerPc) {
    pc.Fresh? || pc.Reading? || pc.Dialing?
  }

  /** A drain under way has closed what it no longer has to, and still has all it must. */
  ghost predicate DrainOk(s: State, d: Drain) {
    && d.todo <= d.snapshot
    && d.at < s.clock
    && (forall h | h in d.snapshot :: h in B(s.backends, d.of).conns || h in B(s.backends, d.of).gone)
    && (forall h | h in d.snapshot && h !in d.todo :: h in s.released && h in s.closed)
    && (d.closing.Some? ==> d.closing.value in d.todo && d.closing.value in s.released)
    && (forall h | h in B(s.backends, d.of).conns && H(s.handlers, h).registeredAt <= d.at :: h in d.todo)
  }

  ghost predicate DrainsOk(s: State) {
    && (forall m | m in s.threads && s.threads[m].pc.Draining? ::
          DrainOk(s, s.threads[m].pc.drain) && s.threads[m].pc.drain.of == m.backend)
    && (s.poller.Sweeping? ==> DrainOk(s, s.poller.drain))
  }

  /** A drain snapshot of backend b taken at the given time has been worked off. */
  ghost predicate SweepHolds(s: State, b: BackendId, at: Option<nat>) {
    at.Some? ==>
      && at.value < s.clock
      && forall h | h in B(s.backends, b).conns :: at.value < H(s.handlers, h).registeredAt
  }

  /** Whatever is registered now was registered after the snapshot of any finished drain. */
  ghost predicate SweptInv(s: State) {
    && (forall b, h | h in B(s.backends, b).conns :: H(s.handlers, h).registeredAt < s.clock)
    && (forall b :: SweepHolds(s, b, B(s.backends, b).sweptAt))
  }

  ghost predicate Inv(s: State) {
    ConnInv(s) && DrainsOk(s) && SweptInv(s)
  }

  // ---------------------------------------------------------------- frames

  /** Nothing happened to any connection, as far as the sets are concerned. */
  ghost predicate SameConns(s: State, s': State) {
    && s'.released == s.released
    && (forall b :: B(s'.backends, b).conns == B(s.backends, b).conns
          && B(s'.backends, b).pending == B(s.backends, b).pending
          && B(s'.backends, b).gone == B(s.backends, b).gone && B(s'.backends, b).total == B(s.backends, b).total)
    && (forall h :: H(s'.handlers, h).pc == H(s.handlers, h).pc
          || (Early(H(s.handlers, h).pc) && (Early(H(s'.handlers, h).pc) || H(s'.handlers, h).pc.Done?))
          || (H(s.handlers, h).pc.Released? && H(s'.handlers, h).pc.Done?))
  }

  lemma SameConnsKeeps(s: State, s': State)
    requires ConnInv(s) && SameConns(s, s')
    ensures ConnInv(s')
  {
  }

  /** The order in which things can only happen to connections. */
  ghost predicate Evolves(s: State, s': State) {
    && s.clock == s'.clock
    && s.released <= s'.released && s.closed <= s'.closed
    && (forall b, h | h in B(s.backends, b).gone || h in B(s.backends, b).conns ::
          h in B(s'.backends, b).conns || h in B(s'.backends, b).gone)
    && (forall b, h | h in B(s'.backends, b).conns ::
          (h in B(s.backends, b).conns && H(s'.handlers, h).registeredAt == H(s.handlers, h).registeredAt)
          || H(s'.handlers, h).registeredAt == s.clock)
  }

  lemma EvolvesKeepsDrain(s: State, s': State, d: Drain)
    requires DrainOk(s, d) && Evolves(s, s')
    ensures DrainOk(s', d)
  {
  }

  lemma EvolvesKeepsSwept(s: State, s': State)
    requires SweptInv(s) && Evolves(s, s')
    requires forall b :: SweepHolds(s, b, B(s'.backends, b).sweptAt)
    ensures SweptInv(s'.(clock := s.clock + 1))
  {
  }

  // ---------------------------------------------------------------- handlers

  lemma DialKeeps(s: State, h: HandlerId)
    requires ConnInv(s) && HandlerCan(s, h, DialSucceeds)
    ensures ConnInv(HandlerStep(s, h, DialSucceeds))
  {
    var b := H(s.handlers, h).pc.order[H(s.handlers, h).pc.k];
    assert h !in B(s.backends, b).pending;
  }

  lemma DialEvolves(s: State, h: HandlerId)
    requires HandlerCan(s, h, DialSucceeds)
    ensures Evolves(s, HandlerStep(s, h, DialSucceeds))
  {
  }

  lemma RegisterKeepsTotal(s: State, h: HandlerId, b: BackendId)
    requires ConnInv(s) && H(s.handlers, h).pc == Counted(b)
    ensures TotalOk(RegisterIt(s, h, b))
  {
    var x := B(s.backends, b);
    assert h in x.pending && h !in x.conns;
    assert x.pending == x.pending - {h} + {h};
    assert forall y :: Adds(B(s.backends, y));
  }

  lemma RegisterKeeps(s: State, h: HandlerId, b: BackendId)
    requires ConnInv(s) && H(s.handlers, h).pc == Counted(b)
    ensures ConnInv(RegisterIt(s, h, b))
  {
    RegisterKeepsTotal(s, h, b);
    assert h !in s.released;
  }

  lemma RegisterEvolves(s: State, h: HandlerId)
    requires ConnInv(s) && HandlerCan(s, h, Register)
    ensures Evolves(s, HandlerStep(s, h, Register))
  {
  }

  lemma MovedCounts(x: Backend, h: HandlerId)
    requires h in x.conns && h !in x.gone
    ensures |x.conns - {h}| + |x.gone + {h}| == |x.conns| + |x.gone|
  {
    assert x.conns == x.conns - {h} + {h};
  }

  /** The connection h of backend b has just been taken out of its set. */
  ghost predicate Taken(s: State, r: State, b: BackendId, h: HandlerId) {
    && h in B(s.backends, b).conns && h !in s.released
    && r.released == s.released + {h} && r.handlers == s.handlers && r.closed == s.closed && r.clock == s.clock
    && (forall y {:trigger B(r.backends, y)} :: B(r.backends, y) ==
          if y == b then B(s.backends, b).(conns := B(s.backends, b).conns - {h}, gone := B(s.backends, b).gone + {h})
          else B(s.backends, y))
  }

  lemma TakenKeepsTotal(s: State, r: State, b: BackendId, h: HandlerId)
    requires ConnInv(s) && Taken(s, r, b, h)
    ensures TotalOk(r)
  {
    MovedCounts(B(s.backends, b), h);
    forall y ensures Adds(B(r.backends, y)) {
      assert Adds(B(s.backends, y));
    }
  }

  lemma TakenKeepsRegistered(s: State, r: State, b: BackendId, h: HandlerId)
    requires RegisteredOk(s) && Taken(s, r, b, h)
    ensures RegisteredOk(r)
  {
  }

  lemma TakenKeepsGone(s: State, r: State, b: BackendId, h: HandlerId)
    requires RegisteredOk(s) && GoneOk(s) && Taken(s, r, b, h)
    ensures GoneOk(r)
  {
  }

  lemma TakenKeeps(s: State, r: State, b: BackendId, h: HandlerId)
    requires ConnInv(s) && Taken(s, r, b, h)
    ensures ConnInv(r)
  {
    TakenKeepsRegistered(s, r, b, h);
    TakenKeepsGone(s, r, b, h);
    TakenKeepsTotal(s, r, b, h);
    assert PendingOk(r);
  }

  lemma TakenEvolves(s: State, r: State, b: BackendId, h: HandlerId)
    requires Taken(s, r, b, h)
    ensures Evolves(s, r)
  {
  }

  /** Taking a connection out of its set, by whoever comes first. */
  lemma OnceKeeps(s: State, b: BackendId, h: HandlerId)
    requires ConnInv(s)
    requires h !in s.released ==> h in B(s.backends, b).conns
    ensures ConnInv(Once(s, b, h)) && h in Once(s, b, h).released
    ensures Evolves(s, Once(s, b, h))
  {
    if h !in s.released {
      TakenKeeps(s, Once(s, b, h), b, h);
      TakenEvolves(s, Once(s, b, h), b, h);
    }
  }

  /** What happens to the handler of a connection that has been taken out of the set. */
  lemma GoReleased(s: State, b: BackendId, h: HandlerId)
    requires ConnInv(s) && H(s.handlers, h).pc == Piping(b) && h in s.released
    ensures ConnInv(Go(s, h, Released(b)))
  {
  }

  lemma GoEvolves(s: State, r: State, h: HandlerId, pc: HandlerPc)
    requires Evolves(s, r)
    ensures Evolves(s, Go(r, h, pc))
  {
  }

  lemma UnregisterKeeps(s: State, h: HandlerId)
    requires ConnInv(s) && HandlerCan(s, h, Unregister)
    ensures var b := H(s.handlers, h).pc.to;
      var s' := Go(Once(s, b, h), h, Released(b));
      ConnInv(s') && Evolves(s, s')
  {
    var b := H(s.handlers, h).pc.to;
    OnceKeeps(s, b, h);
    GoReleased(Once(s, b, h), b, h);
    GoEvolves(s, Once(s, b, h), h, Released(b));
  }

  /** What one handler's record does at a step that touches no set. */
  lemma QuietHandlerFrame(s: State, h: HandlerId, act: HandlerAct)
    requires HandlerCan(s, h, act) && Quiet(act)
    ensures var s' := HandlerStep(s, h, act);
      && s'.backends == s.backends && s'.released == s.released && s.closed <= s'.closed && s'.clock == s.clock
      && (forall x {:trigger H(s'.handlers, x)} | x != h :: H(s'.handlers, x) == H(s.handlers, x))
      && H(s'.handlers, h).registeredAt == H(s.handlers, h).registeredAt
      && (Early(H(s'.handlers, h).pc) || H(s'.handlers, h).pc.Done?)
      && (Early(H(s.handlers, h).pc) || H(s.handlers, h).pc.Released?)
      && (H(s.handlers, h).pc.Released? ==> H(s'.handlers, h).pc.Done?)
  {
  }

  lemma SameConnsEvolves(s: State, s': State)
    requires SameConns(s, s') && s.closed <= s'.closed && s'.clock == s.clock
    requires forall h :: H(s'.handlers, h).registeredAt == H(s.handlers, h).registeredAt
    ensures Evolves(s, s')
  {
  }

  lemma QuietKeeps(s: State, s': State, h: HandlerId)
    requires ConnInv(s)
    requires s'.backends == s.backends && s'.released == s.released && s.closed <= s'.closed && s'.clock == s.clock
    requires forall x {:trigger H(s'.handlers, x)} | x != h :: H(s'.handlers, x) == H(s.handlers, x)
    requires H(s'.handlers, h).registeredAt == H(s.handlers, h).registeredAt
    requires Early(H(s'.handlers, h).pc) || H(s'.handlers, h).pc.Done?
    requires Early(H(s.handlers, h).pc) || H(s.handlers, h).pc.Released?
    requires H(s.handlers, h).pc.Released? ==> H(s'.handlers, h).pc.Done?
    ensures ConnInv(s') && Evolves(s, s')
  {
    SameConnsKeeps(s, s');
    SameConnsEvolves(s, s');
  }

  lemma QuietHandlerKeeps(s: State, h: HandlerId, act: HandlerAct)
    requires ConnInv(s) && HandlerCan(s, h, act) && Quiet(act)
    ensures ConnInv(HandlerStep(s, h, act)) && Evolves(s, HandlerStep(s, h, act))
  {
    QuietHandlerFrame(s, h, act);
    QuietKeeps(s, HandlerStep(s, h, act), h);
  }

  lemma HandlerKeeps(s: State, h: HandlerId, act: HandlerAct)
    requires ConnInv(s) && HandlerCan(s, h, act)
    ensures ConnInv(HandlerStep(s, h, act)) && Evolves(s, HandlerStep(s, h, act))
  {
    match act
    case DialSucceeds =>
      DialKeeps(s, h);
      DialEvolves(s, h);
    case Register =>
      RegisterKeeps(s, h, H(s.handlers, h).pc.to);
      RegisterEvolves(s, h);
    case Unregister => UnregisterKeeps(s, h);
    case _ => QuietHandlerKeeps(s, h, act);
  }

  // ---------------------------------------------------------------- drains and the other threads

  lemma PutKeeps(s: State, b: BackendId, x: Backend)
    requires ConnInv(s)
    requires var y := B(s.backends, b);
      x.conns == y.conns && x.pending == y.pending && x.gone == y.gone && x.total == y.total
    ensures ConnInv(Put(s, b, x)) && Evolves(s, Put(s, b, x))
  {
    SameConnsKeeps(s, Put(s, b, x));
    SameConnsEvolves(s, Put(s, b, x));
  }

  lemma StutterEvolves(s: State, s': State)
    requires s'.backends == s.backends && s'.handlers == s.handlers
    requires s'.released == s.released && s.closed <= s'.closed && s'.clock == s.clock
    ensures Evolves(s, s')
  {
  }

  /** One step of a drain, and the drain after it. */
  lemma DrainKeeps(s: State, d: Drain, act: DrainAct)
    requires ConnInv(s) && DrainOk(s, d) && DrainCan(d, act)
    ensures ConnInv(DrainEffect(s, d, act)) && Evolves(s, DrainEffect(s, d, act))
    ensures DrainOk(DrainEffect(s, d, act), DrainNext(d, act))
  {
    match act
    case Take(h) =>
      OnceKeeps(s, d.of, h);
      EvolvesKeepsDrain(s, DrainEffect(s, d, act), d);
    case CloseIt =>
      StutterEvolves(s, DrainEffect(s, d, act));
      EvolvesKeepsDrain(s, DrainEffect(s, d, act), d);
  }

  lemma BeginOk(s: State, b: BackendId)
    requires SweptInv(s)
    ensures DrainOk(s.(clock := s.clock + 1), BeginDrain(s, b))
  {
  }

  lemma MonitorKeeps(c: Config, s: State, m: MonitorId, act: MonitorAct)
    requires ConnInv(s) && DrainsOk(s) && MonitorCan(s, m, act)
    ensures ConnInv(MonitorEffect(c, s, m, act)) && Evolves(s, MonitorEffect(c, s, m, act))
  {
    var s' := MonitorEffect(c, s, m, act);
    var x := B(s'.backends, m.backend);
    match act
    case DrainIt(a) => DrainKeeps(s, s.threads[m].pc.drain, a);
    case ReportIt => PutKeeps(s, m.backend, x);
    case Copy => PutKeeps(s, m.backend, x);
    case DrainReturns => PutKeeps(s, m.backend, x);
    case _ => StutterEvolves(s, s');
  }

  lemma PollerKeeps(s: State, act: PollerAct)
    requires ConnInv(s) && DrainsOk(s) && PollerCan(s, act) && !act.Set?
    ensures ConnInv(PollerEffect(s, act)) && Evolves(s, PollerEffect(s, act))
  {
    var s' := PollerEffect(s, act);
    match act
    case CopyRemoved =>
      var b := s.poller.removed[s.poller.i];
      PutKeeps(s, b, B(s'.backends, b));
    case SweepIt(a) => DrainKeeps(s, s.poller.drain, a);
    case SweepReturns => PutKeeps(s, s.poller.drain.of, B(s'.backends, s.poller.drain.of));
    case Finish => StutterEvolves(s, s');
  }

  /** A new pool leaves every existing backend as it is, but for the time of its removal. */
  lemma SetAddrsFrame(s: State, addrs: seq<string>, b: BackendId)
    requires Refs(s)
    ensures var x, y := B(s.backends, b), B(SetAddrs(s, addrs).backends, b);
      if s.nextBackend <= b < s.nextBackend + |addrs| then x == NEW_BACKEND && y == x.(addr := y.addr)
      else y == x.(removedAt := if b in s.pool && b !in SetAddrs(s, addrs).pool then s.clock else x.removedAt)
  {
  }

  lemma SetAddrsKeeps(s: State, addrs: seq<string>)
    requires ConnInv(s) && Refs(s)
    ensures ConnInv(SetAddrs(s, addrs)) && Evolves(s, SetAddrs(s, addrs))
  {
    var s' := SetAddrs(s, addrs);
    forall b {:trigger B(s'.backends, b)}
      ensures B(s'.backends, b).conns == B(s.backends, b).conns && B(s'.backends, b).pending == B(s.backends, b).pending
        && B(s'.backends, b).gone == B(s.backends, b).gone && B(s'.backends, b).total == B(s.backends, b).total
    {
      SetAddrsFrame(s, addrs, b);
    }
    SameConnsKeeps(s, s');
    SameConnsEvolves(s, s');
  }

  /** The invariant and the order speak of nothing but the handlers and the connections. */
  lemma AsideKeeps(s: State, s': State, r: State)
    requires ConnInv(s') && Evolves(s, s') && r.clock == s'.clock
    requires r.backends == s'.backends && r.handlers == s'.handlers
    requires r.released == s'.released && r.closed == s'.closed
    ensures ConnInv(r) && Evolves(s, r)
  {
  }

  lemma MonitorStepKeeps(c: Config, s: State, m: MonitorId, act: MonitorAct)
    requires ConnInv(s) && DrainsOk(s) && MonitorCan(s, m, act)
    ensures ConnInv(MonitorStep(c, s, m, act)) && Evolves(s, MonitorStep(c, s, m, act))
  {
    MonitorKeeps(c, s, m, act);
    AsideKeeps(s, MonitorEffect(c, s, m, act), MonitorStep(c, s, m, act));
  }

  lemma PollerStepKeeps(s: State, act: PollerAct)
    requires Refs(s) && ConnInv(s) && DrainsOk(s) && PollerCan(s, act)
    ensures ConnInv(PollerStep(s, act)) && Evolves(s, PollerStep(s, act))
  {
    if act.Set? {
      SetAddrsKeeps(s, act.addrs);
    } else {
      PollerKeeps(s, act);
      AsideKeeps(s, PollerEffect(s, act), PollerStep(s, act));
    }
  }

  lemma CheckerStepKeeps(s: State, act: CheckerAct)
    requires ConnInv(s) && CheckerCan(s, act)
    ensures ConnInv(CheckerStep(s, act)) && Evolves(s, CheckerStep(s, act))
  {
    StutterEvolves(s, s);
    AsideKeeps(s, s, CheckerStep(s, act));
  }

  lemma ActConns(c: Config, s: State, a: Action)
    requires Refs(s) && ConnInv(s) && DrainsOk(s) && Can(s, a)
    ensures ConnInv(Act(c, s, a))
  {
    match a
    case OfHandler(h, act) => HandlerKeeps(s, h, act);
    case OfMonitor(m, act) => MonitorStepKeeps(c, s, m, act);
    case OfChecker(act) => CheckerStepKeeps(s, act);
    case OfPoller(act) => PollerStepKeeps(s, act);
  }

  lemma ActEvolves(c: Config, s: State, a: Action)
    requires Refs(s) && ConnInv(s) && DrainsOk(s) && Can(s, a)
    ensures Evolves(s, Act(c, s, a))
  {
    match a
    case OfHandler(h, act) => HandlerKeeps(s, h, act);
    case OfMonitor(m, act) => MonitorStepKeeps(c, s, m, act);
    case OfChecker(act) => CheckerStepKeeps(s, act);
    case OfPoller(act) => PollerStepKeeps(s, act);
  }

  lemma ActKeeps(c: Config, s: State, a: Action)
    requires Refs(s) && ConnInv(s) && DrainsOk(s) && Can(s, a)
    ensures ConnInv(Act(c, s, a)) && Evolves(s, Act(c, s, a))
  {
    ActConns(c, s, a);
    ActEvolves(c, s, a);
  }

  // ---------------------------------------------------------------- every step

  lemma TickKeepsDrain(s: State, d: Drain)
    requires DrainOk(s, d)
    ensures DrainOk(s.(clock := s.clock + 1), d)
  {
  }

  /** A drain that some other step left alone. */
  lemma DrainStays(c: Config, s: State, a: Action, d: Drain)
    requires Refs(s) && Inv(s) && Can(s, a) && DrainOk(s, d)
    ensures DrainOk(Step(c, s, a), d)
  {
    ActKeeps(c, s, a);
    EvolvesKeepsDrain(s, Act(c, s, a), d);
    TickKeepsDrain(Act(c, s, a), d);
  }

  /** A drain after one of its steps, whoever makes it. */
  lemma DrainAfterStep(s: State, r: State, d: Drain, act: DrainAct)
    requires ConnInv(s) && DrainOk(s, d) && DrainCan(d, act)
    requires r.backends == DrainEffect(s, d, act).backends && r.handlers == s.handlers && r.clock == s.clock + 1
    requires r.released == DrainEffect(s, d, act).released && r.closed == DrainEffect(s, d, act).closed
    ensures DrainOk(r, DrainNext(d, act))
  {
    DrainKeeps(s, d, act);
  }

  /** The drain of the thread that moved. */
  lemma OwnMonitorDrain(c: Config, s: State, m: MonitorId, act: MonitorAct)
    requires Refs(s) && Inv(s) && MonitorCan(s, m, act)
    ensures var pc := MonitorNext(c, s, m, act).pc;
      pc.Draining? ==> DrainOk(Step(c, s, OfMonitor(m, act)), pc.drain) && pc.drain.of == m.backend
  {
    if act.Copy? {
      BeginOk(s, m.backend);
    } else if act.DrainIt? {
      DrainAfterStep(s, Step(c, s, OfMonitor(m, act)), s.threads[m].pc.drain, act.act);
    }
  }

  lemma OwnPollerDrain(c: Config, s: State, act: PollerAct)
    requires Refs(s) && Inv(s) && PollerCan(s, act) && !act.Set?
    ensures var p := PollerNext(s, act);
      p.Sweeping? ==> DrainOk(Step(c, s, OfPoller(act)), p.drain)
  {
    if act.CopyRemoved? {
      BeginOk(s, s.poller.removed[s.poller.i]);
    } else if act.SweepIt? {
      DrainAfterStep(s, Step(c, s, OfPoller(act)), s.poller.drain, act.act);
    }
  }

  lemma CheckerThreads(s: State, act: CheckerAct, m: MonitorId)
    requires CheckerCan(s, act) && m in CheckerStep(s, act).threads
    ensures var t := CheckerStep(s, act).threads[m];
      t.pc.Probing? || (m in s.threads && t.pc == s.threads[m].pc)
  {
  }

  /** Only its own steps move a monitor, apart from its cancellation and its creation. */
  lemma OtherThread(c: Config, s: State, a: Action, m: MonitorId)
    requires Can(s, a) && !(a.OfMonitor? && a.m == m)
    requires m in Act(c, s, a).threads
    ensures var t := Act(c, s, a).threads[m];
      t.pc.Probing? || (m in s.threads && t.pc == s.threads[m].pc)
  {
    if a.OfChecker? {
      CheckerThreads(s, a.cact, m);
    }
  }

  lemma OtherMonitorDrain(c: Config, s: State, a: Action, m: MonitorId)
    requires Refs(s) && Inv(s) && Can(s, a) && !(a.OfMonitor? && a.m == m)
    requires m in Act(c, s, a).threads && Act(c, s, a).threads[m].pc.Draining?
    ensures var d := Act(c, s, a).threads[m].pc.drain;
      DrainOk(Step(c, s, a), d) && d.of == m.backend
  {
    OtherThread(c, s, a, m);
    DrainStays(c, s, a, s.threads[m].pc.drain);
  }

  lemma MonitorDrainsStep(c: Config, s: State, a: Action, m: MonitorId)
    requires Refs(s) && Inv(s) && Can(s, a)
    requires m in Act(c, s, a).threads && Act(c, s, a).threads[m].pc.Draining?
    ensures var d := Act(c, s, a).threads[m].pc.drain;
      DrainOk(Step(c, s, a), d) && d.of == m.backend
  {
    if a.OfMonitor? && a.m == m {
      OwnMonitorDrain(c, s, m, a.mact);
      assert Act(c, s, a).threads[m] == MonitorNext(c, s, m, a.mact);
    } else {
      OtherMonitorDrain(c, s, a, m);
    }
  }

  lemma OtherPollerDrain(c: Config, s: State, a: Action)
    requires Refs(s) && Inv(s) && Can(s, a) && !a.OfPoller? && Act(c, s, a).poller.Sweeping?
    ensures DrainOk(Step(c, s, a), Act(c, s, a).poller.drain)
  {
    DrainStays(c, s, a, s.poller.drain);
  }

  lemma PollerDrainStep(c: Config, s: State, a: Action)
    requires Refs(s) && Inv(s) && Can(s, a)
    requires Act(c, s, a).poller.Sweeping?
    ensures DrainOk(Step(c, s, a), Act(c, s, a).poller.drain)
  {
    if a.OfPoller? {
      assert !a.pact.Set?;
      OwnPollerDrain(c, s, a.pact);
    } else {
      OtherPollerDrain(c, s, a);
    }
  }

  lemma OverMeansSwept(s: State, d: Drain)
    requires DrainOk(s, d) && DrainOver(d) && SweptInv(s)
    ensures SweepHolds(s, d.of, Latest(B(s.backends, d.of).sweptAt, d.at))
  {
  }

  lemma HandlerSwept(s: State, h: HandlerId, act: HandlerAct, b: BackendId)
    requires HandlerCan(s, h, act)
    ensures B(HandlerStep(s, h, act).backends, b).sweptAt == B(s.backends, b).sweptAt
  {
  }

  lemma MonitorSwept(c: Config, s: State, m: MonitorId, act: MonitorAct, b: BackendId)
    requires MonitorCan(s, m, act) && !(act.DrainReturns? && b == m.backend)
    ensures B(MonitorEffect(c, s, m, act).backends, b).sweptAt == B(s.backends, b).sweptAt
  {
  }

  lemma PollerSwept(s: State, act: PollerAct, b: BackendId)
    requires PollerCan(s, act) && !act.Set? && !(act.SweepReturns? && b == s.poller.drain.of)
    ensures B(PollerEffect(s, act).backends, b).sweptAt == B(s.backends, b).sweptAt
  {
  }

  lemma SweptUnchanged(c: Config, s: State, a: Action, b: BackendId)
    requires Refs(s) && Can(s, a)
    requires !(a.OfMonitor? && a.mact.DrainReturns? && b == a.m.backend)
    requires !(a.OfPoller? && a.pact.SweepReturns? && b == s.poller.drain.of)
    ensures B(Act(c, s, a).backends, b).sweptAt == B(s.backends, b).sweptAt
  {
    match a
    case OfHandler(h, act) => HandlerSwept(s, h, act, b);
    case OfMonitor(m, act) => MonitorSwept(c, s, m, act, b);
    case OfChecker(_) =>
    case OfPoller(act) =>
      if act.Set? {
        SetAddrsFrame(s, act.addrs, b);
      } else {
        PollerSwept(s, act, b);
      }
  }

  lemma SweptStep(c: Config, s: State, a: Action)
    requires Refs(s) && Inv(s) && Can(s, a)
    ensures SweptInv(Step(c, s, a))
  {
    var s' := Act(c, s, a);
    ActKeeps(c, s, a);
    forall b ensures SweepHolds(s, b, B(s'.backends, b).sweptAt) {
      if a.OfMonitor? && a.mact.DrainReturns? && b == a.m.backend {
        OverMeansSwept(s, s.threads[a.m].pc.drain);
      } else if a.OfPoller? && a.pact.SweepReturns? && b == s.poller.drain.of {
        OverMeansSwept(s, s.poller.drain);
      } else {
        SweptUnchanged(c, s, a, b);
      }
    }
    EvolvesKeepsSwept(s, s');
  }

  lemma DrainsStep(c: Config, s: State, a: Action)
    requires Refs(s) && Inv(s) && Can(s, a)
    ensures DrainsOk(Step(c, s, a))
  {
    var s' := Act(c, s, a);
    forall m | m in s'.threads && s'.threads[m].pc.Draining?
      ensures DrainOk(Step(c, s, a), s'.threads[m].pc.drain) && s'.threads[m].pc.drain.of == m.backend
    {
      MonitorDrainsStep(c, s, a, m);
    }
    if s'.poller.Sweeping? {
      PollerDrainStep(c, s, a);
    }
  }

  lemma ConnStep(c: Config, s: State, a: Action)
    requires Refs(s) && Inv(s) && Can(s, a)
    ensures ConnInv(Step(c, s, a))
  {
    ActKeeps(c, s, a);
  }

  lemma InvStep(c: Config, s: State, a: Action)
    requires Refs(s) && Inv(s) && Can(s, a)
    ensures Refs(Step(c, s, a)) && Inv(Step(c, s, a))
  {
    StepRefs(c, s, a);
    ConnStep(c, s, a);
    DrainsStep(c, s, a);
    SweptStep(c, s, a);
  }

  lemma StartInv(addrs: seq<string>)
    ensures Refs(Start(addrs)) && Inv(Start(addrs))
  {
    StartRefs(addrs);
  }

  /** Both invariants hold wherever an interleaving leads. */
  lemma {:induction false} InvReached(c: Config, addrs: seq<string>, run: seq<Action>, s: State)
    requires Run(c, addrs, run) == Some(s)
    ensures Refs(s) && Inv(s)
    decreases |run|
  {
    if run == [] {
      StartInv(addrs);
    } else {
      var before := Run(c, addrs, run[..|run| - 1]).value;
      InvReached(c, addrs, run[..|run| - 1], before);
      InvStep(c, before, run[|run| - 1]);
    }
  }

  // ---------------------------------------------------------------- what every interleaving keeps

  /** Some thread is in the middle of this drain. */
  ghost predicate UnderWay(s: State, d: Drain) {
    (exists m | m in s.threads :: s.threads[m].pc == Draining(d)) || (s.poller.Sweeping? && s.poller.drain == d)
  }

  lemma OverMeansClosed(s: State, d: Drain)
    requires ConnInv(s) && DrainOk(s, d) && DrainOver(d)
    ensures forall h | h in d.snapshot ::
      h in s.closed && h in B(s.backends, d.of).gone && h !in B(s.backends, d.of).conns
  {
  }

  /** When a drain returns, every connection of its snapshot is closed and out of the set. */
  lemma DrainClosesSnapshot(c: Config, addrs: seq<string>, run: seq<Action>, s: State, d: Drain)
    requires Run(c, addrs, run) == Some(s) && UnderWay(s, d) && DrainOver(d)
    ensures forall h | h in d.snapshot ::
      h in s.closed && h in B(s.backends, d.of).gone && h !in B(s.backends, d.of).conns
  {
    InvReached(c, addrs, run, s);
    OverMeansClosed(s, d);
  }

  lemma GoneStays(s: State, s': State, b: BackendId, h: HandlerId)
    requires ConnInv(s) && ConnInv(s') && Evolves(s, s')
    ensures h in B(s.backends, b).gone ==> h in B(s'.backends, b).gone && h !in B(s'.backends, b).conns
    ensures h in B(s.backends, b).conns && h !in B(s'.backends, b).conns ==> h in B(s'.backends, b).gone
  {
    assert h in B(s'.backends, b).conns <==> H(s'.handlers, h).pc == Piping(b) && h !in s'.released;
  }

  /** A connection leaves the set once: having left it, it never comes back. */
  lemma LeavesOnce(c: Config, addrs: seq<string>, run: seq<Action>, s: State, a: Action, b: BackendId, h: HandlerId)
    requires Run(c, addrs, run) == Some(s) && Can(s, a)
    ensures var s' := Act(c, s, a);
      && (h in B(s.backends, b).gone ==> h in B(s'.backends, b).gone && h !in B(s'.backends, b).conns)
      && (h in B(s.backends, b).conns && h !in B(s'.backends, b).conns ==> h in B(s'.backends, b).gone)
  {
    InvReached(c, addrs, run, s);
    ActKeeps(c, s, a);
    GoneStays(s, Act(c, s, a), b, h);
  }

  lemma StagesAreDisjoint(s: State, b: BackendId)
    requires ConnInv(s)
    ensures var x := B(s.backends, b);
      x.pending !! x.conns && x.conns !! x.gone && x.pending !! x.gone
  {
    var x := B(s.backends, b);
    forall h ensures !(h in x.pending && h in x.conns) && !(h in x.conns && h in x.gone)
      && !(h in x.pending && h in x.gone)
    {
      assert h in x.conns <==> H(s.handlers, h).pc == Piping(b) && h !in s.released;
      assert h in x.pending <==> H(s.handlers, h).pc == Counted(b);
    }
  }

  /** ConnsTotal counts the registered, the closed, and the handlers between the two steps of Track, each once. */
  lemma TotalIsAccountedFor(c: Config, addrs: seq<string>, run: seq<Action>, s: State, b: BackendId)
    requires Run(c, addrs, run) == Some(s)
    ensures var x := B(s.backends, b);
      && x.total == |x.pending| + |x.conns| + |x.gone|
      && x.pending !! x.conns && x.conns !! x.gone && x.pending !! x.gone
      && (forall h :: h in x.pending <==> H(s.handlers, h).pc == Counted(b))
      && (forall h :: h in x.conns <==> H(s.handlers, h).pc == Piping(b) && h !in s.released)
  {
    InvReached(c, addrs, run, s);
    StagesAreDisjoint(s, b);
  }
}

/** Instances are never forged: whatever any thread refers to has been created, and a new instance is new to all. */
module BalancerRefs {
  import opened Balancer

  predicate Below(bs: seq<BackendId>, n: BackendId) {
    forall i | 0 <= i < |bs| :: bs[i] < n
  }

  predicate HandlerBelow(x: Handler, n: BackendId) {
    && Below(x.seen, n)
    && match x.pc
       case Reading(_, healthy) => Below(healthy, n)
       case Dialing(order, _) => Below(order, n)
       case Counted(to) => to < n
       case Piping(to) => to < n
       case Released(to) => to < n
       case _ => true
  }

  predicate PollerBelow(p: Poller, n: BackendId) {
    match p
    case Idle => true
    case Removing(removed, _) => Below(removed, n)
    case Sweeping(removed, _, drain) => Below(removed, n) && drain.of < n
  }

  ghost predicate Refs(s: State) {
    && Below(s.pool, s.nextBackend)
    && (forall b | b in s.backends :: b < s.nextBackend)
    && (forall h :: HandlerBelow(H(s.handlers, h), s.nextBackend))
    && (forall m | m in s.threads :: m.backend < s.nextBackend)
    && (s.checker.Reconciling? ==> forall b | b in s.checker.current :: b < s.nextBackend)
    && PollerBelow(s.poller, s.nextBackend)
  }

  lemma SamePermutationBelow(xs: seq<BackendId>, ys: seq<BackendId>, n: BackendId)
    requires multiset(xs) == multiset(ys) && Below(ys, n)
    ensures Below(xs, n)
  {
    forall i | 0 <= i < |xs| ensures xs[i] < n {
      assert xs[i] in multiset(xs);
      assert xs[i] in ys;
    }
  }

  lemma QuietBelow(s: State, h: HandlerId, act: HandlerAct)
    requires Refs(s) && HandlerCan(s, h, act) && Quiet(act)
    ensures HandlerBelow(QuietNext(s, H(s.handlers, h), act), s.nextBackend)
  {
    var x := H(s.handlers, h);
    assert HandlerBelow(x, s.nextBackend);
    if act.Choose? && x.pc.healthy != [] {
      SamePermutationBelow(act.order, x.pc.healthy, s.nextBackend);
    }
  }

  lemma OneHandlerRefs(s: State, r: State, h: HandlerId, x: Handler)
    requires Refs(s) && HandlerBelow(x, s.nextBackend) && SameElsewhere(s, r)
    requires forall b | b in r.backends :: b < s.nextBackend
    requires r.handlers == PutH(s.handlers, h, x)
    ensures Refs(r)
  {
  }

  lemma LoudRefs(s: State, h: HandlerId, act: HandlerAct)
    requires Refs(s) && HandlerCan(s, h, act) && !Quiet(act)
    ensures Refs(HandlerStep(s, h, act))
  {
    assert HandlerBelow(H(s.handlers, h), s.nextBackend);
    var r := HandlerStep(s, h, act);
    OneHandlerRefs(s, r, h, H(r.handlers, h));
  }

  lemma HandlerRefs(s: State, h: HandlerId, act: HandlerAct)
    requires Refs(s) && HandlerCan(s, h, act)
    ensures Refs(HandlerStep(s, h, act))
  {
    if Quiet(act) {
      QuietBelow(s, h, act);
      OneHandlerRefs(s, HandlerStep(s, h, act), h, QuietNext(s, H(s.handlers, h), act));
    } else {
      LoudRefs(s, h, act);
    }
  }

  lemma PutRefs(s: State, b: BackendId, x: Backend)
    requires Refs(s) && b < s.nextBackend
    ensures Refs(Put(s, b, x))
  {
  }

  lemma DrainRefs(s: State, d: Drain, act: DrainAct)
    requires Refs(s) && DrainCan(d, act) && d.of < s.nextBackend
    ensures Refs(DrainEffect(s, d, act))
  {
  }

  lemma MonitorEffectRefs(c: Config, s: State, m: MonitorId, act: MonitorAct)
    requires Refs(s) && MonitorCan(s, m, act)
    requires s.threads[m].pc.Draining? ==> s.threads[m].pc.drain.of == m.backend
    ensures Refs(MonitorEffect(c, s, m, act))
  {
    var s' := MonitorEffect(c, s, m, act);
    match act
    case DrainIt(a) => DrainRefs(s, s.threads[m].pc.drain, a);
    case ReportIt => PutRefs(s, m.backend, B(s'.backends, m.backend));
    case Copy => PutRefs(s, m.backend, B(s'.backends, m.backend));
    case DrainReturns => PutRefs(s, m.backend, B(s'.backends, m.backend));
    case _ =>
  }

  lemma MonitorRefs(c: Config, s: State, m: MonitorId, act: MonitorAct)
    requires Refs(s) && MonitorCan(s, m, act)
    requires s.threads[m].pc.Draining? ==> s.threads[m].pc.drain.of == m.backend
    ensures Refs(MonitorStep(c, s, m, act))
  {
    MonitorEffectRefs(c, s, m, act);
  }

  lemma CheckerRefs(s: State, act: CheckerAct)
    requires Refs(s) && CheckerCan(s, act)
    ensures Refs(CheckerStep(s, act))
  {
  }

  lemma {:induction false} InstanceIs(s: State, pool: seq<BackendId>, a: string)
    ensures var r := Instance(s, pool, a);
      if r.Some? then r.value in pool && B(s.backends, r.value).addr == a
      else forall i | 0 <= i < |pool| :: B(s.backends, pool[i]).addr != a
    decreases |pool|
  {
    if pool != [] {
      InstanceIs(s, pool[..|pool| - 1], a);
    }
  }

  /** The instances of a list of addresses are the pool's own or newly numbered. */
  lemma {:induction false} InstancesAre(s: State, addrs: seq<string>, next: BackendId)
    ensures var r := Instances(s, addrs, next);
      && |r| == |addrs|
      && forall i | 0 <= i < |r| :: r[i] in s.pool || next <= r[i] < next + |addrs|
    decreases |addrs|
  {
    if addrs != [] {
      var found := Instance(s, s.pool, addrs[0]);
      InstancesAre(s, addrs[1..], if found.Some? then next else next + 1);
      InstanceIs(s, s.pool, addrs[0]);
    }
  }

  lemma {:induction false} NotKeptAre(s: State, pool: seq<BackendId>, addrs: seq<string>)
    ensures forall i | 0 <= i < |NotKept(s, pool, addrs)| ::
      var b := NotKept(s, pool, addrs)[i];
      b in pool && B(s.backends, b).addr !in addrs
    decreases |pool|
  {
    if pool != [] {
      NotKeptAre(s, pool[1..], addrs);
    }
  }

  lemma SetAddrsRefs(s: State, addrs: seq<string>)
    requires Refs(s)
    ensures Refs(SetAddrs(s, addrs))
  {
    InstancesAre(s, addrs, s.nextBackend);
    NotKeptAre(s, s.pool, addrs);
    var s' := SetAddrs(s, addrs);
    forall h ensures HandlerBelow(H(s'.handlers, h), s'.nextBackend) {
      assert HandlerBelow(H(s.handlers, h), s.nextBackend);
    }
  }

  lemma PollerRefs(s: State, act: PollerAct)
    requires Refs(s) && PollerCan(s, act)
    ensures Refs(PollerStep(s, act))
  {
    match act
    case Set(addrs) => SetAddrsRefs(s, addrs);
    case CopyRemoved =>
      var b := s.poller.removed[s.poller.i];
      PutRefs(s, b, B(PollerEffect(s, act).backends, b));
    case SweepIt(a) => DrainRefs(s, s.poller.drain, a);
    case SweepReturns => PutRefs(s, s.poller.drain.of, B(PollerEffect(s, act).backends, s.poller.drain.of));
    case Finish =>
  }

  lemma StepRefs(c: Config, s: State, a: Action)
    requires Refs(s) && Can(s, a)
    requires forall m | m in s.threads && s.threads[m].pc.Draining? :: s.threads[m].pc.drain.of == m.backend
    ensures Refs(Step(c, s, a))
  {
    match a
    case OfHandler(h, act) => HandlerRefs(s, h, act);
    case OfMonitor(m, act) => MonitorRefs(c, s, m, act);
    case OfChecker(act) => CheckerRefs(s, act);
    case OfPoller(act) => PollerRefs(s, act);
  }

  lemma StartRefs(addrs: seq<string>)
    ensures Refs(Start(addrs))
  {
  }
}

/**
 The running balancer as interleaved threads: connection handlers, one monitor per backend, the
 checker that starts and cancels monitors, and the discovery poller that changes the pool and drains
 what it removes. Every critical section and every atomic operation is one step; a clock counts them.
 Fields marked history are read by no step.
 */
module Balancer {
  import opened Backends
  import opened Options

  type BackendId = nat
  type HandlerId = nat   // a handler registers at most one connection, which shares its name

  /** Reconcile starts at most one monitor per backend in each of its rounds. */
  datatype MonitorId = MonitorId(round: nat, backend: BackendId)

  datatype Backend = Backend(
    addr: string, health: Health, conns: set<HandlerId>, total: nat, drained: nat,
    // history: the last turn to unhealthy, the removal from the pool, the latest snapshot of a finished drain
    downAt: nat, removedAt: nat, sweptAt: Option<nat>,
    // history: connections counted but not yet registered, and those that have left the set
    pending: set<HandlerId>, gone: set<HandlerId>,
    // history: connections in the finished drains of monitors and of the poller; whether two drains overlapped
    monitorDrained: set<HandlerId>, pollerDrained: set<HandlerId>, overlapped: bool)

  const NEW_BACKEND := Backend("", FRESH, {}, 0, 0, 0, 0, None, {}, {}, {}, {}, false)

  datatype HandlerPc =
    | Fresh
    | Reading(i: nat, healthy: seq<BackendId>)      // in Candidates, the first i backends read
    | Dialing(order: seq<BackendId>, k: nat)
    | Counted(to: BackendId)                        // between the two steps of Track
    | Piping(to: BackendId)
    | Released(to: BackendId)                       // between the two steps of Close
    | Done

  datatype Handler = Handler(
    pc: HandlerPc, seen: seq<BackendId>, bestEffort: bool,
    // history: when the pool was copied, when each backend was read healthy, when the connection was registered
    copiedAt: nat, readAt: map<BackendId, nat>, registeredAt: nat,
    // history: the backends read unhealthy, the order of dialling, and those whose dial has failed, in order
    readDown: set<BackendId>, candidates: seq<BackendId>, failed: seq<BackendId>)

  const NEW_HANDLER := Handler(Fresh, [], false, 0, map[], 0, {}, [], [])

  /** A DrainAll under way: its snapshot, what it has still to close, and the connection it is closing. */
  datatype Drain = Drain(of: BackendId, at: nat, snapshot: set<HandlerId>, todo: set<HandlerId>,
                         closing: Option<HandlerId>)

  datatype MonitorPc =
    | Probing
    | Checked(ok: bool)          // the context was not cancelled; about to report
    | Changed                    // the report changed the state; about to look which way
    | Snapshotting               // about to copy the connections
    | Draining(drain: Drain)
    | Counting                   // about to copy the pool for HealthyCount
    | Scanning(seen: seq<BackendId>, i: nat, anyHealthy: bool)
    | Committing(degraded: bool)
    | Waiting                    // for a tick or the cancellation
    | Exited

  /** lateReports is history: reports made after the cancellation. */
  datatype Monitor = Monitor(pc: MonitorPc, cancelled: bool, lateReports: nat)

  datatype Checker = Resting | Reconciling(current: set<BackendId>) | Stopped

  datatype Poller =
    | Idle
    | Removing(removed: seq<BackendId>, i: nat)
    | Sweeping(removed: seq<BackendId>, i: nat, drain: Drain)

  datatype State = State(
    clock: nat,
    pool: seq<BackendId>, backends: map<BackendId, Backend>, nextBackend: BackendId,
    handlers: map<HandlerId, Handler>, released: set<HandlerId>, closed: set<HandlerId>,
    monitors: map<BackendId, MonitorId>, threads: map<MonitorId, Monitor>, round: nat, checker: Checker,
    cancelled: bool, poller: Poller,
    degraded: bool, changes: seq<bool>)

  datatype Config = Config(fall: nat, rise: nat)

  type BackendMap = map<BackendId, Backend>

  type HandlerMap = map<HandlerId, Handler>

  function B(bs: BackendMap, b: BackendId): Backend {
    if b in bs then bs[b] else NEW_BACKEND
  }

  function H(hs: HandlerMap, h: HandlerId): Handler {
    if h in hs then hs[h] else NEW_HANDLER
  }

  function PutB(bs: BackendMap, b: BackendId, x: Backend): (r: BackendMap)
    ensures forall y {:trigger B(r, y)} :: B(r, y) == if y == b then x else B(bs, y)
  {
    bs[b := x]
  }

  function PutH(hs: HandlerMap, h: HandlerId, x: Handler): (r: HandlerMap)
    ensures forall y {:trigger H(r, y)} :: H(r, y) == if y == h then x else H(hs, y)
  {
    hs[h := x]
  }

  function Put(s: State, b: BackendId, x: Backend): State {
    s.(backends := PutB(s.backends, b, x))
  }

  function Go(s: State, h: HandlerId, pc: HandlerPc): State {
    s.(handlers := PutH(s.handlers, h, H(s.handlers, h).(pc := pc)))
  }

  /** The pool at start: one new backend per address. */
  function Start(addrs: seq<string>): State {
    State(1, seq(|addrs|, i => i), map i: nat | i < |addrs| :: NEW_BACKEND.(addr := addrs[i]), |addrs|,
          map[], {}, {}, map[], map[], 0, Resting, false, Idle, false, [])
  }

  // ---------------------------------------------------------------- handlers

  datatype HandlerAct =
    | CopyPool | ReadHealth | Choose(order: seq<BackendId>) | DialFails | DialSucceeds | GiveUp
    | Register | Unregister | CloseConn

  predicate HandlerCan(s: State, h: HandlerId, act: HandlerAct) {
    var x := H(s.handlers, h);
    match act
    case CopyPool => x.pc.Fresh?
    case ReadHealth => x.pc.Reading? && x.pc.i < |x.seen|
    case Choose(order) =>
      && x.pc.Reading? && x.pc.i == |x.seen|
      && if x.pc.healthy == [] then order == x.seen else multiset(order) == multiset(x.pc.healthy)
    case DialFails => x.pc.Dialing? && x.pc.k < |x.pc.order|
    case DialSucceeds => x.pc.Dialing? && x.pc.k < |x.pc.order|
    case GiveUp => x.pc.Dialing? && x.pc.k >= |x.pc.order|
    case Register => x.pc.Counted?
    case Unregister => x.pc.Piping?
    case CloseConn => x.pc.Released?
  }

  /** The once of trackedConn.Close: the first caller takes the connection out of the set. */
  function Once(s: State, b: BackendId, h: HandlerId): State {
    if h in s.released then s
    else
      var x := B(s.backends, b);
      Put(s, b, x.(conns := x.conns - {h}, gone := x.gone + {h})).(released := s.released + {h})
  }

  /** The steps of a handler that touch nothing but the handler itself and its socket. */
  predicate Quiet(act: HandlerAct) {
    !act.DialSucceeds? && !act.Register? && !act.Unregister?
  }

  function QuietNext(s: State, x: Handler, act: HandlerAct): Handler
    requires Quiet(act)
    requires match act
      case CopyPool => x.pc.Fresh?
      case ReadHealth => x.pc.Reading? && x.pc.i < |x.seen|
      case Choose(_) => x.pc.Reading?
      case DialFails => x.pc.Dialing? && x.pc.k < |x.pc.order|
      case _ => true
  {
    match act
    case CopyPool => x.(pc := Reading(0, []), seen := s.pool, copiedAt := s.clock)
    case ReadHealth =>
      var b := x.seen[x.pc.i];
      if B(s.backends, b).health.healthy then
        x.(pc := Reading(x.pc.i + 1, x.pc.healthy + [b]), readAt := x.readAt[b := s.clock])
      else x.(pc := Reading(x.pc.i + 1, x.pc.healthy), readDown := x.readDown + {b})
    case Choose(order) => x.(pc := Dialing(order, 0), candidates := order, bestEffort := x.pc.healthy == [])
    case DialFails => x.(pc := Dialing(x.pc.order, x.pc.k + 1), failed := x.failed + [x.pc.order[x.pc.k]])
    case _ => x.(pc := Done)
  }

  /** Only the handlers and the connections have changed. */
  predicate SameElsewhere(s: State, r: State) {
    r == s.(handlers := r.handlers, backends := r.backends, released := r.released, closed := r.closed)
  }

  /** ConnsTotal goes up before the connection is registered. */
  function CountIt(s: State, h: HandlerId, b: BackendId): (r: State)
    ensures SameElsewhere(s, r)
  {
    var y := B(s.backends, b);
    Go(Put(s, b, y.(total := y.total + 1, pending := y.pending + {h})), h, Counted(b))
  }

  function RegisterIt(s: State, h: HandlerId, b: BackendId): (r: State)
    ensures SameElsewhere(s, r)
  {
    var y := B(s.backends, b);
    Put(s, b, y.(conns := y.conns + {h}, pending := y.pending - {h}))
      .(handlers := PutH(s.handlers, h, H(s.handlers, h).(pc := Piping(b), registeredAt := s.clock)))
  }

  function HandlerStep(s: State, h: HandlerId, act: HandlerAct): (r: State)
    requires HandlerCan(s, h, act)
    ensures SameElsewhere(s, r)
  {
    var x := H(s.handlers, h);
    match act
    case DialSucceeds => CountIt(s, h, x.pc.order[x.pc.k])
    case Register => RegisterIt(s, h, x.pc.to)
    case Unregister => Go(Once(s, x.pc.to, h), h, Released(x.pc.to))
    case _ =>
      s.(handlers := PutH(s.handlers, h, QuietNext(s, x, act)),
         closed := if act.CloseConn? then s.closed + {h} else s.closed)
  }

  // ---------------------------------------------------------------- drains

  /** Only the connections have changed. */
  predicate OnlyConns(s: State, r: State) {
    r == s.(backends := r.backends, released := r.released, closed := r.closed)
  }

  /** The lock-protected copy that DrainAll starts with. */
  function BeginDrain(s: State, b: BackendId): Drain {
    Drain(b, s.clock, B(s.backends, b).conns, B(s.backends, b).conns, None)
  }

  datatype DrainAct = Take(h: HandlerId) | CloseIt

  predicate DrainCan(d: Drain, act: DrainAct) {
    match act
    case Take(h) => d.closing.None? && h in d.todo
    case CloseIt => d.closing.Some?
  }

  /** Close on one connection of the snapshot: first its once, then the socket. */
  function DrainNext(d: Drain, act: DrainAct): Drain
    requires DrainCan(d, act)
  {
    match act
    case Take(h) => d.(closing := Some(h))
    case CloseIt => d.(closing := None, todo := d.todo - {d.closing.value})
  }

  function DrainEffect(s: State, d: Drain, act: DrainAct): (r: State)
    requires DrainCan(d, act)
    ensures OnlyConns(s, r)
    ensures forall y {:trigger B(r.backends, y)} ::
      B(r.backends, y) == B(s.backends, y).(conns := B(r.backends, y).conns, gone := B(r.backends, y).gone)
  {
    match act
    case Take(h) => Once(s, d.of, h)
    case CloseIt => s.(closed := s.closed + {d.closing.value})
  }

  predicate DrainOver(d: Drain) {
    d.todo == {} && d.closing.None?
  }

  /** The later of the snapshots of finished drains. */
  function Latest(sweptAt: Option<nat>, at: nat): Option<nat> {
    if sweptAt.Some? && at <= sweptAt.value then sweptAt else Some(at)
  }

  // ---------------------------------------------------------------- monitors

  datatype MonitorAct =
    | Probe(ok: bool) | ReportIt | Look | Copy | DrainIt(act: DrainAct) | DrainReturns
    | CopyForCount | Scan | ScanReturns | Commit | Tick | Exit

  predicate MonitorCan(s: State, m: MonitorId, act: MonitorAct) {
    && m in s.threads
    && var pc := s.threads[m].pc;
      match act
      case Probe(_) => pc.Probing?
      case ReportIt => pc.Checked?
      case Look => pc.Changed?
      case Copy => pc.Snapshotting?
      case DrainIt(a) => pc.Draining? && DrainCan(pc.drain, a)
      case DrainReturns => pc.Draining? && DrainOver(pc.drain)
      case CopyForCount => pc.Counting?
      case Scan => pc.Scanning? && pc.i < |pc.seen|
      case ScanReturns => pc.Scanning? && pc.i >= |pc.seen|
      case Commit => pc.Committing?
      case Tick => pc.Waiting?
      case Exit => pc.Waiting? && s.threads[m].cancelled
  }

  predicate PollerDrains(s: State, b: BackendId) {
    s.poller.Sweeping? && s.poller.drain.of == b
  }

  /** What a monitor does to what it shares with the other threads. */
  function MonitorEffect(c: Config, s: State, m: MonitorId, act: MonitorAct): (r: State)
    requires MonitorCan(s, m, act)
    ensures OnlyConns(s.(degraded := r.degraded, changes := r.changes), r)
  {
    var t := s.threads[m];
    var b := m.backend;
    var x := B(s.backends, b);
    match act
    case ReportIt =>
      var (health, turned) := Report(x.health, t.pc.ok, c.fall, c.rise);
      Put(s, b, x.(health := health, downAt := if turned && !health.healthy then s.clock else x.downAt))
    case Copy => Put(s, b, x.(overlapped := x.overlapped || PollerDrains(s, b)))
    case DrainIt(a) => DrainEffect(s, t.pc.drain, a)
    case DrainReturns =>
      var d := t.pc.drain;
      Put(s, b, x.(drained := x.drained + |d.snapshot|, sweptAt := Latest(x.sweptAt, d.at),
                   monitorDrained := x.monitorDrained + d.snapshot))
    case Commit =>
      s.(degraded := t.pc.degraded,
         changes := if t.pc.degraded == s.degraded then s.changes else s.changes + [t.pc.degraded])
    case _ => s
  }

  /** Where the monitor goes next. */
  function MonitorNext(c: Config, s: State, m: MonitorId, act: MonitorAct): Monitor
    requires MonitorCan(s, m, act)
  {
    var t := s.threads[m];
    var b := m.backend;
    var x := B(s.backends, b);
    match act
    case Probe(ok) => t.(pc := if t.cancelled then Waiting else Checked(ok))
    case ReportIt =>
      t.(pc := if Report(x.health, t.pc.ok, c.fall, c.rise).1 then Changed else Waiting,
         lateReports := t.lateReports + if t.cancelled then 1 else 0)
    case Look => t.(pc := if x.health.healthy then Counting else Snapshotting)
    case Copy => t.(pc := Draining(BeginDrain(s, b)))
    case DrainIt(a) => t.(pc := Draining(DrainNext(t.pc.drain, a)))
    case DrainReturns => t.(pc := Counting)
    case CopyForCount => t.(pc := Scanning(s.pool, 0, false))
    case Scan =>
      t.(pc := Scanning(t.pc.seen, t.pc.i + 1, t.pc.anyHealthy || B(s.backends, t.pc.seen[t.pc.i]).health.healthy))
    case ScanReturns => t.(pc := Committing(!t.pc.anyHealthy))
    case Commit => t.(pc := Waiting)
    case Tick => t.(pc := Probing)
    case Exit => t.(pc := Exited)
  }

  function MonitorStep(c: Config, s: State, m: MonitorId, act: MonitorAct): State
    requires MonitorCan(s, m, act)
  {
    MonitorEffect(c, s, m, act).(threads := s.threads[m := MonitorNext(c, s, m, act)])
  }

  // ---------------------------------------------------------------- the checker

  datatype CheckerAct = CopyForReconcile | Reconcile | Cancel | Stop

  predicate CheckerCan(s: State, act: CheckerAct) {
    match act
    case CopyForReconcile => s.checker.Resting?
    case Reconcile => s.checker.Reconciling?
    case Cancel => !s.cancelled
    case Stop => s.checker.Resting? && s.cancelled
  }

  /** The monitors that are registered for a backend that left the pool. */
  predicate Dropped(s: State, m: MonitorId, current: set<BackendId>) {
    m.backend in s.monitors && s.monitors[m.backend] == m && m.backend !in current
  }

  /** The monitors that a reconcile registers for the backends that have none. */
  function Added(s: State, current: set<BackendId>): map<BackendId, MonitorId> {
    map b | b in current && b !in s.monitors :: MonitorId(s.round, b)
  }

  function Kept(s: State, current: set<BackendId>): map<BackendId, MonitorId> {
    map b | b in s.monitors && b in current :: s.monitors[b]
  }

  /** The threads so far, those cancelled whose backend left the pool. */
  function Running(s: State, current: set<BackendId>): map<MonitorId, Monitor> {
    map m | m in s.threads ::
      if Dropped(s, m, current) then s.threads[m].(cancelled := true) else s.threads[m]
  }

  /** The new threads, which inherit the cancellation of the checker. */
  function Started(s: State, current: set<BackendId>): map<MonitorId, Monitor> {
    map m | m in Added(s, current).Values :: Monitor(Probing, s.cancelled, 0)
  }

  function CheckerStep(s: State, act: CheckerAct): State
    requires CheckerCan(s, act)
  {
    match act
    case CopyForReconcile => s.(checker := Reconciling(set b | b in s.pool))
    case Reconcile =>
      var current := s.checker.current;
      s.(monitors := Kept(s, current) + Added(s, current), threads := Running(s, current) + Started(s, current),
         round := s.round + 1, checker := Resting)
    case Cancel => s.(cancelled := true, threads := map m | m in s.threads :: s.threads[m].(cancelled := true))
    case Stop => s.(monitors := map[], checker := Stopped)
  }

  // ---------------------------------------------------------------- the poller

  /** The instance of an address in the pool, if it has one. */
  function Instance(s: State, pool: seq<BackendId>, a: string): Option<BackendId> {
    if pool == [] then None
    else if B(s.backends, pool[|pool| - 1]).addr == a then Some(pool[|pool| - 1])
    else Instance(s, pool[..|pool| - 1], a)
  }

  /** The second loop of SetAddrs: the instances of the addresses, new ones numbered from next. */
  function Instances(s: State, addrs: seq<string>, next: BackendId): seq<BackendId> {
    if addrs == [] then []
    else
      match Instance(s, s.pool, addrs[0])
      case Some(b) => [b] + Instances(s, addrs[1..], next)
      case None => [next] + Instances(s, addrs[1..], next + 1)
  }

  /** Its third loop: the backends that are not kept. */
  function NotKept(s: State, pool: seq<BackendId>, addrs: seq<string>): seq<BackendId> {
    if pool == [] then []
    else if B(s.backends, pool[0]).addr in addrs then NotKept(s, pool[1..], addrs)
    else [pool[0]] + NotKept(s, pool[1..], addrs)
  }

  /** The address of the instance numbered b among those that SetAddrs creates. */
  function AddrOfNew(s: State, addrs: seq<string>, next: BackendId, b: BackendId): string {
    if addrs == [] then ""
    else if Instance(s, s.pool, addrs[0]).Some? then AddrOfNew(s, addrs[1..], next, b)
    else if b == next then addrs[0]
    else AddrOfNew(s, addrs[1..], next + 1, b)
  }

  function SetAddrs(s: State, addrs: seq<string>): State {
    var pool := Instances(s, addrs, s.nextBackend);
    var next := s.nextBackend + |addrs|;
    var removed := NotKept(s, s.pool, addrs);
    var created := map b | s.nextBackend <= b < next :: NEW_BACKEND.(addr := AddrOfNew(s, addrs, s.nextBackend, b));
    var dropped := map b | b in s.pool && b !in pool :: B(s.backends, b).(removedAt := s.clock);
    s.(pool := pool, nextBackend := next, backends := s.backends + dropped + created, poller := Removing(removed, 0))
  }

  datatype PollerAct = Set(addrs: seq<string>) | CopyRemoved | SweepIt(act: DrainAct) | SweepReturns | Finish

  predicate PollerCan(s: State, act: PollerAct) {
    match act
    case Set(_) => s.poller.Idle?
    case CopyRemoved => s.poller.Removing? && s.poller.i < |s.poller.removed|
    case SweepIt(a) => s.poller.Sweeping? && DrainCan(s.poller.drain, a)
    case SweepReturns => s.poller.Sweeping? && DrainOver(s.poller.drain)
    case Finish => s.poller.Removing? && s.poller.i >= |s.poller.removed|
  }

  predicate MonitorDrains(s: State, b: BackendId) {
    exists m | m in s.threads :: s.threads[m].pc.Draining? && m.backend == b
  }

  function PollerEffect(s: State, act: PollerAct): (r: State)
    requires PollerCan(s, act) && !act.Set?
    ensures OnlyConns(s, r)
  {
    var p := s.poller;
    match act
    case CopyRemoved =>
      var b := p.removed[p.i];
      Put(s, b, B(s.backends, b).(overlapped := B(s.backends, b).overlapped || MonitorDrains(s, b)))
    case SweepIt(a) => DrainEffect(s, p.drain, a)
    case SweepReturns =>
      var d := p.drain;
      var x := B(s.backends, d.of);
      Put(s, d.of, x.(drained := x.drained + |d.snapshot|, sweptAt := Latest(x.sweptAt, d.at),
                      pollerDrained := x.pollerDrained + d.snapshot))
    case _ => s
  }

  function PollerNext(s: State, act: PollerAct): Poller
    requires PollerCan(s, act) && !act.Set?
  {
    var p := s.poller;
    match act
    case CopyRemoved => Sweeping(p.removed, p.i, BeginDrain(s, p.removed[p.i]))
    case SweepIt(a) => p.(drain := DrainNext(p.drain, a))
    case SweepReturns => Removing(p.removed, p.i + 1)
    case Finish => Idle
  }

  function PollerStep(s: State, act: PollerAct): State
    requires PollerCan(s, act)
  {
    if act.Set? then SetAddrs(s, act.addrs) else PollerEffect(s, act).(poller := PollerNext(s, act))
  }

  // ---------------------------------------------------------------- all of them

  datatype Action =
    | OfHandler(h: HandlerId, hact: HandlerAct)
    | OfMonitor(m: MonitorId, mact: MonitorAct)
    | OfChecker(cact: CheckerAct)
    | OfPoller(pact: PollerAct)

  predicate Can(s: State, a: Action) {
    match a
    case OfHandler(h, act) => HandlerCan(s, h, act)
    case OfMonitor(m, act) => MonitorCan(s, m, act)
    case OfChecker(act) => CheckerCan(s, act)
    case OfPoller(act) => PollerCan(s, act)
  }

  /** One step of one thread, on the state before the clock moves. */
  function Act(c: Config, s: State, a: Action): State
    requires Can(s, a)
  {
    match a
    case OfHandler(h, act) => HandlerStep(s, h, act)
    case OfMonitor(m, act) => MonitorStep(c, s, m, act)
    case OfChecker(act) => CheckerStep(s, act)
    case OfPoller(act) => PollerStep(s, act)
  }

  function Step(c: Config, s: State, a: Action): State
    requires Can(s, a)
  {
    Act(c, s, a).(clock := s.clock + 1)
  }

  /** Where an interleaving leads, if each of its actions is possible in turn. */
  function Run(c: Config, addrs: seq<string>, run: seq<Action>): Option<State> {
    if run == [] then Some(Start(addrs))
    else
      match Run(c, addrs, run[..|run| - 1])
      case None => None
      case Some(s) => if Can(s, run[|run| - 1]) then Some(Step(c, s, run[|run| - 1])) else None
  }

  /** The state that action number i of the run was taken in. */
  function Before(c: Config, addrs: seq<string>, run: seq<Action>, i: nat): Option<State>
    requires i < |run|
  {
    Run(c, addrs, run[..i])
  }

  lemma Extend(c: Config, addrs: seq<string>, run: seq<Action>, a: Action)
    requires Run(c, addrs, run).Some? && Can(Run(c, addrs, run).value, a)
    ensures Run(c, addrs, run + [a]) == Some(Step(c, Run(c, addrs, run).value, a))
  {
    assert (run + [a])[..|run|] == run;
  }
}

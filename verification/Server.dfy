/**
 Serve, Shutdown and the connection handlers, interleaved at every critical section, channel and
 wait-group operation. One Serve call and one Shutdown call, as the program makes them.
 */
module Server {
  import opened Options

  type Id = nat

  datatype Serve =
    | NotServing
    | ClosingEarly        // the flag was already set when the listener was registered
    | Accepting
    | Holding(conn: Id)   // accepted, not yet added to the wait group
    | Leaving(down: bool) // an accept failed and the flag was read; about to return
    | ReturnedNil | ReturnedErr

  datatype Handler = Spawned | Tracked | Untracked | Closed | Finished

  datatype Shutdown =
    | NotCalled
    | Flagged(listening: bool)   // the flag is set; whether a listener was registered then
    | Waiting                    // for the wait group or the end of the grace period
    | Forced                     // grace over, clients closed, waiting for the wait group
    | Returned

  /**
   closed holds the clients whose connection has been closed, by their handlers or by force. live holds the
   handlers that have not finished and countedAtZero those that had been counted when the wait reached zero:
   history the properties speak of.
   */
  datatype State = State(
    down: bool, registered: bool, listenerClosed: bool,
    serve: Serve, shutdown: Shutdown,
    handlers: map<Id, Handler>, clientConns: set<Id>, closed: set<Id>, wg: nat, next: Id, zero: bool,
    live: set<Id>, countedAtZero: set<Id>)

  const START := State(false, false, false, NotServing, NotCalled, map[], {}, {}, 0, 0, false, {}, {})

  datatype Action =
    | Register | CloseEarly | Accept | AcceptFails | Leave | Count
    | Track(h: Id) | Untrack(h: Id) | CloseClient(h: Id) | Finish(h: Id)
    | SetFlag | CloseListener | WaitReachesZero | GraceEnds | Return

  predicate Enabled(s: State, a: Action) {
    match a
    case Register => s.serve.NotServing?
    case CloseEarly => s.serve.ClosingEarly?
    case Accept => s.serve.Accepting? && !s.listenerClosed
    case AcceptFails => s.serve.Accepting?
    case Leave => s.serve.Leaving?
    case Count => s.serve.Holding?
    case Track(h) => h in s.handlers && s.handlers[h].Spawned?
    case Untrack(h) => h in s.handlers && s.handlers[h].Tracked?
    case CloseClient(h) => h in s.handlers && s.handlers[h].Untracked?
    case Finish(h) => h in s.handlers && s.handlers[h].Closed? && s.wg > 0
    case SetFlag => s.shutdown.NotCalled?
    case CloseListener => s.shutdown.Flagged?
    case WaitReachesZero => (s.shutdown.Waiting? || s.shutdown.Forced?) && s.wg == 0 && !s.zero
    case GraceEnds => s.shutdown.Waiting?
    case Return => (s.shutdown.Waiting? || s.shutdown.Forced?) && s.zero
  }

  function Step(s: State, a: Action): State
    requires Enabled(s, a)
  {
    match a
    case Register => s.(registered := true, serve := if s.down then ClosingEarly else Accepting)
    case CloseEarly => s.(listenerClosed := true, serve := ReturnedNil)
    case Accept => s.(serve := Holding(s.next), next := s.next + 1)
    case AcceptFails => s.(serve := Leaving(s.down))
    case Leave => s.(serve := if s.serve.down then ReturnedNil else ReturnedErr)
    case Count =>
      var h := s.serve.conn;
      s.(serve := Accepting, wg := s.wg + 1, handlers := s.handlers[h := Spawned], live := s.live + {h})
    case Track(h) => s.(handlers := s.handlers[h := Tracked], clientConns := s.clientConns + {h})
    case Untrack(h) => s.(handlers := s.handlers[h := Untracked], clientConns := s.clientConns - {h})
    case CloseClient(h) => s.(handlers := s.handlers[h := Closed], closed := s.closed + {h})
    case Finish(h) => s.(handlers := s.handlers[h := Finished], wg := s.wg - 1, live := s.live - {h})
    case SetFlag => s.(down := true, shutdown := Flagged(s.registered))
    case CloseListener => s.(shutdown := Waiting, listenerClosed := s.listenerClosed || s.shutdown.listening)
    case WaitReachesZero => s.(zero := true, countedAtZero := s.handlers.Keys)
    case GraceEnds => s.(shutdown := Forced, closed := s.closed + s.clientConns)
    case Return => s.(shutdown := Returned)
  }

  function Continue(from: State, run: seq<Action>): Option<State> {
    if run == [] then Some(from)
    else
      match Continue(from, run[..|run| - 1])
      case None => None
      case Some(s) => if Enabled(s, run[|run| - 1]) then Some(Step(s, run[|run| - 1])) else None
  }

  /** Where a run leads, if each of its actions is possible in turn. */
  function Run(run: seq<Action>): Option<State> {
    Continue(START, run)
  }

  // ---------------------------------------------------------------- the invariant

  ghost predicate HandlersInv(s: State) {
    && (forall h :: h in s.live <==> h in s.handlers && !s.handlers[h].Finished?)
    && (forall h :: h in s.clientConns <==> h in s.handlers && s.handlers[h].Tracked?)
    && (forall h | h in s.handlers :: h < s.next)
    && (forall h | h in s.handlers && (s.handlers[h].Closed? || s.handlers[h].Finished?) :: h in s.closed)
    && (s.serve.Holding? ==> s.serve.conn < s.next && s.serve.conn !in s.handlers)
    && s.wg == |s.live|
  }

  /** Serve has not looked at the flag yet, or has seen it set. */
  predicate SeesFlag(s: State) {
    s.serve.NotServing? || s.serve.ClosingEarly?
  }

  ghost predicate ShutdownInv(s: State) {
    && (s.down <==> !s.shutdown.NotCalled?)
    && (s.registered <==> !s.serve.NotServing?)
    && (s.serve.ClosingEarly? ==> s.down)
    && (s.shutdown.Flagged? && !s.shutdown.listening ==> SeesFlag(s) || s.listenerClosed)
    && (s.shutdown.Waiting? || s.shutdown.Forced? || s.shutdown.Returned? ==> SeesFlag(s) || s.listenerClosed)
    && (s.listenerClosed ==> s.down)
  }

  /** Once the wait has reached zero only a connection accepted before, and not counted then, can still be handled. */
  ghost predicate ZeroInv(s: State) {
    s.zero ==>
      && (s.shutdown.Waiting? || s.shutdown.Forced? || s.shutdown.Returned?)
      && s.live !! s.countedAtZero
      && s.countedAtZero <= s.handlers.Keys
      && |s.live| + (if s.serve.Holding? then 1 else 0) <= 1
  }

  ghost predicate Inv(s: State) {
    HandlersInv(s) && ShutdownInv(s) && ZeroInv(s) && (s.shutdown.Returned? ==> s.zero)
  }

  lemma CountKeeps(s: State)
    requires HandlersInv(s) && s.serve.Holding?
    ensures HandlersInv(Step(s, Count))
  {
  }

  lemma FinishKeeps(s: State, h: Id)
    requires HandlersInv(s) && Enabled(s, Finish(h))
    ensures HandlersInv(Step(s, Finish(h))) && |Step(s, Finish(h)).live| < |s.live|
  {
    assert s.live == Step(s, Finish(h)).live + {h};
  }

  lemma HandlersStep(s: State, a: Action)
    requires HandlersInv(s) && Enabled(s, a)
    ensures HandlersInv(Step(s, a))
  {
    match a
    case Count => CountKeeps(s);
    case Finish(h) => FinishKeeps(s, h);
    case _ =>
  }

  lemma ZeroStep(s: State, a: Action)
    requires Inv(s) && Enabled(s, a)
    ensures ZeroInv(Step(s, a))
  {
    if a.Finish? {
      FinishKeeps(s, a.h);
    } else if a.Count? && s.zero {
      assert |s.live| == 0;
    }
  }

  lemma InvStep(s: State, a: Action)
    requires Inv(s) && Enabled(s, a)
    ensures Inv(Step(s, a))
  {
    HandlersStep(s, a);
    ZeroStep(s, a);
  }

  lemma {:induction false} InvReached(run: seq<Action>)
    ensures Run(run).Some? ==> Inv(Run(run).value)
    decreases |run|
  {
    if run != [] {
      InvReached(run[..|run| - 1]);
      var before := Run(run[..|run| - 1]);
      if before.Some? && Enabled(before.value, run[|run| - 1]) {
        InvStep(before.value, run[|run| - 1]);
      }
    }
  }

  // ---------------------------------------------------------------- what every interleaving keeps

  lemma Subset(a: set<Id>, b: set<Id>)
    requires a <= b
    ensures |a| <= |b|
  {
    assert b == a + (b - a);
  }

  /** Clients that a shutdown would force-close belong to handlers that the wait group still counts. */
  lemma ClientsAreCounted(run: seq<Action>)
    requires Run(run).Some?
    ensures var s := Run(run).value;
      s.clientConns <= s.live && |s.clientConns| <= s.wg
  {
    InvReached(run);
    var s := Run(run).value;
    Subset(s.clientConns, s.live);
  }

  /** Whoever wins the race between registering the listener and setting the flag, the listener ends up closed. */
  lemma ListenerEndsClosed(run: seq<Action>)
    requires Run(run).Some?
    ensures var s := Run(run).value;
      && s.down ==> s.shutdown.Flagged? || SeesFlag(s) || s.listenerClosed
    ensures var s := Run(run).value;
      s.shutdown.Returned? && s.registered ==> s.serve.ClosingEarly? || s.listenerClosed
  {
    InvReached(run);
  }

  /** Serve has returned an error, or is about to because it read the flag unset. */
  predicate LeavesWithErr(s: State) {
    s.serve.ReturnedErr? || (s.serve.Leaving? && !s.serve.down)
  }

  ghost predicate MayReturnErr(s: State) {
    exists more :: Continue(s, more).Some? && Continue(s, more).value.serve.ReturnedErr?
  }

  lemma FlagStays(s: State, a: Action)
    requires s.down && !LeavesWithErr(s) && Enabled(s, a)
    ensures Step(s, a).down && !LeavesWithErr(Step(s, a))
  {
  }

  lemma {:induction false} NilAfterFlag(s: State, run: seq<Action>)
    requires s.down && !LeavesWithErr(s) && Continue(s, run).Some?
    ensures Continue(s, run).value.down && !LeavesWithErr(Continue(s, run).value)
    decreases |run|
  {
    if run != [] {
      NilAfterFlag(s, run[..|run| - 1]);
      FlagStays(Continue(s, run[..|run| - 1]).value, run[|run| - 1]);
    }
  }

  lemma OneAction(s: State, a: Action)
    requires Enabled(s, a)
    ensures Continue(s, [a]) == Some(Step(s, a))
  {
    assert [a][..|[a]| - 1] == [] && Continue(s, []) == Some(s);
  }

  /** Once the flag is set, an error comes out of Serve only if Serve had read the flag before it was set. */
  lemma OnlyNilAfterFlag(s: State)
    requires s.down
    ensures MayReturnErr(s) <==> LeavesWithErr(s)
  {
    if s.serve.ReturnedErr? {
      assert Continue(s, []) == Some(s);
    } else if LeavesWithErr(s) {
      OneAction(s, Leave);
    } else {
      forall more | Continue(s, more).Some? ensures !Continue(s, more).value.serve.ReturnedErr? {
        NilAfterFlag(s, more);
      }
    }
  }

  lemma NoFlagStep(s: State, a: Action)
    requires Inv(s) && !s.down && Enabled(s, a) && !a.SetFlag?
    requires !s.serve.ReturnedNil? && (s.serve.Leaving? ==> !s.serve.down)
    ensures var r := Step(s, a); !r.down && !r.serve.ReturnedNil? && (r.serve.Leaving? ==> !r.serve.down)
  {
  }

  /** Without a shutdown Serve never returns nil, and an accept error makes it return the error. */
  lemma {:induction false} ErrWithoutFlag(run: seq<Action>)
    requires Run(run).Some? && forall i | 0 <= i < |run| :: !run[i].SetFlag?
    ensures var s := Run(run).value;
      && !s.down && !s.serve.ReturnedNil? && !s.serve.ClosingEarly? && !s.listenerClosed
      && (s.serve.Leaving? ==> Step(s, Leave).serve.ReturnedErr?)
    decreases |run|
  {
    InvReached(run);
    if run != [] {
      ErrWithoutFlag(run[..|run| - 1]);
      InvReached(run[..|run| - 1]);
      NoFlagStep(Run(run[..|run| - 1]).value, run[|run| - 1]);
    }
  }

  lemma ClosedGrows(s: State, a: Action)
    requires Enabled(s, a)
    ensures s.closed <= Step(s, a).closed
  {
  }

  lemma {:induction false} ClosedStays(s: State, more: seq<Action>)
    requires Continue(s, more).Some?
    ensures s.closed <= Continue(s, more).value.closed
    decreases |more|
  {
    if more != [] {
      ClosedStays(s, more[..|more| - 1]);
      ClosedGrows(Continue(s, more[..|more| - 1]).value, more[|more| - 1]);
    }
  }

  /**
   The end of the grace period closes every client that is tracked then, for good; and no handler ends before
   its client's connection is closed.
   */
  lemma GraceClosesClients(run: seq<Action>, more: seq<Action>)
    requires Run(run).Some? && Enabled(Run(run).value, GraceEnds)
    requires Continue(Step(Run(run).value, GraceEnds), more).Some?
    ensures var s, r := Run(run).value, Continue(Step(Run(run).value, GraceEnds), more).value;
      && (forall h | h in s.handlers && s.handlers[h].Tracked? :: h in r.closed)
      && (forall h | h in s.handlers && s.handlers[h].Finished? :: h in s.closed && h in r.closed)
  {
    InvReached(run);
    ClosedStays(Step(Run(run).value, GraceEnds), more);
  }

  /**
   When Shutdown has returned, every handler counted before the wait reached zero has finished, and at most
   one other is left.
   */
  lemma ReturnedMeansFinished(run: seq<Action>)
    requires Run(run).Some? && Run(run).value.shutdown.Returned?
    ensures var s := Run(run).value;
      && (forall h | h in s.countedAtZero :: h in s.handlers && s.handlers[h].Finished?)
      && |s.live| <= 1
      && (s.serve.Holding? ==> s.live == {})
  {
    InvReached(run);
    var s := Run(run).value;
    forall h | h in s.countedAtZero ensures h in s.handlers && s.handlers[h].Finished? {
      assert h !in s.live;
    }
  }

  /** Nothing is live, accepted or acceptable any more. */
  predicate Settled(s: State) {
    s.shutdown.Returned? && s.live == {} && !s.serve.Holding?
  }

  /** A shutdown that returns with no accepted connection in hand is final: no run brings a handler back. */
  lemma {:induction false} SettledForever(run: seq<Action>, more: seq<Action>)
    requires Run(run).Some? && Settled(Run(run).value)
    requires Continue(Run(run).value, more).Some?
    ensures Settled(Continue(Run(run).value, more).value) && Inv(Continue(Run(run).value, more).value)
    decreases |more|
  {
    InvReached(run);
    if more != [] {
      SettledForever(run, more[..|more| - 1]);
      var s := Continue(Run(run).value, more[..|more| - 1]).value;
      InvStep(s, more[|more| - 1]);
    }
  }

  /** No continuation has a live handler. */
  ghost predicate NeverLive(s: State) {
    forall more :: Continue(s, more).Some? ==> Continue(s, more).value.live == {}
  }

  /** The only shutdowns that are final in this sense: otherwise some continuation has a live handler. */
  lemma SettledExactly(run: seq<Action>)
    requires Run(run).Some? && Run(run).value.shutdown.Returned?
    ensures Settled(Run(run).value) <==> NeverLive(Run(run).value)
  {
    var s := Run(run).value;
    assert Continue(s, []) == Some(s);
    if Settled(s) {
      forall more | Continue(s, more).Some? ensures Continue(s, more).value.live == {} {
        SettledForever(run, more);
      }
    } else if s.serve.Holding? {
      OneAction(s, Count);
      assert s.serve.conn in Step(s, Count).live;
    }
  }

  lemma Extend(run: seq<Action>, a: Action)
    requires Run(run).Some? && Enabled(Run(run).value, a)
    ensures Run(run + [a]) == Some(Step(Run(run).value, a))
  {
    assert (run + [a])[..|run|] == run;
  }

  /** A handler that outlives Shutdown: its connection was accepted in time, but counted too late. */
  lemma HandlerOutlivesShutdown() returns (run: seq<Action>)
    ensures Run(run).Some?
    ensures var s := Run(run).value;
      s.shutdown.Returned? && s.live == {0} && s.clientConns == {0}
  {
    run := [];
    Extend(run, Register);
    run := run + [Register];
    Extend(run, Accept);
    run := run + [Accept];
    Extend(run, SetFlag);
    run := run + [SetFlag];
    Extend(run, CloseListener);
    run := run + [CloseListener];
    Extend(run, WaitReachesZero);
    run := run + [WaitReachesZero];
    Extend(run, Return);
    run := run + [Return];
    Extend(run, Count);
    run := run + [Count];
    Extend(run, Track(0));
    run := run + [Track(0)];
  }
}

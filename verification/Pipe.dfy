/**
 One proxied connection: two copy loops that run side by side, each ending with a half-close, while
 the peers send, a drain may close the backend side, a shutdown may close the client side, and any
 read or write may fail. Every call of a loop is one step.
 */
module Pipe {
  import opened Options

  newtype Byte = b: int | 0 <= b < 256

  /** Up copies from the client to the backend, Down the other way. */
  datatype Way = Up | Down

  /** A copy loop: about to read, holding bytes to write, about to half-close, or finished. */
  datatype Pc = Reading | Writing | ClosingWrite | Finished

  /**
   One direction: what its sender sent and whether it ended its stream; how much the loop has read,
   what it still holds, what it has delivered; and whether it signalled the end to the receiver.
   failed records that the loop was ended by an error.
   */
  datatype Flow = Flow(sent: seq<Byte>, fin: bool, taken: nat, held: seq<Byte>, delivered: seq<Byte>,
                       eof: bool, pc: Pc, failed: bool)

  const IDLE_FLOW := Flow([], false, 0, [], [], false, Reading, false)

  /** The handler waiting for both loops, then unregistering and closing the backend connection. */
  datatype Handler = Waiting | Released | Done

  datatype State = State(up: Flow, down: Flow, clientOpen: bool, backendOpen: bool, tracked: bool, handler: Handler)

  const START := State(IDLE_FLOW, IDLE_FLOW, true, true, true, Waiting)

  /** Whether the two connections can be half-closed at all, as TCP connections can. */
  datatype Config = Config(clientHalfCloses: bool, backendHalfCloses: bool)

  /** What happens to one direction: its sender and its loop. */
  datatype Act =
    | Send(chunk: seq<Byte>) | End
    | Read(n: nat) | ReadEof | ReadError
    | Write(n: nat) | WriteError
    | HalfClose(ok: bool)

  datatype Action =
    | On(way: Way, act: Act)
    | Release | CloseBackend                       // the handler, once both loops are done
    | DrainRelease | DrainClose                    // the two halves of Close, called by a drain
    | ForceClose                                   // the client connection, at shutdown

  function FlowOf(s: State, w: Way): Flow {
    if w.Up? then s.up else s.down
  }

  function With(s: State, w: Way, f: Flow): State {
    if w.Up? then s.(up := f) else s.(down := f)
  }

  predicate SourceOpen(s: State, w: Way) {
    if w.Up? then s.clientOpen else s.backendOpen
  }

  predicate TargetOpen(s: State, w: Way) {
    if w.Up? then s.backendOpen else s.clientOpen
  }

  /** Whether an act is possible, given that its sockets are open where it needs them. */
  predicate Can(f: Flow, act: Act) {
    match act
    case Send(_) => !f.fin
    case End => !f.fin
    case Read(n) => f.pc.Reading? && 0 < n && f.taken + n <= |f.sent|
    case ReadEof => f.pc.Reading? && f.fin && f.taken == |f.sent|
    case ReadError => f.pc.Reading?
    case Write(n) => f.pc.Writing? && 0 < n <= |f.held|
    case WriteError => f.pc.Writing?
    case HalfClose(_) => f.pc.ClosingWrite?
  }

  predicate Enabled(s: State, a: Action) {
    match a
    case On(w, act) =>
      && Can(FlowOf(s, w), act)
      && (act.Read? || act.ReadEof? ==> SourceOpen(s, w))
      && (act.Write? ==> TargetOpen(s, w))
    case Release => s.handler.Waiting? && s.up.pc.Finished? && s.down.pc.Finished?
    case CloseBackend => s.handler.Released?
    case DrainRelease => s.tracked
    case DrainClose => !s.tracked && s.backendOpen
    case ForceClose => s.clientOpen
  }

  /** What an act does to its direction; a half-close may or may not reach the receiver. */
  function Moved(f: Flow, act: Act, signals: bool): Flow
    requires Can(f, act)
  {
    match act
    case Send(chunk) => f.(sent := f.sent + chunk)
    case End => f.(fin := true)
    case Read(n) => f.(held := f.sent[f.taken..f.taken + n], taken := f.taken + n, pc := Writing)
    case ReadEof => f.(pc := ClosingWrite)
    case Write(n) =>
      f.(delivered := f.delivered + f.held[..n], held := f.held[n..], pc := if n == |f.held| then Reading else Writing)
    case HalfClose(_) => f.(pc := Finished, eof := signals)
    case _ => f.(pc := ClosingWrite, failed := true)
  }

  /** Whether the end of the stream reaches the receiver; a client that cannot half-close is closed outright. */
  predicate Signals(c: Config, s: State, w: Way, ok: bool) {
    TargetOpen(s, w) && if w.Up? then c.backendHalfCloses && ok else ok || !c.clientHalfCloses
  }

  predicate ClosesClient(c: Config, s: State, w: Way) {
    w.Down? && !c.clientHalfCloses
  }

  function Step(c: Config, s: State, a: Action): State
    requires Enabled(s, a)
  {
    match a
    case On(w, act) =>
      var s' := With(s, w, Moved(FlowOf(s, w), act, act.HalfClose? && Signals(c, s, w, act.ok)));
      s'.(clientOpen := s.clientOpen && !(act.HalfClose? && ClosesClient(c, s, w)))
    case Release => s.(handler := Released, tracked := false)
    case CloseBackend => s.(handler := Done, backendOpen := false)
    case DrainRelease => s.(tracked := false)
    case DrainClose => s.(backendOpen := false)
    case ForceClose => s.(clientOpen := false)
  }

  /** Where a sequence of actions leads, if each is possible in turn. */
  function Run(c: Config, run: seq<Action>): Option<State> {
    if run == [] then Some(START)
    else
      match Run(c, run[..|run| - 1])
      case None => None
      case Some(s) => if Enabled(s, run[|run| - 1]) then Some(Step(c, s, run[|run| - 1])) else None
  }

  /** Neither an error, nor a drain, nor a forced close. */
  predicate Faultless(a: Action) {
    match a
    case On(_, act) => !act.ReadError? && !act.WriteError? && act != HalfClose(false)
    case _ => a.Release? || a.CloseBackend?
  }

  /** A run on two TCP connections in which nothing goes wrong and nobody interferes. */
  predicate Undisturbed(c: Config, run: seq<Action>) {
    c.clientHalfCloses && c.backendHalfCloses && forall i | 0 <= i < |run| :: Faultless(run[i])
  }

  // ---------------------------------------------------------------- the invariant

  /** What was delivered and what is held is what was read, in order; a loop that ended well delivered it all. */
  ghost predicate FlowInv(f: Flow) {
    && f.taken <= |f.sent|
    && f.delivered + f.held == f.sent[..f.taken]
    && (f.pc.Reading? ==> f.held == [])
    && (f.pc.Writing? ==> f.held != [])
    && (f.eof ==> f.pc.Finished?)
    && ((f.pc.ClosingWrite? || f.pc.Finished?) && !f.failed ==> f.fin && f.taken == |f.sent| && f.held == [])
  }

  ghost predicate Inv(s: State, calm: bool) {
    && FlowInv(s.up) && FlowInv(s.down)
    && (calm ==>
      && !s.up.failed && !s.down.failed
      && s.clientOpen
      && (s.up.pc.Finished? ==> s.up.eof) && (s.down.pc.Finished? ==> s.down.eof)
      && (s.handler.Waiting? <==> s.tracked)
      && (s.handler.Done? <==> !s.backendOpen))
    && (!s.handler.Waiting? ==> !s.tracked && s.up.pc.Finished? && s.down.pc.Finished?)
  }

  lemma SendKeeps(f: Flow, chunk: seq<Byte>)
    requires FlowInv(f) && !f.fin
    ensures FlowInv(f.(sent := f.sent + chunk))
  {
    assert (f.sent + chunk)[..f.taken] == f.sent[..f.taken];
  }

  lemma ReadKeeps(f: Flow, n: nat)
    requires FlowInv(f) && f.pc.Reading? && 0 < n && f.taken + n <= |f.sent|
    ensures FlowInv(f.(held := f.sent[f.taken..f.taken + n], taken := f.taken + n, pc := Writing))
  {
    assert f.delivered == f.delivered + f.held;
    assert f.sent[..f.taken] + f.sent[f.taken..f.taken + n] == f.sent[..f.taken + n];
  }

  lemma WriteKeeps(f: Flow, n: nat)
    requires FlowInv(f) && f.pc.Writing? && 0 < n <= |f.held|
    ensures FlowInv(f.(delivered := f.delivered + f.held[..n], held := f.held[n..],
                       pc := if n == |f.held| then Reading else Writing))
  {
    assert f.delivered + f.held[..n] + f.held[n..] == f.delivered + f.held;
  }

  lemma MovedKeeps(f: Flow, act: Act, signals: bool)
    requires FlowInv(f) && Can(f, act)
    ensures FlowInv(Moved(f, act, signals))
  {
    match act
    case Send(chunk) => SendKeeps(f, chunk);
    case Read(n) => ReadKeeps(f, n);
    case Write(n) => WriteKeeps(f, n);
    case _ =>
  }

  lemma InvStep(c: Config, s: State, a: Action, calm: bool)
    requires Inv(s, calm) && Enabled(s, a)
    requires calm ==> c.clientHalfCloses && c.backendHalfCloses
    ensures Inv(Step(c, s, a), calm && Faultless(a))
  {
    if a.On? {
      MovedKeeps(FlowOf(s, a.way), a.act, a.act.HalfClose? && Signals(c, s, a.way, a.act.ok));
    }
  }

  lemma {:induction false} InvReached(c: Config, run: seq<Action>)
    ensures Run(c, run).Some? ==> Inv(Run(c, run).value, Undisturbed(c, run))
    decreases |run|
  {
    if run != [] {
      var init, last := run[..|run| - 1], run[|run| - 1];
      InvReached(c, init);
      var before := Run(c, init);
      if before.Some? && Enabled(before.value, last) {
        InvStep(c, before.value, last, Undisturbed(c, init));
        assert Undisturbed(c, run) ==> Undisturbed(c, init) && Faultless(last);
      }
    }
  }

  // ---------------------------------------------------------------- what every interleaving keeps

  /** Each receiver has got a prefix of what its peer sent, whatever fails and whoever closes what. */
  lemma DeliveredIsPrefix(c: Config, run: seq<Action>, w: Way)
    requires Run(c, run).Some?
    ensures var f := FlowOf(Run(c, run).value, w);
      f.delivered <= f.sent
  {
    InvReached(c, run);
    var f := FlowOf(Run(c, run).value, w);
    assert f.delivered == (f.delivered + f.held)[..|f.delivered|];
    assert f.delivered == f.sent[..|f.delivered|];
  }

  /** A loop that no error ended signals the end only after the sender ended and every byte arrived. */
  lemma EofComesLast(c: Config, run: seq<Action>, w: Way)
    requires Run(c, run).Some?
    ensures var f := FlowOf(Run(c, run).value, w);
      f.eof && !f.failed ==> f.fin && f.delivered == f.sent
  {
    InvReached(c, run);
    var f := FlowOf(Run(c, run).value, w);
    if f.eof && !f.failed {
      assert f.sent[..|f.sent|] == f.sent && f.delivered + f.held == f.delivered;
    }
  }

  /** Undisturbed, a direction that has ended leaves the other open, and the backend tracked, until both are done. */
  lemma OtherWayStaysOpen(c: Config, run: seq<Action>)
    requires Run(c, run).Some? && Undisturbed(c, run)
    ensures var s := Run(c, run).value;
      && (s.up.pc.Finished? ==> s.up.eof && s.up.fin && s.up.delivered == s.up.sent)
      && (s.down.pc.Finished? ==> s.down.eof && s.down.fin && s.down.delivered == s.down.sent)
      && (!(s.up.pc.Finished? && s.down.pc.Finished?) ==> s.clientOpen && s.backendOpen && s.tracked)
  {
    InvReached(c, run);
    EofComesLast(c, run, Up);
    EofComesLast(c, run, Down);
  }

  /** A step of the proxy itself that needs no fault to happen. */
  predicate Moves(s: State, a: Action) {
    && Enabled(s, a)
    && match a
       case On(_, act) => act.Read? || act.ReadEof? || act.Write? || (act.HalfClose? && act.ok)
       case _ => a.Release? || a.CloseBackend?
  }

  /** An undisturbed direction of an open connection can always move on once there is something to read. */
  lemma NextMove(s: State, w: Way) returns (a: Action)
    requires Inv(s, true) && s.handler.Waiting? && !FlowOf(s, w).pc.Finished?
    requires FlowOf(s, w).fin || FlowOf(s, w).taken < |FlowOf(s, w).sent|
    ensures Moves(s, a)
  {
    var f := FlowOf(s, w);
    match f.pc
    case Reading => a := On(w, if f.taken < |f.sent| then Read(1) else ReadEof);
    case Writing => a := On(w, Write(|f.held|));
    case _ => a := On(w, HalfClose(true));
  }

  /**
   Undisturbed, the pipe never gets stuck: when it cannot move and both peers have ended, everything was
   delivered and signalled both ways, and the backend connection is released and closed.
   */
  lemma QuietMeansComplete(c: Config, run: seq<Action>)
    requires Run(c, run).Some? && Undisturbed(c, run)
    requires Run(c, run).value.up.fin && Run(c, run).value.down.fin
    requires forall a :: !Moves(Run(c, run).value, a)
    ensures var s := Run(c, run).value;
      && s.handler.Done? && !s.tracked && !s.backendOpen && s.clientOpen
      && s.up.eof && s.up.delivered == s.up.sent
      && s.down.eof && s.down.delivered == s.down.sent
  {
    InvReached(c, run);
    var s := Run(c, run).value;
    EofComesLast(c, run, Up);
    EofComesLast(c, run, Down);
    if s.handler.Waiting? && !s.up.pc.Finished? {
      var a := NextMove(s, Up);
      assert false;
    } else if s.handler.Waiting? && !s.down.pc.Finished? {
      var a := NextMove(s, Down);
      assert false;
    }
    assert !Moves(s, Release) && !Moves(s, CloseBackend);
  }

  // ---------------------------------------------------------------- who closes what

  lemma {:induction false} PrefixRuns(c: Config, run: seq<Action>, i: nat)
    requires Run(c, run).Some? && i <= |run|
    ensures Run(c, run[..i]).Some?
    decreases |run|
  {
    if i == |run| {
      assert run[..i] == run;
    } else {
      PrefixRuns(c, run[..|run| - 1], i);
      assert run[..|run| - 1][..i] == run[..i];
    }
  }

  /** The client is closed by a forced close, or in place of a half-close that its connection does not know. */
  predicate HangsUp(c: Config, a: Action) {
    a.ForceClose? || (a.On? && a.way.Down? && a.act.HalfClose? && !c.clientHalfCloses)
  }

  lemma ClosingStep(c: Config, s: State, a: Action)
    requires Enabled(s, a)
    ensures var r := Step(c, s, a);
      && r.clientOpen == (s.clientOpen && !HangsUp(c, a))
      && r.backendOpen == (s.backendOpen && !a.CloseBackend? && !a.DrainClose?)
      && r.tracked == (s.tracked && !a.Release? && !a.DrainRelease?)
  {
  }

  /** The connections are closed, and the backend's released, by just these actions. */
  lemma {:induction false} ClosedExactly(c: Config, run: seq<Action>)
    requires Run(c, run).Some?
    ensures var s := Run(c, run).value;
      && (s.clientOpen <==> forall i | 0 <= i < |run| :: !HangsUp(c, run[i]))
      && (s.backendOpen <==> forall i | 0 <= i < |run| :: !run[i].CloseBackend? && !run[i].DrainClose?)
      && (s.tracked <==> forall i | 0 <= i < |run| :: !run[i].Release? && !run[i].DrainRelease?)
    decreases |run|
  {
    if run != [] {
      var init, last := run[..|run| - 1], run[|run| - 1];
      ClosedExactly(c, init);
      ClosingStep(c, Run(c, init).value, last);
      assert run == init + [last];
    }
  }

  /** Action i half-closes the receiver's connection, or closes it where that is all it can do. */
  predicate EndsStream(c: Config, run: seq<Action>, w: Way, i: nat)
    requires i < |run|
  {
    && run[i].On? && run[i].way == w && run[i].act.HalfClose?
    && Run(c, run[..i]).Some?
    && var s := Run(c, run[..i]).value;
      if w.Up? then s.backendOpen && c.backendHalfCloses && run[i].act.ok
      else s.clientOpen && (!c.clientHalfCloses || run[i].act.ok)
  }

  lemma EofStep(c: Config, s: State, a: Action, w: Way)
    requires Enabled(s, a)
    ensures FlowOf(Step(c, s, a), w).eof <==>
      if a.On? && a.way == w && a.act.HalfClose? then
        if w.Up? then s.backendOpen && c.backendHalfCloses && a.act.ok
        else s.clientOpen && (!c.clientHalfCloses || a.act.ok)
      else FlowOf(s, w).eof
  {
  }

  /** A receiver sees the end of the stream exactly when some such action has reached its open connection. */
  lemma {:induction false} EofExactly(c: Config, run: seq<Action>, w: Way)
    requires Run(c, run).Some?
    ensures FlowOf(Run(c, run).value, w).eof <==> exists i | 0 <= i < |run| :: EndsStream(c, run, w, i)
    decreases |run|
  {
    if run != [] {
      var init, last := run[..|run| - 1], run[|run| - 1];
      var s := Run(c, init).value;
      EofExactly(c, init, w);
      EofStep(c, s, last, w);
      InvReached(c, init);
      forall i | 0 <= i < |init| ensures EndsStream(c, run, w, i) <==> EndsStream(c, init, w, i) {
        assert run[..i] == init[..i];
      }
      assert EndsStream(c, run, w, |init|) <==>
        last.On? && last.way == w && last.act.HalfClose? && FlowOf(Step(c, s, last), w).eof;
      assert last.On? && last.way == w && last.act.HalfClose? ==> !FlowOf(s, w).eof;
      assert FlowOf(s, w).eof ==> exists i | 0 <= i < |init| :: EndsStream(c, run, w, i);
    }
  }

  lemma Extend(c: Config, run: seq<Action>, a: Action)
    requires Run(c, run).Some? && Enabled(Run(c, run).value, a)
    ensures Run(c, run + [a]) == Some(Step(c, Run(c, run).value, a))
  {
    assert (run + [a])[..|run|] == run;
  }

  /** A drain, though, ends the stream early: the client sees a clean end after none of the bytes it was sent. */
  lemma DrainTruncates(c: Config, chunk: seq<Byte>) returns (run: seq<Action>)
    requires chunk != []
    ensures Run(c, run).Some?
    ensures var f := Run(c, run).value.down;
      f.eof && f.sent == chunk && f.delivered == []
  {
    run := [];
    assert [] + chunk == chunk;
    Extend(c, run, On(Down, Send(chunk)));
    run := run + [On(Down, Send(chunk))];
    Extend(c, run, DrainRelease);
    run := run + [DrainRelease];
    Extend(c, run, DrainClose);
    run := run + [DrainClose];
    Extend(c, run, On(Down, ReadError));
    run := run + [On(Down, ReadError)];
    Extend(c, run, On(Down, HalfClose(true)));
    run := run + [On(Down, HalfClose(true))];
  }
}

/** Every run of polls, file-system calls, crashes and restarts, one step at a time. */
module Restarts {
  import opened Admission
  import opened Discovery
  import opened Options
  import opened Pools

  /** Flags that stay the same across restarts. */
  datatype Config = Config(seed: seq<string>, listen: string, persist: bool)

  /** What the poller is doing: nothing, about to make a call of saveState, or removing the temporary file. */
  datatype Phase = Idle | Saving(call: Call, name: nat) | Cleaning(name: nat)

  /**
   A running process. Besides the pool and the phase it carries the history the properties speak of:
   the file it found, the file before the save in progress, the last list it applied, and whether the
   save of that list has failed.
   */
  datatype Process = Process(pool: seq<string>, phase: Phase, found: File, before: File,
                             applied: Option<seq<string>>, failed: bool)

  datatype State = State(disk: Disk, process: Option<Process>)

  datatype Action =
    | Start(seedNet: Net<IP>, fileNet: Net<IP>)
    | Poll(net: Net<IP>, addrs: seq<string>)
    | Return(ok: bool, name: nat)            // the pending call of saveState returns
    | Remove(ok: bool)                       // the deferred removal returns
    | Crash

  predicate Enabled(s: State, a: Action) {
    match a
    case Start(_, _) => s.process.None?
    case Poll(_, _) => s.process.Some? && s.process.value.phase.Idle?
    case Return(_, name) =>
      && s.process.Some? && s.process.value.phase.Saving?
      && if s.process.value.phase.call.CreateTemp? then name !in s.disk.temps else name == s.process.value.phase.name
    case Remove(_) => s.process.Some? && s.process.value.phase.Cleaning?
    case Crash => s.process.Some?
  }

  /** The process once the pending call has returned. */
  function Returned(p: Process, ok: bool, name: nat): Process
    requires p.phase.Saving?
  {
    var call := p.phase.call;
    if !ok then p.(failed := true, phase := if call.CreateTemp? then Idle else Cleaning(name))
    else if call.Rename? then p.(phase := Cleaning(name))
    else p.(phase := Saving(Following(call), name))
  }

  ghost function Step(c: Config, s: State, a: Action): State
    requires Enabled(s, a)
  {
    match a
    case Start(seedNet, fileNet) =>
      if !Admits(seedNet, c.listen, c.seed) then s
      else
        var pool := Resume(if c.persist then s.disk.file else Absent, fileNet, c.listen, c.seed);
        s.(process := Some(Process(pool, Idle, s.disk.file, s.disk.file, None, false)))
    case Poll(net, addrs) =>
      var p := s.process.value;
      var pool := Applied(net, c.listen, p.pool, addrs);
      if pool == p.pool then s
      else
        s.(process := Some(p.(pool := pool, applied := Some(pool), before := s.disk.file, failed := false,
                              phase := if c.persist then Saving(CreateTemp, 0) else Idle)))
    case Return(ok, name) =>
      var p := s.process.value;
      State(Effect(s.disk, p.phase.call, name, p.pool, ok), Some(Returned(p, ok, name)))
    case Remove(ok) =>
      var p := s.process.value;
      State(if ok then RemoveTemp(s.disk, p.phase.name) else s.disk, Some(p.(phase := Idle)))
    case Crash => s.(process := None)
  }

  /** Where a run leads from a disk in any state and no process, if each of its actions is possible in turn. */
  ghost function Run(c: Config, disk: Disk, run: seq<Action>): Option<State> {
    if run == [] then Some(State(disk, None))
    else
      match Run(c, disk, run[..|run| - 1])
      case None => None
      case Some(s) => if Enabled(s, run[|run| - 1]) then Some(Step(c, s, run[|run| - 1])) else None
  }

  ghost predicate Reaches(c: Config, disk: Disk, run: seq<Action>, s: State) {
    Run(c, disk, run) == Some(s)
  }

  // ---------------------------------------------------------------- the invariant

  /** The state file as it was when the process started, or as the last save of the process left it. */
  function Settled(p: Process): File {
    if p.applied.Some? then Data(p.applied.value) else p.found
  }

  ghost predicate TempReady(d: Disk, phase: Phase, list: seq<string>) {
    phase.Saving? ==>
      && (!phase.call.CreateTemp? ==> phase.name in d.temps)
      && (phase.call.CloseTemp? || phase.call.Rename? ==> d.temps[phase.name] == Data(list))
  }

  ghost predicate FileIsWhole(d: Disk, p: Process) {
    match p.phase
    case Idle => d.file == if p.failed then p.before else Settled(p)
    case Saving(_, _) => d.file == p.before
    case Cleaning(_) => d.file == if p.failed then p.before else Data(p.pool)
  }

  ghost predicate Inv(c: Config, s: State) {
    s.process.Some? ==>
      var p := s.process.value;
      && p.pool != [] && Distinct(p.pool)
      && (p.applied.Some? ==> p.applied.value == p.pool)
      && (!p.phase.Idle? ==> p.applied.Some? && c.persist)
      && (p.phase.Saving? ==> !p.failed)
      && (p.failed ==> p.applied.Some?)
      && TempReady(s.disk, p.phase, p.pool)
      && (c.persist ==> FileIsWhole(s.disk, p))
  }

  lemma InvStep(c: Config, s: State, a: Action)
    requires Inv(c, s) && Enabled(s, a)
    ensures Inv(c, Step(c, s, a))
  {
  }

  lemma {:induction false} InvReached(c: Config, disk: Disk, run: seq<Action>, s: State)
    requires Reaches(c, disk, run, s)
    ensures Inv(c, s)
    decreases |run|
  {
    if run != [] {
      var s0 := Run(c, disk, run[..|run| - 1]).value;
      InvReached(c, disk, run[..|run| - 1], s0);
      InvStep(c, s0, run[|run| - 1]);
    }
  }

  // ---------------------------------------------------------------- what every run keeps

  /**
   The step, taken in state s, that put the list into the pool after checking it against its own environment:
   a poll that offered the list, or a start that found it in the state file or fell back on the seed.
   */
  ghost predicate AdmittedBy(c: Config, s: State, a: Action, list: seq<string>) {
    match a
    case Poll(net, addrs) => addrs == list && Admits(net, c.listen, list)
    case Start(seedNet, fileNet) =>
      || (c.persist && s.disk.file == Data(list) && Admits(fileNet, c.listen, list))
      || (list == c.seed && Admits(seedNet, c.listen, list))
    case _ => false
  }

  /** The pool after the first j actions, if a process is running then. */
  ghost function PoolAfter(c: Config, disk: Disk, run: seq<Action>, j: nat): Option<seq<string>>
    requires j <= |run|
  {
    match Run(c, disk, run[..j])
    case Some(s) => if s.process.Some? then Some(s.process.value.pool) else None
    case None => None
  }

  /** Action i admitted the list, which has been the pool of the running process ever since. */
  ghost predicate InstalledAt(c: Config, disk: Disk, run: seq<Action>, i: nat, list: seq<string>) {
    && i < |run|
    && Run(c, disk, run[..i]).Some?
    && AdmittedBy(c, Run(c, disk, run[..i]).value, run[i], list)
    && forall j | i < j <= |run| :: PoolAfter(c, disk, run, j) == Some(list)
  }

  /** One more action that leaves the pool as it is. */
  lemma StaysInstalled(c: Config, disk: Disk, run: seq<Action>, i: nat, list: seq<string>)
    requires run != [] && InstalledAt(c, disk, run[..|run| - 1], i, list)
    requires PoolAfter(c, disk, run, |run|) == Some(list)
    ensures InstalledAt(c, disk, run, i, list)
  {
    var init := run[..|run| - 1];
    assert init[..i] == run[..i];
    forall j | i < j <= |run| ensures PoolAfter(c, disk, run, j) == Some(list) {
      if j < |run| {
        assert init[..j] == run[..j];
        assert PoolAfter(c, disk, init, j) == Some(list);
      }
    }
  }

  /** An action that brings in another list has checked that list. */
  lemma NewPoolIsAdmitted(c: Config, s: State, a: Action)
    requires Enabled(s, a) && Step(c, s, a).process.Some?
    requires s.process.Some? ==> Step(c, s, a).process.value.pool != s.process.value.pool
    ensures AdmittedBy(c, s, a, Step(c, s, a).process.value.pool)
  {
  }

  /**
   Whatever discovery returns and wherever the process crashes, a running pool is non-empty, repeats no
   address, and passed validation: the action that put it in place, and after which it has not changed,
   admitted this very list in the environment of that action.
   */
  lemma {:induction false} PoolIsAlwaysSafe(c: Config, disk: Disk, run: seq<Action>, s: State) returns (i: nat)
    requires Reaches(c, disk, run, s) && s.process.Some?
    ensures var pool := s.process.value.pool;
      pool != [] && Distinct(pool) && InstalledAt(c, disk, run, i, pool)
    decreases |run|
  {
    InvReached(c, disk, run, s);
    var init, a := run[..|run| - 1], run[|run| - 1];
    var before := Run(c, disk, init).value;
    var pool := s.process.value.pool;
    assert run[..|run|] == run;
    if before.process.Some? && before.process.value.pool == pool {
      i := PoolIsAlwaysSafe(c, disk, init, before);
      StaysInstalled(c, disk, run, i, pool);
    } else {
      i := |run| - 1;
      NewPoolIsAdmitted(c, before, a);
    }
  }

  /** A crash in the middle of a save leaves the file it found, or the whole new one. */
  lemma CrashLeavesWholeFile(c: Config, disk: Disk, run: seq<Action>, s: State)
    requires Reaches(c, disk, run, s) && s.process.Some? && !s.process.value.phase.Idle?
    ensures var p := s.process.value;
      var file := Step(c, s, Crash).disk.file;
      file == p.before || file == Data(p.pool)
  {
    InvReached(c, disk, run, s);
  }

  /** Between polls, unless the save of that list failed, the file holds the last list the process applied. */
  lemma FileFollowsPool(c: Config, disk: Disk, run: seq<Action>, s: State)
    requires Reaches(c, disk, run, s) && c.persist
    requires s.process.Some? && s.process.value.phase.Idle? && !s.process.value.failed
    ensures var p := s.process.value;
      s.disk.file == if p.applied.Some? then Data(p.pool) else p.found
  {
    InvReached(c, disk, run, s);
  }

  /** A restart then resumes from that list if it is still admitted, and from the seed otherwise. */
  lemma RestartResumes(c: Config, disk: Disk, run: seq<Action>, s: State, seedNet: Net<IP>, fileNet: Net<IP>)
    requires Reaches(c, disk, run, s) && c.persist
    requires s.process.Some? && s.process.value.phase.Idle? && !s.process.value.failed && s.process.value.applied.Some?
    requires Admits(seedNet, c.listen, c.seed)
    ensures var list := s.process.value.pool;
      var again := Step(c, Step(c, s, Crash), Start(seedNet, fileNet));
      again.process.Some? && again.process.value.pool == if Admits(fileNet, c.listen, list) then list else c.seed
  {
    InvReached(c, disk, run, s);
  }

  /** A start takes the list in the state file if that is in use and the list is admitted, and the seed otherwise. */
  lemma StartsFromFileOrSeed(c: Config, s: State, seedNet: Net<IP>, fileNet: Net<IP>)
    requires s.process.None?
    ensures var r := Step(c, s, Start(seedNet, fileNet));
      var usable := c.persist && s.disk.file.Data? && Admits(fileNet, c.listen, s.disk.file.servers);
      && (!Admits(seedNet, c.listen, c.seed) ==> r == s)
      && (Admits(seedNet, c.listen, c.seed) ==>
            && r.process.Some? && r.disk == s.disk && r.process.value.phase.Idle?
            && r.process.value.pool == if usable then s.disk.file.servers else c.seed)
  {
  }

  /** After a crash in mid-save a restart finds the list before, the new list, or the seed: nothing in between. */
  lemma RestartAfterCrash(c: Config, disk: Disk, run: seq<Action>, s: State, seedNet: Net<IP>, fileNet: Net<IP>)
    requires Reaches(c, disk, run, s) && c.persist
    requires s.process.Some? && !s.process.value.phase.Idle?
    requires Admits(seedNet, c.listen, c.seed)
    ensures var p := s.process.value;
      var again := Step(c, Step(c, s, Crash), Start(seedNet, fileNet));
      && again.process.Some?
      && again.process.value.pool in {Resume(p.before, fileNet, c.listen, c.seed),
                                      Resume(Data(p.pool), fileNet, c.listen, c.seed)}
  {
    InvReached(c, disk, run, s);
  }

  /** Of all the calls only a successful rename changes the state file, and only to the whole list. */
  lemma OnlyRenameChangesFile(c: Config, disk: Disk, run: seq<Action>, s: State, a: Action)
    requires Reaches(c, disk, run, s) && Enabled(s, a)
    requires Step(c, s, a).disk.file != s.disk.file
    ensures a.Return? && a.ok && s.process.Some? && s.process.value.phase.Saving?
      && s.process.value.phase.call.Rename?
      && Step(c, s, a).disk.file == Data(s.process.value.pool)
  {
    InvReached(c, disk, run, s);
  }

  /** Whether the action completes a save. */
  predicate CompletesSave(s: State, a: Action) {
    a.Return? && a.ok && s.process.Some? && s.process.value.phase.Saving? && s.process.value.phase.call.Rename?
  }

  /** The last list whose save succeeded, in whatever process; before any, what the disk held at first. */
  ghost function LastSaved(c: Config, disk: Disk, run: seq<Action>): File
    requires Run(c, disk, run).Some?
  {
    if run == [] then disk.file
    else
      var before := Run(c, disk, run[..|run| - 1]).value;
      if CompletesSave(before, run[|run| - 1]) then Data(before.process.value.pool)
      else LastSaved(c, disk, run[..|run| - 1])
  }

  /** At every moment of every run, across failed saves, crashes and restarts, that is what the file holds. */
  lemma {:induction false} FileIsLastSaved(c: Config, disk: Disk, run: seq<Action>, s: State)
    requires Reaches(c, disk, run, s)
    ensures s.disk.file == LastSaved(c, disk, run)
    decreases |run|
  {
    if run != [] {
      var init, a := run[..|run| - 1], run[|run| - 1];
      var before := Run(c, disk, init).value;
      FileIsLastSaved(c, disk, init, before);
      InvReached(c, disk, init, before);
    }
  }

  /** The action puts another list into the pool of a running process. */
  ghost predicate AppliesNew(c: Config, s: State, a: Action) {
    && a.Poll? && s.process.Some?
    && Applied(a.net, c.listen, s.process.value.pool, a.addrs) != s.process.value.pool
  }

  ghost predicate AppliesNothing(c: Config, disk: Disk, run: seq<Action>, more: seq<Action>)
    requires Run(c, disk, run + more).Some?
    decreases |more|
  {
    more == [] ||
    (assert (run + more)[..|run + more| - 1] == run + more[..|more| - 1];
     AppliesNothing(c, disk, run, more[..|more| - 1])
     && !AppliesNew(c, Run(c, disk, run + more[..|more| - 1]).value, more[|more| - 1]))
  }

  predicate Quiet(s: State) {
    s.process.Some? ==> s.process.value.phase.Idle?
  }

  /** The state before the last action of a continuation. */
  lemma LastStep(c: Config, disk: Disk, run: seq<Action>, more: seq<Action>, s': State) returns (before: State)
    requires Reaches(c, disk, run + more, s') && more != []
    ensures Reaches(c, disk, run + more[..|more| - 1], before)
    ensures Enabled(before, more[|more| - 1]) && s' == Step(c, before, more[|more| - 1])
  {
    assert (run + more)[..|run + more| - 1] == run + more[..|more| - 1];
    before := Run(c, disk, run + more[..|more| - 1]).value;
  }

  lemma QuietStep(c: Config, s: State, a: Action)
    requires Quiet(s) && Enabled(s, a) && !AppliesNew(c, s, a)
    ensures Step(c, s, a).disk == s.disk && Quiet(Step(c, s, a))
  {
  }

  /**
   A failed save is not tried again. From any moment between polls the state file stays as it is, stale or not,
   through every poll, crash and restart, until discovery comes up with another list.
   */
  lemma {:induction false} FailedSaveIsNotRetried(
      c: Config, disk: Disk, run: seq<Action>, more: seq<Action>, s: State, s': State)
    requires Reaches(c, disk, run, s) && Quiet(s)
    requires Reaches(c, disk, run + more, s') && AppliesNothing(c, disk, run, more)
    ensures s'.disk.file == s.disk.file && Quiet(s')
    decreases |more|
  {
    if more == [] {
      assert run + more == run;
    } else {
      var init := more[..|more| - 1];
      var before := LastStep(c, disk, run, more, s');
      FailedSaveIsNotRetried(c, disk, run, init, s, before);
      QuietStep(c, before, more[|more| - 1]);
    }
  }

  /** After a save that failed, the file is the one from before although the pool has the new list. */
  lemma FailureLeavesFile(c: Config, disk: Disk, run: seq<Action>, s: State)
    requires Reaches(c, disk, run, s) && c.persist
    requires s.process.Some? && s.process.value.phase.Idle? && s.process.value.failed
    ensures var p := s.process.value; s.disk.file == p.before && p.applied == Some(p.pool)
  {
    InvReached(c, disk, run, s);
  }

  /** A poll does with the list what it is to do, and begins to save exactly the list it has installed. */
  lemma PollFollows(c: Config, disk: Disk, run: seq<Action>, s: State, net: Net<IP>, addrs: seq<string>)
    requires Reaches(c, disk, run, s) && Enabled(s, Poll(net, addrs))
    ensures var p, s' := s.process.value, Step(c, s, Poll(net, addrs));
      && s'.process.Some? && s'.disk == s.disk
      && Obeys(net, c.listen, p.pool, addrs, s'.process.value.pool) && Distinct(p.pool)
      && (if s'.process.value.pool == p.pool then s' == s
          else s'.process.value.phase == if c.persist then Saving(CreateTemp, 0) else Idle)
  {
    InvReached(c, disk, run, s);
    AppliedObeys(net, c.listen, s.process.value.pool, addrs);
  }

  // ---------------------------------------------------------------- one save, call by call

  const CALLS: seq<Call> := [CreateTemp, Chmod, Write, CloseTemp, Rename]

  /** The calls of a save from number i on, up to the first that fails, and the removal of the temporary file. */
  function SaveActions(name: nat, ok: Call -> bool, i: nat): seq<Action>
    requires i < |CALLS|
    decreases |CALLS| - i
  {
    if ok(CALLS[i]) && i + 1 < |CALLS| then [Return(true, name)] + SaveActions(name, ok, i + 1)
    else [Return(ok(CALLS[i]), name)] + if i == 0 then [] else [Remove(true)]
  }

  /** Where a sequence of actions leads from a state, if each is possible in turn. */
  ghost function Then(c: Config, s: State, more: seq<Action>): Option<State>
    decreases |more|
  {
    if more == [] then Some(s)
    else if Enabled(s, more[0]) then Then(c, Step(c, s, more[0]), more[1..])
    else None
  }

  /** The process is about to make call number i of a save that started with these temporary files. */
  predicate Calling(s: State, p: Process, name: nat, i: nat, temps: map<nat, File>)
    requires i < |CALLS|
  {
    && s.process == Some(p) && p.phase.Saving? && p.phase.call == CALLS[i] && !p.failed && name !in temps
    && (if i == 0 then s.disk.temps == temps
        else p.phase.name == name && name in s.disk.temps && s.disk.temps - {name} == temps)
    && (i >= 3 ==> s.disk.temps[name] == Data(p.pool))
  }

  /** The save is over, all calls having succeeded or not. */
  predicate SaveOver(s: State, p: Process, r: Option<State>, succeeded: bool, temps: map<nat, File>) {
    && r.Some? && r.value.process == Some(p.(phase := Idle, failed := !succeeded))
    && r.value.disk == Disk(if succeeded then Data(p.pool) else s.disk.file, temps)
  }

  predicate AllFrom(ok: Call -> bool, i: nat) {
    forall j | i <= j < |CALLS| :: ok(CALLS[j])
  }

  lemma CallFails(c: Config, s: State, p: Process, name: nat, i: nat, temps: map<nat, File>)
    requires i < |CALLS| && Calling(s, p, name, i, temps)
    ensures var actions := [Return(false, name)] + if i == 0 then [] else [Remove(true)];
      SaveOver(s, p, Then(c, s, actions), false, temps)
  {
    var s1 := Step(c, s, Return(false, name));
    if i > 0 {
      assert [Return(false, name), Remove(true)][1..] == [Remove(true)] && [Remove(true)][1..] == [];
      assert Then(c, s1, [Remove(true)]) == Some(Step(c, s1, Remove(true)));
      assert s1.disk.temps - {name} == temps;
    } else {
      assert [Return(false, name)][1..] == [];
    }
  }

  lemma RenameSucceeds(c: Config, s: State, p: Process, name: nat, temps: map<nat, File>)
    requires Calling(s, p, name, 4, temps)
    ensures SaveOver(s, p, Then(c, s, [Return(true, name), Remove(true)]), true, temps)
  {
    var s1 := Step(c, s, Return(true, name));
    assert [Return(true, name), Remove(true)][1..] == [Remove(true)] && [Remove(true)][1..] == [];
    assert Then(c, s1, [Remove(true)]) == Some(Step(c, s1, Remove(true)));
    assert temps - {name} == temps;
  }

  lemma CallSucceeds(c: Config, s: State, p: Process, name: nat, i: nat, temps: map<nat, File>)
    requires i < 4 && Calling(s, p, name, i, temps)
    ensures var s1 := Step(c, s, Return(true, name));
      && s1.process.Some? && s1.process.value == p.(phase := s1.process.value.phase) && s1.disk.file == s.disk.file
      && Calling(s1, s1.process.value, name, i + 1, temps)
  {
    var s1 := Step(c, s, Return(true, name));
    assert s1.disk.temps - {name} == temps;
  }

  lemma {:induction false} SaveFrom(c: Config, s: State, p: Process, name: nat, ok: Call -> bool, i: nat,
                                    temps: map<nat, File>)
    requires i < |CALLS| && Calling(s, p, name, i, temps)
    ensures SaveOver(s, p, Then(c, s, SaveActions(name, ok, i)), AllFrom(ok, i), temps)
    decreases |CALLS| - i
  {
    if !ok(CALLS[i]) {
      CallFails(c, s, p, name, i, temps);
    } else if i + 1 == |CALLS| {
      RenameSucceeds(c, s, p, name, temps);
    } else {
      var s1 := Step(c, s, Return(true, name));
      CallSucceeds(c, s, p, name, i, temps);
      SaveFrom(c, s1, s1.process.value, name, ok, i + 1, temps);
      assert SaveActions(name, ok, i)[1..] == SaveActions(name, ok, i + 1);
    }
  }

  /**
   A save is these calls in this order and no others: left alone, it ends with the whole list in the file if all
   succeed, with the file untouched if one fails, and with the temporary file gone.
   */
  lemma SaveTakesItsCalls(c: Config, s: State, name: nat, ok: Call -> bool)
    requires s.process.Some? && s.process.value.phase.Saving? && s.process.value.phase.call.CreateTemp?
    requires !s.process.value.failed && name !in s.disk.temps
    ensures SaveOver(s, s.process.value, Then(c, s, SaveActions(name, ok, 0)), AllOk(ok), s.disk.temps)
  {
    SaveFrom(c, s, s.process.value, name, ok, 0, s.disk.temps);
    assert AllFrom(ok, 0) <==> AllOk(ok) by {
      assert CALLS[0] == CreateTemp && CALLS[1] == Chmod && CALLS[2] == Write && CALLS[3] == CloseTemp
          && CALLS[4] == Rename;
    }
  }
}

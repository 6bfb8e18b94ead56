/**
 One upstream server: the fall/rise state machine fed by its probes, the set of its tracked
 connections, and its counters.
 */
module Backends {
  /** What ReportHealth reads and writes. */
  datatype Health = Health(healthy: bool, fails: nat, rises: nat)

  /** A backend starts healthy. */
  const FRESH := Health(true, 0, 0)

  /** One probe result: the next state, and whether the backend changed sides. */
  function Report(h: Health, ok: bool, fall: nat, rise: nat): (Health, bool) {
    if h.healthy then
      if ok then (h.(fails := 0), false)
      else if h.fails + 1 < fall then (h.(fails := h.fails + 1), false)
      else (Health(false, 0, 0), true)
    else
      if !ok then (h.(rises := 0), false)
      else if h.rises + 1 < rise then (h.(rises := h.rises + 1), false)
      else (Health(true, 0, 0), true)
  }

  /** A tracked connection: closing it twice unregisters it once. */
  class TrackedConn {
    const backend: Backend
    var released: bool
    var closed: bool

    constructor (backend: Backend)
      ensures this.backend == backend && !released && !closed
    {
      this.backend := backend;
      released, closed := false, false;
    }

    method Close()
      modifies this, backend`conns
      ensures released && closed
      ensures backend.conns == if old(released) then old(backend.conns) else old(backend.conns) - {this}
    {
      if !released {
        released := true;
        backend.conns := backend.conns - {this};
      }
      closed := true;
    }
  }

  class Backend {
    const addr: string
    var healthy: bool
    var fails: nat
    var rises: nat
    var conns: set<TrackedConn>
    var connsTotal: nat
    var checkFailures: nat
    var drained: nat

    constructor (addr: string)
      ensures this.addr == addr && State() == FRESH && conns == {}
      ensures connsTotal == checkFailures == drained == 0
    {
      this.addr := addr;
      healthy, fails, rises := true, 0, 0;
      conns := {};
      connsTotal, checkFailures, drained := 0, 0, 0;
    }

    function State(): Health
      reads this
    {
      Health(healthy, fails, rises)
    }

    /** Registered connections belong to this backend and have not been released. */
    ghost predicate Valid()
      reads this, conns
    {
      forall c | c in conns :: c.backend == this && !c.released
    }

    method ReportHealth(ok: bool, fall: nat, rise: nat) returns (transitioned: bool)
      modifies this`healthy, this`fails, this`rises, this`checkFailures
      ensures (State(), transitioned) == Report(old(State()), ok, fall, rise)
      ensures checkFailures == old(checkFailures) + if ok then 0 else 1
    {
      if !ok {
        checkFailures := checkFailures + 1;
      }
      if healthy {
        if ok {
          fails := 0;
          return false;
        }
        fails := fails + 1;
        if fails < fall {
          return false;
        }
        healthy := false;
        fails, rises := 0, 0;
        return true;
      }
      if !ok {
        rises := 0;
        return false;
      }
      rises := rises + 1;
      if rises < rise {
        return false;
      }
      healthy := true;
      fails, rises := 0, 0;
      return true;
    }

    method Track() returns (c: TrackedConn)
      requires Valid()
      modifies this`conns, this`connsTotal
      ensures Valid() && fresh(c) && c.backend == this && !c.closed
      ensures conns == old(conns) + {c}
      ensures connsTotal == old(connsTotal) + 1
    {
      connsTotal := connsTotal + 1;
      c := new TrackedConn(this);
      conns := conns + {c};
    }

    /** Closing a snapshot of the set, one connection at a time, in any order. */
    method DrainAll() returns (n: nat)
      requires Valid()
      modifies this`conns, this`drained, conns
      ensures Valid() && conns == {}
      ensures forall c | c in old(conns) :: c.released && c.closed
      ensures n == |old(conns)| && drained == old(drained) + n
    {
      var todo := conns;
      ghost var snapshot := conns;
      n := |todo|;
      while todo != {}
        invariant todo <= snapshot && conns == todo && drained == old(drained)
        invariant forall c | c in snapshot :: c.backend == this
        invariant forall c | c in todo :: !c.released
        invariant forall c | c in snapshot - todo :: c.released && c.closed
        decreases todo
      {
        var c :| c in todo;
        c.Close();
        todo := todo - {c};
      }
      drained := drained + n;
    }
  }
}

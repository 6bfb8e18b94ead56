/**
 How long a dead backend can go unnoticed. Times are in the clock's smallest unit. A monitor probes
 at once, then waits for a ticker whose channel holds one tick: a tick that arrives during a probe
 starts the next probe as soon as it ends, and further ticks are dropped.
 */
module Failover {
  import opened Backends
  import opened Hysteresis

  datatype Options = Options(interval: nat, timeout: nat, fall: nat, rise: nat)

  /** What config validation guarantees. */
  predicate ValidOptions(o: Options) {
    o.interval >= 1 && o.timeout >= 1 && o.fall >= 1 && o.rise >= 1
  }

  /** The monitor as a probe starts: its channel is empty and the next tick is still to come. */
  datatype Monitor = Monitor(start: int, nextTick: int)

  /** The first tick after time t; the ticks up to t have found the channel full or filled it. */
  function TickAfter(nextTick: int, t: int, interval: nat): (r: int)
    requires interval >= 1
    ensures r > t && r >= nextTick
    ensures nextTick <= t ==> r <= t + interval
    ensures nextTick > t ==> r == nextTick
    decreases t - nextTick
  {
    if nextTick > t then nextTick else TickAfter(nextTick + interval, t, interval)
  }

  /** From the start of one probe, which takes `took`, to the start of the next. */
  function NextProbe(m: Monitor, took: nat, interval: nat): Monitor
    requires interval >= 1
  {
    var end := m.start + took;
    if m.nextTick <= end then Monitor(end, TickAfter(m.nextTick, end, interval))
    else Monitor(m.nextTick, m.nextTick + interval)
  }

  /** Everything a run leaves open: when it starts, how long each probe takes, and what it finds. */
  datatype Schedule = Schedule(t0: int, took: nat -> nat, ok: nat -> bool)

  function ProbeAt(s: Schedule, i: nat, interval: nat): Monitor
    requires interval >= 1
  {
    if i == 0 then Monitor(s.t0, s.t0 + interval)
    else NextProbe(ProbeAt(s, i - 1, interval), s.took(i - 1), interval)
  }

  function Start(s: Schedule, i: nat, o: Options): int
    requires ValidOptions(o)
  {
    ProbeAt(s, i, o.interval).start
  }

  function End(s: Schedule, i: nat, o: Options): int
    requires ValidOptions(o)
  {
    Start(s, i, o) + s.took(i)
  }

  function History(s: Schedule, n: nat): seq<bool> {
    seq(n, i requires 0 <= i < n => s.ok(i))
  }

  /** The backend's state once probe n has been reported. */
  function Reported(s: Schedule, n: nat, o: Options): Health {
    After(History(s, n + 1), o.fall, o.rise)
  }

  ghost predicate HonoursTimeout(s: Schedule, o: Options) {
    forall i: nat :: s.took(i) <= o.timeout
  }

  ghost predicate FailsFrom(s: Schedule, f: int, o: Options)
    requires ValidOptions(o)
  {
    forall i: nat :: Start(s, i, o) >= f ==> !s.ok(i)
  }

  function Max(a: int, b: int): int {
    if a >= b then a else b
  }

  /** Consecutive probes never overlap, and start at most max(interval, timeout) apart. */
  lemma {:induction false} ProbeGap(s: Schedule, i: nat, o: Options)
    requires ValidOptions(o) && HonoursTimeout(s, o)
    ensures var m := ProbeAt(s, i, o.interval);
      m.start < m.nextTick <= m.start + o.interval
    ensures End(s, i, o) <= Start(s, i + 1, o) <= Start(s, i, o) + Max(o.interval, o.timeout)
    ensures Start(s, i, o) < Start(s, i + 1, o)
  {
    if i > 0 {
      ProbeGap(s, i - 1, o);
    }
    assert s.took(i) <= o.timeout;
    assert ProbeAt(s, i + 1, o.interval) == NextProbe(ProbeAt(s, i, o.interval), s.took(i), o.interval);
  }

  lemma {:induction false} StartsGrow(s: Schedule, i: nat, k: nat, o: Options)
    requires ValidOptions(o) && HonoursTimeout(s, o)
    ensures Start(s, i, o) + k <= Start(s, i + k, o) <= Start(s, i, o) + k * Max(o.interval, o.timeout)
  {
    if k > 0 {
      StartsGrow(s, i, k - 1, o);
      ProbeGap(s, i + k - 1, o);
      assert (k - 1) * Max(o.interval, o.timeout) + Max(o.interval, o.timeout) == k * Max(o.interval, o.timeout);
    }
  }

  /** The first probe that starts at or after f, and no later than max(interval, timeout) - 1 after it. */
  lemma {:induction false} FirstFrom(s: Schedule, f: int, i: nat, o: Options) returns (j: nat)
    requires ValidOptions(o) && HonoursTimeout(s, o) && s.t0 <= f
    requires i > 0 ==> Start(s, i - 1, o) < f
    ensures f <= Start(s, j, o) <= f + Max(o.interval, o.timeout) - 1
    decreases f - Start(s, i, o)
  {
    if Start(s, i, o) >= f {
      j := i;
      if i > 0 {
        ProbeGap(s, i - 1, o);
      }
    } else {
      ProbeGap(s, i, o);
      j := FirstFrom(s, f, i + 1, o);
    }
  }

  /** The backend has been marked unhealthy by time t, and stays so. */
  ghost predicate MarkedBy(s: Schedule, t: int, o: Options)
    requires ValidOptions(o)
  {
    exists n: nat :: End(s, n, o) <= t && forall m: nat | m >= n :: !Reported(s, m, o).healthy
  }

  lemma FailuresMark(s: Schedule, j: nat, m: nat, o: Options)
    requires ValidOptions(o) && m >= j + o.fall - 1
    requires forall i: nat | j <= i <= m :: !s.ok(i)
    ensures !Reported(s, m, o).healthy
  {
    var h, p := History(s, m + 1), j + o.fall - 1;
    assert RunAt(h, p, o.fall, false);
    forall q | p < q < |h| ensures !RunAt(h, q, o.rise, true) {
      assert !h[q];
    }
    HealthIsHistory(h, o.fall, o.rise);
  }

  /** The longest a run can take to mark a backend whose probes fail from time f on. */
  function WorstCase(o: Options): int {
    o.fall * Max(o.interval, o.timeout) + o.timeout - 1
  }

  lemma Successor(i: nat, gap: int)
    requires i > 0
    ensures i * gap == (i - 1) * gap + gap
  {
  }

  lemma FailoverBound(s: Schedule, f: int, o: Options)
    requires ValidOptions(o) && HonoursTimeout(s, o)
    requires s.t0 <= f && FailsFrom(s, f, o)
    ensures MarkedBy(s, f + WorstCase(o), o)
  {
    var gap := Max(o.interval, o.timeout);
    var j := FirstFrom(s, f, 0, o);
    var n := j + (o.fall - 1);
    StartsGrow(s, j, o.fall - 1, o);
    Successor(o.fall, gap);
    assert s.took(n) <= o.timeout;
    assert End(s, n, o) <= f + WorstCase(o);
    forall m: nat | m >= n ensures !Reported(s, m, o).healthy {
      forall i: nat | j <= i <= m ensures !s.ok(i) {
        StartsGrow(s, j, i - j, o);
      }
      FailuresMark(s, j, m, o);
    }
  }

  // ---------------------------------------------------------------- the bound is reached

  /** Probe 0 succeeds; every later one fails; each takes its whole timeout. */
  function Slowest(o: Options): Schedule {
    Schedule(0, _ => o.timeout, i => i == 0)
  }

  /** While probes fit into the interval they start on the ticks. */
  lemma {:induction false} OnGrid(i: nat, o: Options)
    requires ValidOptions(o) && o.timeout <= o.interval
    ensures ProbeAt(Slowest(o), i, o.interval).nextTick == ProbeAt(Slowest(o), i, o.interval).start + o.interval
  {
    if i > 0 {
      OnGrid(i - 1, o);
      var m := ProbeAt(Slowest(o), i - 1, o.interval);
      if o.timeout == o.interval {
        assert TickAfter(m.nextTick + o.interval, m.nextTick, o.interval) == m.nextTick + o.interval;
      }
    }
  }

  lemma SlowestStep(i: nat, o: Options)
    requires ValidOptions(o)
    ensures Start(Slowest(o), i + 1, o) == Start(Slowest(o), i, o) + Max(o.interval, o.timeout)
  {
    var s := Slowest(o);
    ProbeGap(s, i, o);
    assert ProbeAt(s, i + 1, o.interval) == NextProbe(ProbeAt(s, i, o.interval), o.timeout, o.interval);
    if o.timeout <= o.interval {
      OnGrid(i, o);
    }
  }

  lemma {:induction false} SlowestStarts(i: nat, o: Options)
    requires ValidOptions(o)
    ensures Start(Slowest(o), i, o) == i * Max(o.interval, o.timeout)
  {
    if i > 0 {
      SlowestStarts(i - 1, o);
      SlowestStep(i - 1, o);
      Successor(i, Max(o.interval, o.timeout));
    }
  }

  lemma SlowestStaysHealthy(n: nat, o: Options)
    requires ValidOptions(o) && n < o.fall
    ensures Reported(Slowest(o), n, o).healthy
  {
    var h := History(Slowest(o), n + 1);
    assert h[0];
    forall p | 0 <= p < |h| ensures !RunAt(h, p, o.fall, false) {
      assert p + 1 - o.fall <= 0;
    }
    HealthIsHistory(h, o.fall, o.rise);
  }

  /** No smaller bound holds: this schedule is marked at the worst case and not a moment before. */
  lemma BoundIsReached(o: Options, t: int)
    requires ValidOptions(o) && t < 1 + WorstCase(o)
    ensures HonoursTimeout(Slowest(o), o) && FailsFrom(Slowest(o), 1, o)
    ensures !MarkedBy(Slowest(o), t, o)
  {
    var s := Slowest(o);
    forall i: nat | Start(s, i, o) >= 1 ensures !s.ok(i) {
      SlowestStarts(i, o);
    }
    forall n: nat | End(s, n, o) <= t ensures exists m: nat :: m >= n && Reported(s, m, o).healthy {
      SlowestStarts(n, o);
      if n >= o.fall {
        SlowestStarts(o.fall, o);
        StartsGrow(s, o.fall, n - o.fall, o);
      }
      SlowestStaysHealthy(n, o);
    }
  }

  /** The bound promised in docs/migration.md: interval times fall, plus one probe timeout. */
  ghost predicate DocumentedBoundHolds(o: Options)
    requires ValidOptions(o)
  {
    forall s: Schedule, f: int {:trigger FailsFrom(s, f, o)} ::
      HonoursTimeout(s, o) && s.t0 <= f && FailsFrom(s, f, o) ==>
        MarkedBy(s, f + o.fall * o.interval + o.timeout, o)
  }

  lemma MarkedLater(s: Schedule, t: int, t': int, o: Options)
    requires ValidOptions(o) && MarkedBy(s, t, o) && t <= t'
    ensures MarkedBy(s, t', o)
  {
    var n: nat :| End(s, n, o) <= t && forall m: nat | m >= n :: !Reported(s, m, o).healthy;
    assert End(s, n, o) <= t';
  }

  /** It holds unless the timeout exceeds the interval, give or take one unit of the clock. */
  lemma DocumentedBoundExactly(o: Options)
    requires ValidOptions(o)
    ensures DocumentedBoundHolds(o) <==> o.timeout <= o.interval || o.fall * (o.timeout - o.interval) <= 1
  {
    var gap := Max(o.interval, o.timeout);
    assert o.fall * (gap - o.interval) == o.fall * gap - o.fall * o.interval;
    if o.fall * gap <= 1 + o.fall * o.interval {
      forall s: Schedule, f: int | HonoursTimeout(s, o) && s.t0 <= f && FailsFrom(s, f, o)
        ensures MarkedBy(s, f + o.fall * o.interval + o.timeout, o)
      {
        FailoverBound(s, f, o);
        MarkedLater(s, f + WorstCase(o), f + o.fall * o.interval + o.timeout, o);
      }
    } else {
      BoundIsReached(o, 1 + o.fall * o.interval + o.timeout);
    }
  }
}

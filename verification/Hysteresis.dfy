/** The fall/rise machine against its history: when a backend is healthy, stated on the probes alone. */
module Hysteresis {
  import opened Backends

  /** The state after a history of probe results, oldest first. */
  function After(h: seq<bool>, fall: nat, rise: nat): Health {
    if h == [] then FRESH else Report(After(h[..|h| - 1], fall, rise), h[|h| - 1], fall, rise).0
  }

  /** How often the backend turned unhealthy (for down) or healthy (for !down). */
  function Turns(h: seq<bool>, fall: nat, rise: nat, down: bool): nat {
    if h == [] then 0
    else
      var before := After(h[..|h| - 1], fall, rise);
      var turned := Report(before, h[|h| - 1], fall, rise).1 && before.healthy == down;
      Turns(h[..|h| - 1], fall, rise, down) + if turned then 1 else 0
  }

  /** The last k results up to and including position p were all v. */
  ghost predicate RunAt(h: seq<bool>, p: nat, k: nat, v: bool)
    requires p < |h|
  {
    k <= p + 1 && forall i | p + 1 - k <= i <= p :: h[i] == v
  }

  /** The length of the run of v at the end of the history. */
  function Trailing(h: seq<bool>, v: bool): (n: nat)
    ensures n <= |h|
    ensures forall i | |h| - n <= i < |h| :: h[i] == v
    ensures n < |h| ==> h[|h| - n - 1] != v
  {
    if h == [] || h[|h| - 1] != v then 0 else 1 + Trailing(h[..|h| - 1], v)
  }

  /** A run of fall failures that no later run of rise successes answers. */
  ghost predicate Down(h: seq<bool>, fall: nat, rise: nat) {
    exists p :: 0 <= p < |h| && RunAt(h, p, fall, false) && forall q | p < q < |h| :: !RunAt(h, q, rise, true)
  }

  /** The live counter is the length of the opposing run at the end of the history; the other is zero. */
  lemma {:induction false} CounterIsTrailingRun(h: seq<bool>, fall: nat, rise: nat)
    requires fall >= 1 && rise >= 1
    ensures var s := After(h, fall, rise);
      if s.healthy then s.fails == Trailing(h, false) < fall && s.rises == 0
      else s.rises == Trailing(h, true) < rise && s.fails == 0
    decreases |h|
  {
    if h != [] {
      CounterIsTrailingRun(h[..|h| - 1], fall, rise);
    }
  }

  lemma RunIsTrailing(h: seq<bool>, k: nat, v: bool)
    requires h != []
    ensures RunAt(h, |h| - 1, k, v) <==> k <= Trailing(h, v)
  {
    var n := Trailing(h, v);
    assert n < |h| ==> h[|h| - n - 1] != v;
  }

  lemma RunAtPrefix(h: seq<bool>, p: nat, k: nat, v: bool)
    requires p < |h| - 1
    ensures RunAt(h, p, k, v) <==> RunAt(h[..|h| - 1], p, k, v)
  {
  }

  lemma DownPrefix(h: seq<bool>, fall: nat, rise: nat)
    requires h != []
    ensures Down(h, fall, rise) <==>
      RunAt(h, |h| - 1, fall, false) || (Down(h[..|h| - 1], fall, rise) && !RunAt(h, |h| - 1, rise, true))
  {
    var g := h[..|h| - 1];
    forall p, k: nat, v | 0 <= p < |g| ensures RunAt(h, p, k, v) <==> RunAt(g, p, k, v) {
      RunAtPrefix(h, p, k, v);
    }
    if Down(g, fall, rise) && !RunAt(h, |h| - 1, rise, true) {
      var p :| 0 <= p < |g| && RunAt(g, p, fall, false) && forall q | p < q < |g| :: !RunAt(g, q, rise, true);
      assert RunAt(h, p, fall, false) && forall q | p < q < |h| :: !RunAt(h, q, rise, true);
    }
    if Down(h, fall, rise) && !RunAt(h, |h| - 1, fall, false) {
      var p :| 0 <= p < |h| && RunAt(h, p, fall, false) && forall q | p < q < |h| :: !RunAt(h, q, rise, true);
      assert RunAt(g, p, fall, false) && forall q | p < q < |g| :: !RunAt(g, q, rise, true);
    }
  }

  /** A backend is unhealthy exactly when a run of failures reached fall and no later run of successes rise. */
  lemma {:induction false} HealthIsHistory(h: seq<bool>, fall: nat, rise: nat)
    requires fall >= 1 && rise >= 1
    ensures !After(h, fall, rise).healthy <==> Down(h, fall, rise)
    decreases |h|
  {
    if h != [] {
      HealthIsHistory(h[..|h| - 1], fall, rise);
      DownPrefix(h, fall, rise);
      CounterIsTrailingRun(h[..|h| - 1], fall, rise);
      RunIsTrailing(h, fall, false);
      RunIsTrailing(h, rise, true);
    }
  }

  /** One more probe pays for at most one more turn. */
  lemma TurnStep(before: Health, ok: bool, fall: nat, rise: nat, downs: nat, ups: nat, n: nat)
    requires fall >= 1 && rise >= 1
    requires before.healthy ==> before.fails < fall && before.rises == 0
    requires !before.healthy ==> before.rises < rise && before.fails == 0
    requires downs * fall + ups * rise + before.fails + before.rises <= n
    ensures var after := Report(before, ok, fall, rise);
      var moreDowns := downs + (if after.1 && before.healthy then 1 else 0);
      var moreUps := ups + (if after.1 && !before.healthy then 1 else 0);
      moreDowns * fall + moreUps * rise + after.0.fails + after.0.rises <= n + 1
  {
    assert (downs + 1) * fall == downs * fall + fall;
    assert (ups + 1) * rise == ups * rise + rise;
  }

  /** Turns alternate, and every one of them was paid for by its own run of probes. */
  lemma {:induction false} TurnsArePaidFor(h: seq<bool>, fall: nat, rise: nat)
    requires fall >= 1 && rise >= 1
    ensures var s, downs, ups := After(h, fall, rise), Turns(h, fall, rise, true), Turns(h, fall, rise, false);
      && downs == ups + (if s.healthy then 0 else 1)
      && downs * fall + ups * rise + s.fails + s.rises <= |h|
    decreases |h|
  {
    if h != [] {
      var g := h[..|h| - 1];
      TurnsArePaidFor(g, fall, rise);
      CounterIsTrailingRun(g, fall, rise);
      TurnStep(After(g, fall, rise), h[|h| - 1], fall, rise,
               Turns(g, fall, rise, true), Turns(g, fall, rise, false), |g|);
    }
  }
}

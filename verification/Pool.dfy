/** The backend pool: reconciling it with an address list, and ordering candidates for a connection. */
module Pools {
  import opened Backends
  import opened Balance

  function Addrs(bs: seq<Backend>): (r: seq<string>)
    ensures |r| == |bs| && forall i | 0 <= i < |bs| :: r[i] == bs[i].addr
  {
    seq(|bs|, i requires 0 <= i < |bs| => bs[i].addr)
  }

  predicate Distinct<T(==)>(xs: seq<T>) {
    forall i, j | 0 <= i < j < |xs| :: xs[i] != xs[j]
  }

  /** The elements of xs that are not in ys, in order. */
  function Missing<T(==)>(xs: seq<T>, ys: seq<T>): seq<T> {
    if xs == [] then []
    else if xs[|xs| - 1] in ys then Missing(xs[..|xs| - 1], ys)
    else Missing(xs[..|xs| - 1], ys) + [xs[|xs| - 1]]
  }

  lemma {:induction false} MissingIs<T>(xs: seq<T>, ys: seq<T>, x: T)
    ensures x in Missing(xs, ys) <==> x in xs && x !in ys
    decreases |xs|
  {
    if xs != [] {
      MissingIs(xs[..|xs| - 1], ys, x);
      assert xs == xs[..|xs| - 1] + [xs[|xs| - 1]];
    }
  }

  lemma MissingStep<T>(xs: seq<T>, i: nat, ys: seq<T>)
    requires i < |xs|
    ensures Missing(xs[..i + 1], ys) == Missing(xs[..i], ys) + if xs[i] in ys then [] else [xs[i]]
  {
    assert xs[..i + 1][..i] == xs[..i];
  }

  lemma AddrsJoin(bs: seq<Backend>, more: seq<Backend>)
    ensures Addrs(bs + more) == Addrs(bs) + Addrs(more)
  {
  }

  function HealthyOf(bs: seq<Backend>): (r: seq<Backend>)
    reads bs
    ensures r == [] <==> forall b | b in bs :: !b.healthy
  {
    if bs == [] then []
    else HealthyOf(bs[..|bs| - 1]) + if bs[|bs| - 1].healthy then [bs[|bs| - 1]] else []
  }

  function LoadsOf(bs: seq<Backend>): (r: seq<Load<Backend>>)
    reads bs
    ensures |r| == |bs| && forall i | 0 <= i < |bs| :: r[i] == Load(bs[i], |bs[i].conns|)
  {
    seq(|bs|, i requires 0 <= i < |bs| reads bs => Load(bs[i], |bs[i].conns|))
  }

  function Items<T>(ls: seq<Load<T>>): (r: seq<T>)
    ensures |r| == |ls| && forall i | 0 <= i < |ls| :: r[i] == ls[i].item
  {
    seq(|ls|, i requires 0 <= i < |ls| => ls[i].item)
  }

  /** The order both strategies promise: a rotation, by load or as it is. */
  function Preference(healthy: seq<Backend>, ticket: nat, leastConn: bool): seq<Backend>
    requires healthy != []
    reads healthy
  {
    var rotated := Rotate(healthy, ticket % |healthy|);
    assert forall b | b in rotated :: b in multiset(rotated) && b in healthy;
    if leastConn then Items(StableSort(LoadsOf(rotated))) else rotated
  }

  lemma {:induction false} InsertKeepsItems<T>(x: Load<T>, ls: seq<Load<T>>)
    ensures multiset(Items(Insert(x, ls))) == multiset([x.item]) + multiset(Items(ls))
    decreases |ls|
  {
    if ls == [] || x.count <= ls[0].count {
      assert Items(Insert(x, ls)) == [x.item] + Items(ls);
    } else {
      InsertKeepsItems(x, ls[1..]);
      assert Items(Insert(x, ls)) == [ls[0].item] + Items(Insert(x, ls[1..]));
      assert Items(ls) == [ls[0].item] + Items(ls[1..]);
    }
  }

  lemma {:induction false} SortKeepsItems<T>(ls: seq<Load<T>>)
    ensures multiset(Items(StableSort(ls))) == multiset(Items(ls))
    decreases |ls|
  {
    if ls != [] {
      SortKeepsItems(ls[1..]);
      InsertKeepsItems(ls[0], StableSort(ls[1..]));
      assert Items(ls) == [ls[0].item] + Items(ls[1..]);
    }
  }

  /** Every healthy backend stays a candidate exactly once, so a failed dial can fall through to all the others. */
  lemma PreferencePermutes(healthy: seq<Backend>, ticket: nat, leastConn: bool)
    requires healthy != []
    ensures multiset(Preference(healthy, ticket, leastConn)) == multiset(healthy)
  {
    var rotated := Rotate(healthy, ticket % |healthy|);
    SortKeepsItems(LoadsOf(rotated));
    assert Items(LoadsOf(rotated)) == rotated;
  }

  // ---------------------------------------------------------------- the order, said of the pool itself

  /** The positions of the healthy backends, in list order. */
  ghost predicate Picks(bs: seq<Backend>, picks: seq<nat>)
    reads bs
  {
    && (forall k | 0 <= k < |picks| :: picks[k] < |bs| && bs[picks[k]].healthy)
    && (forall k, l | 0 <= k < l < |picks| :: picks[k] < picks[l])
    && (forall i | 0 <= i < |bs| && bs[i].healthy :: i in picks)
  }

  predicate Precedes(a: Backend, b: Backend, standsFirst: bool)
    reads a, b
  {
    |a.conns| < |b.conns| || (|a.conns| == |b.conns| && standsFirst)
  }

  /** So many places behind the one whose turn it is. */
  function Place(ticket: nat, turn: nat, n: nat): (place: nat)
    requires n > 0
    ensures place < n
  {
    (ticket + turn) % n
  }

  /** Candidate i is the healthy backend that stands turns[i] places behind the one whose turn it is. */
  ghost predicate InTurn(bs: seq<Backend>, order: seq<Backend>, ticket: nat, picks: seq<nat>, turns: seq<nat>)
    reads bs
    requires Picks(bs, picks) && |order| == |turns| == |picks|
  {
    forall i | 0 <= i < |picks| ::
      turns[i] < |picks| && order[i] == bs[picks[Place(ticket, turns[i], |picks|)]]
  }

  /**
   Nobody has two turns. Rotation takes the candidates as they stand; by load, the less loaded comes first, and
   among equals the one that stands first.
   */
  predicate TurnsRight(order: seq<Backend>, leastConn: bool, turns: seq<nat>)
    reads order
    requires |order| == |turns|
  {
    forall i, j | 0 <= i < j < |turns| ::
      && turns[i] != turns[j]
      && if leastConn then Precedes(order[i], order[j], turns[i] < turns[j]) else turns[i] < turns[j]
  }

  ghost predicate Follows(bs: seq<Backend>, order: seq<Backend>, ticket: nat, leastConn: bool,
                          picks: seq<nat>, turns: seq<nat>)
    reads bs, order
  {
    && picks != [] && Picks(bs, picks) && |order| == |turns| == |picks|
    && InTurn(bs, order, ticket, picks, turns) && TurnsRight(order, leastConn, turns)
  }

  /** The order that the strategy promises for a ticket: every healthy backend once, in its turn. */
  ghost predicate RightOrder(bs: seq<Backend>, order: seq<Backend>, ticket: nat, leastConn: bool)
    reads bs, order
  {
    exists picks, turns :: Follows(bs, order, ticket, leastConn, picks, turns)
  }

  ghost function PicksOf(bs: seq<Backend>): (picks: seq<nat>)
    reads bs
  {
    if bs == [] then []
    else PicksOf(bs[..|bs| - 1]) + if bs[|bs| - 1].healthy then [|bs| - 1] else []
  }

  lemma PicksMore(bs: seq<Backend>, picks: seq<nat>)
    requires bs != [] && Picks(bs[..|bs| - 1], picks)
    ensures Picks(bs, picks + if bs[|bs| - 1].healthy then [|bs| - 1] else [])
  {
    var init := bs[..|bs| - 1];
    var more := picks + if bs[|bs| - 1].healthy then [|bs| - 1] else [];
    forall i | 0 <= i < |bs| && bs[i].healthy ensures i in more {
      if i < |init| {
        assert init[i].healthy && i in picks;
      } else {
        assert more[|picks|] == i;
      }
    }
  }

  ghost predicate Listed(bs: seq<Backend>, picks: seq<nat>, healthy: seq<Backend>) {
    |picks| == |healthy| && forall k | 0 <= k < |picks| :: picks[k] < |bs| && bs[picks[k]] == healthy[k]
  }

  lemma ListedAt(bs: seq<Backend>, picks: seq<nat>, healthy: seq<Backend>, k: nat)
    requires Listed(bs, picks, healthy) && k < |picks|
    ensures picks[k] < |bs| && bs[picks[k]] == healthy[k]
  {
  }

  lemma {:induction false} PicksOfPicks(bs: seq<Backend>)
    ensures Picks(bs, PicksOf(bs)) && Listed(bs, PicksOf(bs), HealthyOf(bs))
    decreases |bs|
  {
    if bs != [] {
      PicksOfPicks(bs[..|bs| - 1]);
      PicksMore(bs, PicksOf(bs[..|bs| - 1]));
    }
  }

  function CountsOf(bs: seq<Backend>): (counts: seq<nat>)
    reads bs
    ensures |counts| == |bs| && forall i | 0 <= i < |bs| :: counts[i] == |bs[i].conns|
  {
    seq(|bs|, i requires 0 <= i < |bs| reads bs => |bs[i].conns|)
  }

  /** By load, candidate i is the one whose turn it is among the rotated. */
  lemma ByLoad(rotated: seq<Backend>, i: nat)
    requires i < |rotated|
    ensures |Items(StableSort(LoadsOf(rotated)))| == |rotated|
    ensures Turns(CountsOf(rotated))[i] < |rotated|
    ensures Items(StableSort(LoadsOf(rotated)))[i] == rotated[Turns(CountsOf(rotated))[i]]
  {
    var places := Loads(CountsOf(rotated));
    TurnsSpec(CountsOf(rotated));
    SortRelabels(places, rotated);
    assert LoadsOf(rotated) == Relabel(places, rotated);
  }

  lemma RotatedAt(healthy: seq<Backend>, ticket: nat, i: nat)
    requires i < |healthy|
    ensures Rotate(healthy, ticket % |healthy|)[i] == healthy[Place(ticket, i, |healthy|)]
  {
    ModAdd(ticket, i, |healthy|);
  }

  /** The turns of the candidates, in rotation or by load. */
  ghost function TurnsFor(healthy: seq<Backend>, ticket: nat, leastConn: bool): (turns: seq<nat>)
    requires healthy != []
    reads healthy
    ensures |turns| == |healthy|
  {
    var rotated := Rotate(healthy, ticket % |healthy|);
    assert forall b | b in rotated :: b in multiset(rotated) && b in healthy;
    if leastConn then Turns(CountsOf(rotated)) else seq(|healthy|, (i: nat) => i)
  }

  lemma PreferenceAt(healthy: seq<Backend>, ticket: nat, leastConn: bool, i: nat)
    requires i < |healthy|
    ensures var n, turns := |healthy|, TurnsFor(healthy, ticket, leastConn);
      var order := Preference(healthy, ticket, leastConn);
      |order| == n && turns[i] < n && order[i] == healthy[Place(ticket, turns[i], n)]
  {
    var rotated := Rotate(healthy, ticket % |healthy|);
    if leastConn {
      ByLoad(rotated, i);
      RotatedAt(healthy, ticket, Turns(CountsOf(rotated))[i]);
    } else {
      RotatedAt(healthy, ticket, i);
    }
  }

  lemma TurnsForSpec(healthy: seq<Backend>, ticket: nat, leastConn: bool, i: nat, j: nat)
    requires i < j < |healthy|
    ensures var turns, order := TurnsFor(healthy, ticket, leastConn), Preference(healthy, ticket, leastConn);
      && turns[i] != turns[j] && |order| == |healthy|
      && if leastConn then Precedes(order[i], order[j], turns[i] < turns[j]) else turns[i] < turns[j]
  {
    if leastConn {
      var rotated := Rotate(healthy, ticket % |healthy|);
      TurnsSpec(CountsOf(rotated));
      ByLoad(rotated, i);
      ByLoad(rotated, j);
    }
  }

  lemma TurnsForRight(healthy: seq<Backend>, ticket: nat, leastConn: bool)
    requires healthy != []
    ensures var order := Preference(healthy, ticket, leastConn);
      |order| == |healthy| && TurnsRight(order, leastConn, TurnsFor(healthy, ticket, leastConn))
  {
    var order, turns := Preference(healthy, ticket, leastConn), TurnsFor(healthy, ticket, leastConn);
    PreferenceAt(healthy, ticket, leastConn, 0);
    forall i, j | 0 <= i < j < |healthy|
      ensures turns[i] != turns[j]
      ensures if leastConn then Precedes(order[i], order[j], turns[i] < turns[j]) else turns[i] < turns[j]
    {
      TurnsForSpec(healthy, ticket, leastConn, i, j);
    }
  }

  lemma TurnsForInTurn(bs: seq<Backend>, picks: seq<nat>, healthy: seq<Backend>, ticket: nat, leastConn: bool)
    requires Picks(bs, picks) && Listed(bs, picks, healthy) && healthy != []
    ensures var order := Preference(healthy, ticket, leastConn);
      |order| == |healthy| && InTurn(bs, order, ticket, picks, TurnsFor(healthy, ticket, leastConn))
  {
    var order, turns := Preference(healthy, ticket, leastConn), TurnsFor(healthy, ticket, leastConn);
    PreferenceAt(healthy, ticket, leastConn, 0);
    forall i | 0 <= i < |picks|
      ensures turns[i] < |picks| && order[i] == bs[picks[Place(ticket, turns[i], |picks|)]]
    {
      PreferenceAt(healthy, ticket, leastConn, i);
      ListedAt(bs, picks, healthy, Place(ticket, turns[i], |picks|));
    }
  }

  /** Both strategies keep their promise. */
  lemma PreferenceFollows(bs: seq<Backend>, healthy: seq<Backend>, order: seq<Backend>, ticket: nat, leastConn: bool)
    requires healthy == HealthyOf(bs) && healthy != [] && order == Preference(healthy, ticket, leastConn)
    ensures RightOrder(bs, order, ticket, leastConn)
  {
    var picks := PicksOf(bs);
    PicksOfPicks(bs);
    TurnsForInTurn(bs, picks, healthy, ticket, leastConn);
    TurnsForRight(healthy, ticket, leastConn);
    assert Follows(bs, order, ticket, leastConn, picks, TurnsFor(healthy, ticket, leastConn));
  }

  /**
   The first candidate of call t is the one that the fairness and the balance of module Balance are about: in
   rotation the backend whose turn it is, by load the one that the sorting puts first.
   */
  lemma HeadOfPreference(healthy: seq<Backend>, c: nat, t: nat)
    requires healthy != []
    ensures var rotation, byLoad := Preference(healthy, Counter(c, t), false), Preference(healthy, Counter(c, t), true);
      && |rotation| == |byLoad| == |healthy|
      && rotation[0] == healthy[HeadOf(c, t, |healthy|)]
      && LeastHead(CountsOf(healthy), HeadOf(c, t, |healthy|)) < |healthy|
      && byLoad[0] == healthy[LeastHead(CountsOf(healthy), HeadOf(c, t, |healthy|))]
  {
    var start := HeadOf(c, t, |healthy|);
    var rotated, places := Rotate(healthy, start), Rotated(CountsOf(healthy), start);
    LeastHeadIsMin(CountsOf(healthy), start);
    RotatedAt(healthy, Counter(c, t), 0);
    SortRelabels(places, healthy);
    assert LoadsOf(rotated) == Relabel(places, healthy);
  }

  class Pool {
    var backends: seq<Backend>
    const counter: RoundRobin
    const leastConn: bool

    constructor (addrs: seq<string>, leastConn: bool)
      ensures Addrs(backends) == addrs && fresh(counter) && counter.next == 0 && this.leastConn == leastConn
      ensures forall b | b in backends :: fresh(b) && b.State() == FRESH && b.conns == {}
    {
      this.leastConn := leastConn;
      counter := new RoundRobin();
      backends := [];
      new;
      for i := 0 to |addrs|
        invariant Addrs(backends) == addrs[..i]
        invariant forall b | b in backends :: fresh(b) && b.State() == FRESH && b.conns == {}
        invariant fresh(counter) && counter.next == 0
      {
        var b := new Backend(addrs[i]);
        backends := backends + [b];
      }
    }

    method Healthy() returns (healthy: seq<Backend>)
      ensures healthy == HealthyOf(backends)
    {
      healthy := [];
      for i := 0 to |backends|
        invariant healthy == HealthyOf(backends[..i])
      {
        assert backends[..i + 1][..i] == backends[..i];
        if backends[i].healthy {
          healthy := healthy + [backends[i]];
        }
      }
      assert backends[..|backends|] == backends;
    }

    /** The picker: a rotation for the next ticket, sorted by load if that is the strategy. */
    method Order(healthy: seq<Backend>) returns (order: seq<Backend>)
      requires healthy != [] && counter.next < WRAP
      modifies counter
      ensures order == Preference(healthy, old(counter.next), leastConn)
      ensures counter.next == Inc(old(counter.next))
    {
      order := counter.Order(healthy);
      if leastConn {
        order := Items(StableSort(LoadsOf(order)));
      }
    }

    /** The healthy backends in the strategy's order, or every backend in list order when none is healthy. */
    method Candidates() returns (order: seq<Backend>, degraded: bool)
      requires counter.next < WRAP
      modifies counter
      ensures degraded <==> forall b | b in backends :: !b.healthy
      ensures degraded ==> order == backends && counter.next == old(counter.next)
      ensures !degraded ==> RightOrder(backends, order, old(counter.next), leastConn)
      ensures !degraded ==> counter.next == Inc(old(counter.next))
    {
      var healthy := Healthy();
      if |healthy| == 0 {
        return backends, true;
      }
      order := Order(healthy);
      degraded := false;
      assert healthy == HealthyOf(backends);
      PreferenceFollows(backends, healthy, order, old(counter.next), leastConn);
    }

    /** Keeps the instances of retained addresses; one new backend for every other address. */
    method SetAddrs(addrs: seq<string>) returns (added: seq<Backend>, removed: seq<Backend>)
      modifies this`backends
      ensures Addrs(backends) == addrs
      ensures forall i | 0 <= i < |addrs| ::
        if addrs[i] in Addrs(old(backends)) then backends[i] in old(backends)
        else fresh(backends[i]) && backends[i] in added
      ensures forall b | b in added :: fresh(b) && b.State() == FRESH && b.conns == {}
      ensures Addrs(added) == Missing(addrs, Addrs(old(backends)))
      ensures forall b :: b in removed <==> b in old(backends) && b.addr !in addrs
      ensures Addrs(removed) == Missing(Addrs(old(backends)), addrs)
    {
      var current := ByAddr();
      var next: seq<Backend>;
      next, added := Next(addrs, current);
      removed := Dropped(set a | a in addrs);
      backends := next;
    }

    /** The first loop of SetAddrs: the backends by their address. */
    method ByAddr() returns (current: map<string, Backend>)
      ensures forall a :: a in current <==> a in Addrs(backends)
      ensures forall a | a in current :: current[a] in backends && current[a].addr == a
    {
      current := map[];
      for i := 0 to |backends|
        invariant forall a | a in current :: current[a] in backends && current[a].addr == a
        invariant forall k | 0 <= k < i :: backends[k].addr in current
      {
        current := current[backends[i].addr := backends[i]];
      }
    }

    /** Its second loop: the next list, kept or new instance by instance. */
    method Next(addrs: seq<string>, current: map<string, Backend>) returns (next: seq<Backend>, added: seq<Backend>)
      requires forall a :: a in current <==> a in Addrs(backends)
      requires forall a | a in current :: current[a].addr == a
      ensures Addrs(next) == addrs
      ensures forall i | 0 <= i < |addrs| ::
        if addrs[i] in current then next[i] == current[addrs[i]] else next[i] in added
      ensures forall b | b in added :: fresh(b) && b.State() == FRESH && b.conns == {}
      ensures Addrs(added) == Missing(addrs, Addrs(backends))
    {
      next, added := [], [];
      for i := 0 to |addrs|
        invariant |next| == i && forall k | 0 <= k < i :: next[k].addr == addrs[k]
        invariant forall k | 0 <= k < i ::
          if addrs[k] in current then next[k] == current[addrs[k]] else next[k] in added
        invariant forall b | b in added :: fresh(b) && b.State() == FRESH && b.conns == {}
        invariant Addrs(added) == Missing(addrs[..i], Addrs(backends))
      {
        var b, more := KeptOrNew(addrs[i], current);
        assert Addrs(added + more) == Missing(addrs[..i + 1], Addrs(backends)) by {
          MissingStep(addrs, i, Addrs(backends));
          AddrsJoin(added, more);
          assert Addrs(more) == if addrs[i] in Addrs(backends) then [] else [addrs[i]];
        }
        next, added := next + [b], added + more;
      }
      assert addrs[..|addrs|] == addrs;
    }

    method KeptOrNew(a: string, current: map<string, Backend>) returns (b: Backend, added: seq<Backend>)
      requires a in current ==> current[a].addr == a
      ensures b.addr == a
      ensures if a in current then b == current[a] && added == []
        else added == [b] && fresh(b) && b.State() == FRESH && b.conns == {}
    {
      if a in current {
        b, added := current[a], [];
      } else {
        b := new Backend(a);
        added := [b];
      }
    }

    /** Its third loop: the backends whose address is not kept. */
    method Dropped(keep: set<string>) returns (removed: seq<Backend>)
      ensures forall b :: b in removed <==> b in backends && b.addr !in keep
      ensures forall addrs: seq<string> | keep == (set a | a in addrs) ::
        Addrs(removed) == Missing(Addrs(backends), addrs)
    {
      removed := [];
      for i := 0 to |backends|
        invariant forall b :: b in removed <==> b in backends[..i] && b.addr !in keep
        invariant forall addrs: seq<string> | keep == (set a | a in addrs) ::
          Addrs(removed) == Missing(Addrs(backends[..i]), addrs)
      {
        assert Addrs(backends[..i + 1])[..i] == Addrs(backends[..i]);
        if backends[i].addr !in keep {
          removed := removed + [backends[i]];
        }
      }
      assert backends[..|backends|] == backends;
    }
  }

  predicate Same(addrs: seq<string>, known: seq<string>) {
    |addrs| == |known| && forall a | a in addrs :: a in known
  }

  /** The shortcut of discovery: same length, and every address known. */
  method SameAddrs(addrs: seq<string>, backends: seq<Backend>) returns (same: bool)
    ensures same <==> Same(addrs, Addrs(backends))
  {
    if |addrs| != |backends| {
      return false;
    }
    var current: set<string> := {};
    for i := 0 to |backends|
      invariant current == set a | a in Addrs(backends)[..i]
    {
      current := current + {backends[i].addr};
    }
    assert Addrs(backends)[..|backends|] == Addrs(backends);
    for i := 0 to |addrs|
      invariant forall k | 0 <= k < i :: addrs[k] in Addrs(backends)
    {
      if addrs[i] !in current {
        return false;
      }
    }
    return true;
  }

  // ---------------------------------------------------------------- reconciliation

  function Elems<T(==)>(xs: seq<T>): set<T> {
    set x | x in xs
  }

  lemma {:induction false} DistinctCount<T>(xs: seq<T>)
    ensures |Elems(xs)| <= |xs|
    ensures Distinct(xs) <==> |Elems(xs)| == |xs|
    decreases |xs|
  {
    if xs != [] {
      var init, last := xs[..|xs| - 1], xs[|xs| - 1];
      DistinctCount(init);
      assert xs == init + [last];
      assert Elems(xs) == Elems(init) + {last};
      if last in init {
        assert Elems(xs) == Elems(init);
        var i :| 0 <= i < |init| && init[i] == last;
        assert xs[i] == xs[|xs| - 1];
      }
    }
  }

  lemma {:induction false} MissingDistinct<T>(xs: seq<T>, ys: seq<T>)
    requires Distinct(xs)
    ensures Distinct(Missing(xs, ys))
    decreases |xs|
  {
    if xs != [] {
      MissingDistinct(xs[..|xs| - 1], ys);
      MissingIs(xs[..|xs| - 1], ys, xs[|xs| - 1]);
    }
  }

  lemma MissingElems<T>(xs: seq<T>, ys: seq<T>)
    requires Distinct(xs)
    ensures |Missing(xs, ys)| == |Elems(xs) - Elems(ys)|
  {
    MissingDistinct(xs, ys);
    DistinctCount(Missing(xs, ys));
    forall x ensures x in Elems(Missing(xs, ys)) <==> x in Elems(xs) - Elems(ys) {
      MissingIs(xs, ys, x);
    }
    assert Elems(Missing(xs, ys)) == Elems(xs) - Elems(ys);
  }

  /** Reconciliation conserves backends: what the pool had plus what it gained is what it has plus what it lost. */
  lemma BackendsAreConserved<T>(known: seq<T>, addrs: seq<T>)
    requires Distinct(known) && Distinct(addrs)
    ensures |known| + |Missing(addrs, known)| == |addrs| + |Missing(known, addrs)|
  {
    MissingElems(addrs, known);
    MissingElems(known, addrs);
    DistinctCount(addrs);
    DistinctCount(known);
    var a, k := Elems(addrs), Elems(known);
    assert a == (a - k) + (a * k) && k == (k - a) + (a * k);
  }

  lemma NoneIsEmpty<T>(xs: seq<T>)
    ensures (forall x :: x !in xs) ==> xs == []
  {
    assert xs != [] ==> xs[0] in xs;
  }

  lemma Contained<T>(a: set<T>, b: set<T>)
    requires a <= b
    ensures |a| <= |b| && (|a| == |b| ==> a == b)
  {
    assert b == a + (b - a);
  }

  /** For lists without repetition, the shortcut answers true exactly when reconciling would add and remove nothing. */
  lemma ShortcutIsExact(addrs: seq<string>, known: seq<string>)
    requires Distinct(addrs) && Distinct(known)
    ensures Same(addrs, known) <==> Missing(addrs, known) == [] && Missing(known, addrs) == []
  {
    BackendsAreConserved(known, addrs);
    forall a ensures a in Missing(addrs, known) <==> a in addrs && a !in known {
      MissingIs(addrs, known, a);
    }
    if Same(addrs, known) {
      NoneIsEmpty(Missing(addrs, known));
    } else if |addrs| == |known| {
      var a :| a in addrs && a !in known;
      assert a in Missing(addrs, known);
    }
  }

  /**
   For a discovered list, which repeats nothing, a true answer is safe whatever the pool holds: reconciling
   would change nothing, and the pool repeats nothing either.
   */
  lemma ShortcutIsSafe(addrs: seq<string>, known: seq<string>)
    requires Distinct(addrs) && Same(addrs, known)
    ensures Missing(addrs, known) == [] && Missing(known, addrs) == [] && Distinct(known)
  {
    DistinctCount(addrs);
    DistinctCount(known);
    Contained(Elems(addrs), Elems(known));
    ShortcutIsExact(addrs, known);
  }

  /** A list that repeats an address, as discovery never does, could hide a removal from the shortcut. */
  lemma RepetitionFoolsShortcut(a: string, b: string)
    requires a != b
    ensures Same([a, a], [a, b]) && b in Missing([a, b], [a, a])
  {
    MissingIs([a, b], [a, a], b);
  }
}

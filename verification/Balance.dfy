/** The two balancing strategies: rotation by a 64-bit ticket counter, and stable order by load. */
module Balance {
  /** The counter is a uint64. */
  const WRAP: nat := 0x1_0000_0000_0000_0000

  lemma NoMultipleBetween(k: int, n: int, z: int)
    requires n > 0 && k * n == z && -n < z < n
    ensures k == 0
  {
    assert k >= 1 ==> (k - 1) * n >= 0 && k * n == (k - 1) * n + n;
    assert k <= -1 ==> (-k - 1) * n >= 0 && -(k * n) == (-k - 1) * n + n;
  }

  lemma ModUnique(x: nat, n: nat, q: nat, r: nat)
    requires 0 <= r < n && x == q * n + r
    ensures x % n == r
  {
    var d, m := x / n, x % n;
    assert x == d * n + m;
    assert (d - q) * n == d * n - q * n;
    NoMultipleBetween(d - q, n, r - m);
  }

  lemma ModAdd(x: nat, i: nat, n: nat)
    requires n > 0
    ensures (x % n + i) % n == (x + i) % n
  {
    var d, s := x / n, x % n + i;
    assert s == (s / n) * n + s % n && x == d * n + x % n;
    assert (d + s / n) * n == d * n + (s / n) * n;
    ModUnique(x + i, n, d + s / n, s % n);
  }

  /** Position i of a list of n rotated to start. */
  function RotIndex(start: nat, i: nat, n: nat): (k: nat)
    requires start < n && i < n
    ensures k == (start + i) % n
    ensures k == if start + i < n then start + i else start + i - n
  {
    ModUnique(start + i, n, if start + i < n then 0 else 1, if start + i < n then start + i else start + i - n);
    (start + i) % n
  }

  function Rotate<T>(xs: seq<T>, start: nat): (r: seq<T>)
    requires start < |xs|
    ensures |r| == |xs| && multiset(r) == multiset(xs)
    ensures forall i | 0 <= i < |xs| :: r[i] == xs[RotIndex(start, i, |xs|)]
  {
    assert xs == xs[..start] + xs[start..];
    xs[start..] + xs[..start]
  }

  /** A uint64 increment. */
  function Inc(x: nat): nat {
    if x + 1 == WRAP then 0 else x + 1
  }

  /** The atomic counter: every call of every caller takes the next ticket. */
  class RoundRobin {
    var next: nat

    constructor ()
      ensures next == 0
    {
      next := 0;
    }

    /** The loop of Order, filling the rotated list one element at a time. */
    method Order<T>(healthy: seq<T>) returns (out: seq<T>)
      requires healthy != [] && next < WRAP
      modifies this
      ensures next == Inc(old(next))
      ensures out == Rotate(healthy, old(next) % |healthy|)
    {
      var n, ticket := |healthy|, next;
      next := Inc(next);
      var start := ticket % n;
      out := [];
      for i := 0 to n
        invariant |out| == i
        invariant out == Rotate(healthy, start)[..i]
      {
        out := out + [healthy[RotIndex(start, i, n)]];
      }
    }
  }

  // ---------------------------------------------------------------- round-robin fairness

  /** The counter t calls after it read c, whoever made the calls. */
  function Counter(c: nat, t: nat): nat {
    if t == 0 then c else Inc(Counter(c, t - 1))
  }

  /** The index of the backend that heads the t-th of those calls. */
  function HeadOf(c: nat, t: nat, n: nat): nat
    requires n > 0
  {
    Counter(c, t) % n
  }

  /** How many of m consecutive calls backend j headed. */
  function Hits(c: nat, m: nat, n: nat, j: nat): nat
    requires n > 0
  {
    if m == 0 then 0 else Hits(c, m - 1, n, j) + if HeadOf(c, m - 1, n) == j then 1 else 0
  }

  /** The same for a counter that never wraps. */
  function Unwrapped(a: nat, m: nat, n: nat, j: nat): nat
    requires n > 0
  {
    if m == 0 then 0 else Unwrapped(a, m - 1, n, j) + if (a + m - 1) % n == j then 1 else 0
  }

  lemma ModSucc(x: nat, n: nat)
    requires n > 0
    ensures (x + 1) % n == if x % n + 1 == n then 0 else x % n + 1
  {
    var q, r := x / n, x % n;
    assert x == q * n + r;
    if r + 1 == n {
      assert (q + 1) * n == q * n + n;
      ModUnique(x + 1, n, q + 1, 0);
    } else {
      ModUnique(x + 1, n, q, r + 1);
    }
  }

  lemma ModSmall(x: nat, n: nat)
    requires x < n
    ensures x % n == x
  {
    ModUnique(x, n, 0, x);
  }

  /** How many calls backend j waits for its turn when the rotation starts at s. */
  function Wait(j: nat, s: nat, n: nat): nat
    requires j < n && s < n
  {
    if j >= s then j - s else j + n - s
  }

  /** m calls are q full rounds and r calls more: everyone headed q of them, the next r backends one more. */
  lemma {:induction false} Rounds(a: nat, m: nat, n: nat) returns (q: nat, r: nat)
    requires n > 0
    ensures r < n
    ensures var s := a % n;
      && (a + m) % n == (if s + r < n then s + r else s + r - n)
      && forall j | 0 <= j < n :: Unwrapped(a, m, n, j) == q + if Wait(j, s, n) < r then 1 else 0
  {
    if m == 0 {
      q, r := 0, 0;
    } else {
      q, r := Rounds(a, m - 1, n);
      ModSucc(a + m - 1, n);
      if r + 1 == n {
        q, r := q + 1, 0;
      } else {
        r := r + 1;
      }
    }
  }

  lemma UnwrappedFair(a: nat, m: nat, n: nat, j: nat, k: nat)
    requires j < n && k < n
    ensures Unwrapped(a, m, n, j) <= Unwrapped(a, m, n, k) + 1
  {
    var q, r := Rounds(a, m, n);
  }

  lemma {:induction false} CounterNoWrap(c: nat, t: nat)
    requires c + t < WRAP
    ensures Counter(c, t) == c + t
  {
    if t > 0 {
      CounterNoWrap(c, t - 1);
    }
  }

  lemma {:induction false} CounterOneWrap(c: nat, t: nat)
    requires c < WRAP && WRAP <= c + t < 2 * WRAP
    ensures Counter(c, t) == c + t - WRAP
  {
    if c + t == WRAP {
      CounterNoWrap(c, t - 1);
    } else {
      CounterOneWrap(c, t - 1);
    }
  }

  lemma {:induction false} NoWrap(c: nat, m: nat, n: nat, j: nat)
    requires n > 0 && c + m <= WRAP
    ensures Hits(c, m, n, j) == Unwrapped(c, m, n, j)
  {
    if m > 0 {
      NoWrap(c, m - 1, n, j);
      CounterNoWrap(c, m - 1);
    }
  }

  /** Past the wrap the counter starts again at zero. */
  lemma {:induction false} OneWrap(c: nat, m: nat, n: nat, j: nat)
    requires n > 0 && c < WRAP && WRAP <= c + m <= 2 * WRAP
    ensures Hits(c, m, n, j) == Unwrapped(c, WRAP - c, n, j) + Unwrapped(0, c + m - WRAP, n, j)
    decreases m
  {
    if c + m == WRAP {
      NoWrap(c, m, n, j);
    } else {
      OneWrap(c, m - 1, n, j);
      CounterOneWrap(c, m - 1);
    }
  }

  /** While the counter does not wrap, no backend heads more than one call more than another. */
  lemma FairWithoutWrap(c: nat, m: nat, n: nat, j: nat, k: nat)
    requires j < n && k < n && c + m <= WRAP
    ensures Hits(c, m, n, j) <= Hits(c, m, n, k) + 1
  {
    NoWrap(c, m, n, j);
    NoWrap(c, m, n, k);
    UnwrappedFair(c, m, n, j, k);
  }

  /** Across one wrap, no more than two. */
  lemma FairAcrossWrap(c: nat, m: nat, n: nat, j: nat, k: nat)
    requires j < n && k < n && c < WRAP && c + m <= 2 * WRAP
    ensures Hits(c, m, n, j) <= Hits(c, m, n, k) + 2
  {
    if c + m <= WRAP {
      FairWithoutWrap(c, m, n, j, k);
    } else {
      OneWrap(c, m, n, j);
      OneWrap(c, m, n, k);
      UnwrappedFair(c, WRAP - c, n, j, k);
      UnwrappedFair(0, c + m - WRAP, n, j, k);
    }
  }

  lemma {:induction false} CounterMod(c: nat, t: nat, n: nat)
    requires n > 0 && WRAP % n == 0 && c < WRAP
    ensures Counter(c, t) < WRAP && Counter(c, t) % n == (c + t) % n
  {
    if t > 0 {
      CounterMod(c, t - 1, n);
      ModSucc(Counter(c, t - 1), n);
      ModSucc(c + t - 1, n);
      ModSmall(0, n);
    }
  }

  lemma {:induction false} DivisorNeverWraps(c: nat, m: nat, n: nat, j: nat)
    requires n > 0 && WRAP % n == 0 && c < WRAP
    ensures Hits(c, m, n, j) == Unwrapped(c, m, n, j)
  {
    if m > 0 {
      DivisorNeverWraps(c, m - 1, n, j);
      CounterMod(c, m - 1, n);
    }
  }

  ghost predicate AlwaysFair(n: nat)
    requires n > 0
  {
    forall c: nat, m: nat, j: nat, k: nat {:trigger Hits(c, m, n, j), Hits(c, m, n, k)} ::
      c < WRAP && j < n && k < n ==> Hits(c, m, n, j) <= Hits(c, m, n, k) + 1
  }

  lemma {:induction false} FirstRound(m: nat, n: nat, j: nat)
    requires m <= n && j < n
    ensures Unwrapped(0, m, n, j) == if j < m then 1 else 0
  {
    if m > 0 {
      FirstRound(m - 1, n, j);
      ModSmall(m - 1, n);
    }
  }

  /** Otherwise the backend of the last ticket is served again before the round is over. */
  lemma SkewedByWrap(n: nat, r: nat)
    requires 0 < n <= WRAP && r == WRAP % n && r != 0
    ensures Hits(WRAP - 1, r + 1, n, r - 1) == 2 && Hits(WRAP - 1, r + 1, n, r) == 0
  {
    ModSucc(WRAP - 1, n);
    OneWrap(WRAP - 1, r + 1, n, r - 1);
    OneWrap(WRAP - 1, r + 1, n, r);
    FirstRound(r, n, r - 1);
    FirstRound(r, n, r);
    assert Unwrapped(WRAP - 1, 0, n, r - 1) == Unwrapped(WRAP - 1, 0, n, r) == 0;
  }

  /** However often the counter wraps, nobody notices exactly when the pool size divides 2^64. */
  lemma FairIffDivisor(n: nat)
    requires 0 < n <= WRAP
    ensures AlwaysFair(n) <==> WRAP % n == 0
  {
    if WRAP % n == 0 {
      forall c: nat, m: nat, j: nat, k: nat | c < WRAP && j < n && k < n
        ensures Hits(c, m, n, j) <= Hits(c, m, n, k) + 1
      {
        DivisorNeverWraps(c, m, n, j);
        DivisorNeverWraps(c, m, n, k);
        UnwrappedFair(c, m, n, j, k);
      }
    } else {
      SkewedByWrap(n, WRAP % n);
    }
  }

  // ---------------------------------------------------------------- least connections

  /** A candidate and its number of in-flight connections. */
  datatype Load<+T> = Load(item: T, count: nat)

  function Insert<T>(x: Load<T>, ls: seq<Load<T>>): (r: seq<Load<T>>)
    ensures |r| == |ls| + 1
  {
    if ls == [] || x.count <= ls[0].count then [x] + ls else [ls[0]] + Insert(x, ls[1..])
  }

  /** sort.SliceStable by count, as insertion from the right: equal loads keep their order. */
  function StableSort<T>(ls: seq<Load<T>>): (r: seq<Load<T>>)
    ensures |r| == |ls|
  {
    if ls == [] then [] else Insert(ls[0], StableSort(ls[1..]))
  }

  /** The candidates with a given load, in order. */
  function WithCount<T>(ls: seq<Load<T>>, n: nat): seq<Load<T>> {
    if ls == [] then []
    else if ls[0].count == n then [ls[0]] + WithCount(ls[1..], n)
    else WithCount(ls[1..], n)
  }

  predicate SortedByCount<T>(ls: seq<Load<T>>) {
    forall i, j | 0 <= i < j < |ls| :: ls[i].count <= ls[j].count
  }

  lemma {:induction false} InsertPermutes<T>(x: Load<T>, ls: seq<Load<T>>)
    ensures multiset(Insert(x, ls)) == multiset([x] + ls)
    decreases |ls|
  {
    if ls != [] && x.count > ls[0].count {
      InsertPermutes(x, ls[1..]);
      assert ls == [ls[0]] + ls[1..];
    }
  }

  lemma {:induction false} InsertSorts<T>(x: Load<T>, ls: seq<Load<T>>)
    requires SortedByCount(ls)
    ensures SortedByCount(Insert(x, ls))
    ensures ls != [] ==> Insert(x, ls)[0].count >= (if x.count <= ls[0].count then x.count else ls[0].count)
    decreases |ls|
  {
    if ls != [] && x.count > ls[0].count {
      InsertSorts(x, ls[1..]);
      var r := Insert(x, ls[1..]);
      assert r[0].count >= ls[0].count;
      assert forall i | 0 <= i < |r| :: r[0].count <= r[i].count;
    }
  }

  lemma WithCountCons<T>(x: Load<T>, ls: seq<Load<T>>, n: nat)
    ensures WithCount([x] + ls, n) == if x.count == n then [x] + WithCount(ls, n) else WithCount(ls, n)
  {
    assert ([x] + ls)[1..] == ls;
  }

  lemma {:induction false} InsertIsStable<T>(x: Load<T>, ls: seq<Load<T>>, n: nat)
    ensures WithCount(Insert(x, ls), n) == WithCount([x] + ls, n)
    decreases |ls|
  {
    if ls != [] && x.count > ls[0].count {
      InsertIsStable(x, ls[1..], n);
      WithCountCons(ls[0], Insert(x, ls[1..]), n);
      WithCountCons(x, ls[1..], n);
      WithCountCons(x, ls, n);
    }
  }

  /** Sorting permutes, orders by load, and keeps the rotation among equal loads. */
  lemma {:induction false} StableSortSpec<T>(ls: seq<Load<T>>, n: nat)
    ensures multiset(StableSort(ls)) == multiset(ls)
    ensures SortedByCount(StableSort(ls))
    ensures WithCount(StableSort(ls), n) == WithCount(ls, n)
    decreases |ls|
  {
    if ls != [] {
      var tail := StableSort(ls[1..]);
      StableSortSpec(ls[1..], n);
      InsertPermutes(ls[0], tail);
      InsertSorts(ls[0], tail);
      InsertIsStable(ls[0], tail, n);
      WithCountCons(ls[0], tail, n);
      assert ls == [ls[0]] + ls[1..];
    }
  }

  /** Less loaded, or as much and standing before. */
  predicate Before(a: Load<nat>, b: Load<nat>) {
    a.count < b.count || (a.count == b.count && a.item < b.item)
  }

  /** Sorted by load, and among equal loads by place. */
  predicate SortedByPlace(ls: seq<Load<nat>>) {
    forall i, j | 0 <= i < j < |ls| :: Before(ls[i], ls[j])
  }

  predicate BeforeAll(a: Load<nat>, ls: seq<Load<nat>>) {
    forall i | 0 <= i < |ls| :: Before(a, ls[i])
  }

  predicate StandsBefore(place: nat, ls: seq<Load<nat>>) {
    forall i | 0 <= i < |ls| :: place < ls[i].item
  }

  lemma {:induction false} InsertStaysBehind(a: Load<nat>, x: Load<nat>, ls: seq<Load<nat>>, place: nat)
    ensures BeforeAll(a, ls) && Before(a, x) ==> BeforeAll(a, Insert(x, ls))
    ensures StandsBefore(place, ls) && place < x.item ==> StandsBefore(place, Insert(x, ls))
    decreases |ls|
  {
    if ls != [] && x.count > ls[0].count {
      InsertStaysBehind(a, x, ls[1..], place);
    }
  }

  lemma {:induction false} SortStaysBehind(ls: seq<Load<nat>>, place: nat)
    requires StandsBefore(place, ls)
    ensures StandsBefore(place, StableSort(ls))
    decreases |ls|
  {
    if ls != [] {
      SortStaysBehind(ls[1..], place);
      InsertStaysBehind(ls[0], ls[0], StableSort(ls[1..]), place);
    }
  }

  lemma {:induction false} InsertByPlace(x: Load<nat>, ls: seq<Load<nat>>)
    requires SortedByPlace(ls) && StandsBefore(x.item, ls)
    ensures SortedByPlace(Insert(x, ls))
    decreases |ls|
  {
    if ls != [] && x.count > ls[0].count {
      InsertByPlace(x, ls[1..]);
      InsertStaysBehind(ls[0], x, ls[1..], 0);
    }
  }

  lemma {:induction false} SortByPlace(ls: seq<Load<nat>>)
    requires forall i, j | 0 <= i < j < |ls| :: ls[i].item < ls[j].item
    ensures SortedByPlace(StableSort(ls))
    decreases |ls|
  {
    if ls != [] {
      SortByPlace(ls[1..]);
      SortStaysBehind(ls[1..], ls[0].item);
      InsertByPlace(ls[0], StableSort(ls[1..]));
    }
  }

  predicate Within<T>(ls: seq<Load<nat>>, xs: seq<T>) {
    forall i | 0 <= i < |ls| :: ls[i].item < |xs|
  }

  /** Places replaced by what stands there. */
  function Relabel<T>(ls: seq<Load<nat>>, xs: seq<T>): (r: seq<Load<T>>)
    requires Within(ls, xs)
    ensures |r| == |ls|
  {
    seq(|ls|, i requires 0 <= i < |ls| => Load(xs[ls[i].item], ls[i].count))
  }

  lemma {:induction false} InsertRelabels<T>(x: Load<nat>, ls: seq<Load<nat>>, xs: seq<T>)
    requires x.item < |xs| && Within(ls, xs)
    ensures Within(Insert(x, ls), xs)
    ensures Insert(Load(xs[x.item], x.count), Relabel(ls, xs)) == Relabel(Insert(x, ls), xs)
    decreases |ls|
  {
    if ls != [] && x.count > ls[0].count {
      InsertRelabels(x, ls[1..], xs);
      assert Relabel(ls, xs)[1..] == Relabel(ls[1..], xs);
    }
  }

  /** Sorting looks at the loads alone. */
  lemma {:induction false} SortRelabels<T>(ls: seq<Load<nat>>, xs: seq<T>)
    requires Within(ls, xs)
    ensures Within(StableSort(ls), xs)
    ensures StableSort(Relabel(ls, xs)) == Relabel(StableSort(ls), xs)
    decreases |ls|
  {
    if ls != [] {
      SortRelabels(ls[1..], xs);
      InsertRelabels(ls[0], StableSort(ls[1..]), xs);
      assert Relabel(ls, xs)[1..] == Relabel(ls[1..], xs);
    }
  }

  predicate IsMin(counts: seq<nat>, j: nat) {
    j < |counts| && forall i | 0 <= i < |counts| :: counts[j] <= counts[i]
  }

  function Loads(counts: seq<nat>): (ls: seq<Load<nat>>)
    ensures |ls| == |counts| && forall i | 0 <= i < |counts| :: ls[i] == Load(i, counts[i])
  {
    seq(|counts|, (i: nat) requires i < |counts| => Load(i, counts[i]))
  }

  /** The places in order of load. */
  function Turns(counts: seq<nat>): (turns: seq<nat>)
    ensures |turns| == |counts|
  {
    var ls := StableSort(Loads(counts));
    seq(|ls|, i requires 0 <= i < |ls| => ls[i].item)
  }

  lemma SortedLoad(counts: seq<nat>, i: nat)
    requires i < |counts|
    ensures var l := StableSort(Loads(counts))[i]; 0 <= l.item < |counts| && l.count == counts[l.item]
  {
    var ls, loads := StableSort(Loads(counts)), Loads(counts);
    StableSortSpec(loads, 0);
    assert ls[i] in multiset(ls);
    var k :| 0 <= k < |loads| && loads[k] == ls[i];
  }

  /** Every place has one turn; a smaller load comes earlier, and among equal loads a smaller place. */
  lemma TurnsSpec(counts: seq<nat>)
    ensures var turns := Turns(counts);
      && (forall i | 0 <= i < |counts| :: turns[i] < |counts|)
      && (forall i, j | 0 <= i < j < |counts| :: turns[i] != turns[j])
      && (forall i, j | 0 <= i < j < |counts| ::
            counts[turns[i]] < counts[turns[j]] || (counts[turns[i]] == counts[turns[j]] && turns[i] < turns[j]))
  {
    SortByPlace(Loads(counts));
    forall i | 0 <= i < |counts|
      ensures Turns(counts)[i] < |counts| && StableSort(Loads(counts))[i].count == counts[Turns(counts)[i]]
    {
      SortedLoad(counts, i);
    }
  }

  /** The backends with their loads, rotated to the ticket's start. */
  function Rotated(counts: seq<nat>, start: nat): (ls: seq<Load<nat>>)
    requires start < |counts|
    ensures |ls| == |counts|
  {
    Rotate(Loads(counts), start)
  }

  /** The backend that least-conn tries first, given the rotation its ticket asks for. */
  function LeastHead(counts: seq<nat>, start: nat): nat
    requires start < |counts|
  {
    StableSort(Rotated(counts, start))[0].item
  }

  lemma LeastHeadIsMin(counts: seq<nat>, start: nat)
    requires start < |counts|
    ensures IsMin(counts, LeastHead(counts, start))
  {
    var loads := Loads(counts);
    var ls := Rotated(counts, start);
    var sorted := StableSort(ls);
    StableSortSpec(ls, 0);
    assert multiset(sorted) == multiset(loads);
    assert sorted[0] in multiset(sorted) && sorted[0] in loads;
    forall i | 0 <= i < |counts| ensures sorted[0].count <= counts[i] {
      assert loads[i] in multiset(loads) && loads[i] in sorted;
    }
  }

  /** A minimal backend that the rotation puts first stays first. */
  lemma LeastHeadAtStart(counts: seq<nat>, start: nat)
    requires IsMin(counts, start)
    ensures LeastHead(counts, start) == start
  {
    var ls := Rotated(counts, start);
    assert ls[0] == Load(start, counts[start]);
    var tail := StableSort(ls[1..]);
    if tail != [] {
      StableSortSpec(ls[1..], 0);
      assert tail[0] in multiset(tail) && tail[0] in ls[1..];
    }
  }

  /** One of the |counts| calls after the counter read c tries j first. */
  ghost predicate HeadsOnce(counts: seq<nat>, c: nat, j: nat)
    requires counts != []
  {
    exists t: nat :: t < |counts| && LeastHead(counts, HeadOf(c, t, |counts|)) == j
  }

  /** Among n consecutive tickets one has residue j. */
  lemma {:induction false} Reaches(c: nat, n: nat, j: nat) returns (t: nat)
    requires j < n
    ensures t < n && (c + t) % n == j
    ensures t == Wait(j, c % n, n)
    decreases Wait(j, c % n, n)
  {
    if c % n == j {
      t := 0;
    } else {
      ModSucc(c, n);
      ModSmall(0, n);
      var rest := Reaches(c + 1, n, j);
      t := rest + 1;
    }
  }

  lemma MinHeadsOnce(counts: seq<nat>, c: nat, j: nat)
    requires IsMin(counts, j) && c + |counts| <= WRAP
    ensures HeadsOnce(counts, c, j)
  {
    var t := Reaches(c, |counts|, j);
    CounterNoWrap(c, t);
    assert HeadOf(c, t, |counts|) == j;
    LeastHeadAtStart(counts, j);
  }

  lemma HeadsAreMin(counts: seq<nat>, c: nat, j: nat)
    requires counts != [] && HeadsOnce(counts, c, j)
    ensures IsMin(counts, j)
  {
    var t: nat :| t < |counts| && LeastHead(counts, HeadOf(c, t, |counts|)) == j;
    LeastHeadIsMin(counts, HeadOf(c, t, |counts|));
  }

  /** Over n tickets without a wrap, the heads are exactly the backends with the fewest connections. */
  lemma TiesShareTheHead(counts: seq<nat>, c: nat, j: nat)
    requires counts != [] && c + |counts| <= WRAP
    ensures IsMin(counts, j) <==> HeadsOnce(counts, c, j)
  {
    if HeadsOnce(counts, c, j) {
      HeadsAreMin(counts, c, j);
    } else if IsMin(counts, j) {
      MinHeadsOnce(counts, c, j);
    }
  }

  // ---------------------------------------------------------------- arrivals

  /** One arrival, whose first dial succeeds. */
  function Landed(counts: seq<nat>, start: nat): (r: seq<nat>)
    requires start < |counts|
    ensures |r| == |counts|
  {
    LeastHeadIsMin(counts, start);
    var h := LeastHead(counts, start);
    counts[h := counts[h] + 1]
  }

  /** The loads after a run of arrivals, each going to the head for its rotation. */
  function Arrive(counts: seq<nat>, starts: seq<nat>): (r: seq<nat>)
    requires forall t | 0 <= t < |starts| :: starts[t] < |counts|
    ensures |r| == |counts|
    decreases |starts|
  {
    if starts == [] then counts
    else Arrive(Landed(counts, starts[0]), starts[1..])
  }

  predicate GapAtMost(counts: seq<nat>, g: nat) {
    forall i, j | 0 <= i < |counts| && 0 <= j < |counts| :: counts[i] <= counts[j] + g
  }

  /** Arrivals never widen the gap between backends beyond one. */
  lemma {:induction false} ArrivalsKeepGap(counts: seq<nat>, starts: seq<nat>, g: nat)
    requires forall t | 0 <= t < |starts| :: starts[t] < |counts|
    requires GapAtMost(counts, g) && g >= 1
    ensures GapAtMost(Arrive(counts, starts), g)
    decreases |starts|
  {
    if starts != [] {
      LeastHeadIsMin(counts, starts[0]);
      ArrivalsKeepGap(Landed(counts, starts[0]), starts[1..], g);
    }
  }

  predicate AtMost(counts: seq<nat>, max: nat) {
    forall i | 0 <= i < |counts| :: counts[i] <= max
  }

  /** How many connections are missing for every backend to hold max. */
  function Deficit(counts: seq<nat>, max: nat): nat
    requires AtMost(counts, max)
  {
    if counts == [] then 0
    else
      assert counts[0] <= max;
      max - counts[0] + Deficit(counts[1..], max)
  }

  lemma {:induction false} DeficitDrops(counts: seq<nat>, max: nat, h: nat)
    requires AtMost(counts, max) && h < |counts| && counts[h] < max
    ensures AtMost(counts[h := counts[h] + 1], max)
    ensures Deficit(counts[h := counts[h] + 1], max) + 1 == Deficit(counts, max)
    decreases |counts|
  {
    var next := counts[h := counts[h] + 1];
    if h == 0 {
      assert next[1..] == counts[1..];
    } else {
      DeficitDrops(counts[1..], max, h - 1);
      assert next[1..] == counts[1..][h - 1 := counts[h] + 1];
    }
  }

  lemma {:induction false} NoDeficitIsLevel(counts: seq<nat>, max: nat)
    requires AtMost(counts, max)
    ensures Deficit(counts, max) == 0 <==> forall i | 0 <= i < |counts| :: counts[i] == max
    decreases |counts|
  {
    if counts != [] {
      NoDeficitIsLevel(counts[1..], max);
      assert counts == [counts[0]] + counts[1..];
    }
  }

  lemma LandedDrops(counts: seq<nat>, start: nat, max: nat)
    requires start < |counts| && AtMost(counts, max) && Deficit(counts, max) > 0
    ensures AtMost(Landed(counts, start), max)
    ensures Deficit(Landed(counts, start), max) + 1 == Deficit(counts, max)
  {
    LeastHeadIsMin(counts, start);
    NoDeficitIsLevel(counts, max);
    DeficitDrops(counts, max, LeastHead(counts, start));
  }

  /** After as many arrivals as the initial loads fall short of their maximum, no two differ by more than one. */
  lemma {:induction false} ArrivalsLevel(counts: seq<nat>, starts: seq<nat>, max: nat)
    requires forall t | 0 <= t < |starts| :: starts[t] < |counts|
    requires AtMost(counts, max) && |starts| >= Deficit(counts, max)
    ensures GapAtMost(Arrive(counts, starts), 1)
    decreases |starts|
  {
    if Deficit(counts, max) == 0 {
      NoDeficitIsLevel(counts, max);
      ArrivalsKeepGap(counts, starts, 1);
    } else {
      LandedDrops(counts, starts[0], max);
      ArrivalsLevel(Landed(counts, starts[0]), starts[1..], max);
    }
  }
}

/** What SetAddrs of the interleaved machine does to the pool, instance by instance. */
module BalancerPool {
  import opened Balancer
  import opened BalancerConns
  import opened BalancerRefs

  predicate Known(s: State, a: string) {
    exists i :: 0 <= i < |s.pool| && B(s.backends, s.pool[i]).addr == a
  }

  lemma InstanceKnown(s: State, a: string)
    ensures Instance(s, s.pool, a).Some? <==> Known(s, a)
    ensures var r := Instance(s, s.pool, a);
      r.Some? ==> r.value in s.pool && B(s.backends, r.value).addr == a
  {
    InstanceIs(s, s.pool, a);
  }

  /** Position by position: the known instance of the address, or the new one that was given this address. */
  lemma {:induction false} InstanceAt(s: State, addrs: seq<string>, next: BackendId, i: nat)
    requires Below(s.pool, next) && i < |addrs|
    ensures |Instances(s, addrs, next)| == |addrs|
    ensures var b := Instances(s, addrs, next)[i];
      if Known(s, addrs[i]) then b in s.pool && B(s.backends, b).addr == addrs[i]
      else next <= b < next + |addrs| && AddrOfNew(s, addrs, next, b) == addrs[i]
    decreases |addrs|
  {
    InstanceKnown(s, addrs[0]);
    InstancesAre(s, addrs, next);
    if i > 0 {
      InstanceAt(s, addrs[1..], if Instance(s, s.pool, addrs[0]).Some? then next else next + 1, i - 1);
      assert addrs[1..][i - 1] == addrs[i];
    }
  }

  lemma {:induction false} NotKeptHas(s: State, pool: seq<BackendId>, addrs: seq<string>, b: BackendId)
    ensures b in NotKept(s, pool, addrs) <==> b in pool && B(s.backends, b).addr !in addrs
    decreases |pool|
  {
    if pool != [] {
      NotKeptHas(s, pool[1..], addrs, b);
      assert pool == [pool[0]] + pool[1..];
    }
  }

  /**
   The new pool lists the given addresses in order. A known address keeps an instance of the old pool with all
   its state; any other gets a fresh one. The poller will drain exactly the old instances whose address is gone.
   */
  lemma SetAddrsInstalls(s: State, addrs: seq<string>, i: nat, b: BackendId)
    requires Refs(s) && i < |addrs|
    ensures var s' := SetAddrs(s, addrs);
      && |s'.pool| == |addrs|
      && B(s'.backends, s'.pool[i]).addr == addrs[i]
      && (if Known(s, addrs[i]) then s'.pool[i] in s.pool && B(s'.backends, s'.pool[i]) == B(s.backends, s'.pool[i])
          else s'.pool[i] >= s.nextBackend && B(s'.backends, s'.pool[i]) == NEW_BACKEND.(addr := addrs[i]))
      && (b in s'.poller.removed <==> b in s.pool && B(s.backends, b).addr !in addrs)
  {
    var s' := SetAddrs(s, addrs);
    InstanceAt(s, addrs, s.nextBackend, i);
    SetAddrsFrame(s, addrs, s'.pool[i]);
    NotKeptHas(s, s.pool, addrs, b);
  }
}

/**
 The admission check for server lists, the same one at start, on restore and on discovery. Name
 resolution, address parsing and address classes are whatever the network environment says they are.
 */
module Admission {
  import opened Options
  import opened Pools

  datatype Net<!IP> = Net(
    split: string -> Option<(string, string)>,   // net.SplitHostPort
    atoi: string -> Option<int>,                 // strconv.Atoi
    parseIP: string -> Option<IP>,               // net.ParseIP
    lookup: string -> Option<seq<IP>>,           // the resolver
    loopback: IP -> bool,                        // IP.IsLoopback
    same: (IP, IP) -> bool)                      // IP.Equal

  datatype Problem =
    | BadListen | NoServers
    | Duplicate(at: nat) | BadHostPort(at: nat) | Unresolved(at: nat) | Loopback(at: nat) | SelfForward(at: nat)

  function HostOf<IP>(net: Net<IP>, s: string): Option<string> {
    match net.split(s)
    case None => None
    case Some((host, port)) =>
      if host == "" then None
      else
        match net.atoi(port)
        case None => None
        case Some(n) => if n < 1 || n > 65535 then None else Some(host)
  }

  /** The port string, empty when the address does not split. */
  function PortOf<IP>(net: Net<IP>, s: string): string {
    match net.split(s)
    case None => ""
    case Some((_, port)) => port
  }

  function Resolve<IP>(net: Net<IP>, host: string): Option<seq<IP>> {
    match net.parseIP(host)
    case Some(ip) => Some([ip])
    case None => net.lookup(host)
  }

  predicate Forwards<IP>(net: Net<IP>, s: string, listenPort: string, listenIPs: seq<IP>, ip: IP) {
    PortOf(net, s) == listenPort && exists i | 0 <= i < |listenIPs| :: net.same(ip, listenIPs[i])
  }

  /** A server can be dialled without dialling the balancer itself. */
  ghost predicate EntryOk<IP>(net: Net<IP>, s: string, listenPort: string, listenIPs: seq<IP>) {
    && HostOf(net, s).Some?
    && Resolve(net, HostOf(net, s).value).Some?
    && var ips := Resolve(net, HostOf(net, s).value).value;
      forall i | 0 <= i < |ips| :: !net.loopback(ips[i]) && !Forwards(net, s, listenPort, listenIPs, ips[i])
  }

  ghost predicate EntriesOk<IP>(net: Net<IP>, servers: seq<string>, listenPort: string, listenIPs: seq<IP>) {
    Distinct(servers) && forall i | 0 <= i < |servers| :: EntryOk(net, servers[i], listenPort, listenIPs)
  }

  /** What it takes for a list to be admitted. */
  ghost predicate Admits<IP(!new)>(net: Net<IP>, listen: string, servers: seq<string>) {
    && HostOf(net, listen).Some?
    && Resolve(net, HostOf(net, listen).value).Some?
    && servers != []
    && EntriesOk(net, servers, PortOf(net, listen), Resolve(net, HostOf(net, listen).value).value)
  }

  /** The address is a host and a port from 1 to 65535, and stands for these IPs: itself, or what it resolves to. */
  ghost predicate StandsFor<IP>(net: Net<IP>, s: string, port: string, ips: seq<IP>) {
    && net.split(s).Some? && net.split(s).value.1 == port
    && net.atoi(port).Some? && 1 <= net.atoi(port).value <= 65535
    && var host := net.split(s).value.0;
      && host != ""
      && if net.parseIP(host).Some? then ips == [net.parseIP(host).value] else net.lookup(host) == Some(ips)
  }

  /** None of the IPs is a loopback address, or the listen address on the listen port. */
  ghost predicate LeadsAway<IP>(net: Net<IP>, port: string, ips: seq<IP>, listenPort: string, listenIPs: seq<IP>) {
    forall i | 0 <= i < |ips| ::
      && !net.loopback(ips[i])
      && !(port == listenPort && exists j | 0 <= j < |listenIPs| :: net.same(ips[i], listenIPs[j]))
  }

  ghost predicate Dialable<IP(!new)>(net: Net<IP>, s: string, listenPort: string, listenIPs: seq<IP>) {
    exists port, ips :: StandsFor(net, s, port, ips) && LeadsAway(net, port, ips, listenPort, listenIPs)
  }

  lemma HostOfExactly<IP>(net: Net<IP>, s: string, port: string, ips: seq<IP>)
    ensures StandsFor(net, s, port, ips) <==>
      && HostOf(net, s).Some? && PortOf(net, s) == port && Resolve(net, HostOf(net, s).value) == Some(ips)
  {
  }

  lemma EntryOkExactly<IP(!new)>(net: Net<IP>, s: string, listenPort: string, listenIPs: seq<IP>)
    ensures EntryOk(net, s, listenPort, listenIPs) <==> Dialable(net, s, listenPort, listenIPs)
  {
    var port := PortOf(net, s);
    if EntryOk(net, s, listenPort, listenIPs) {
      var ips := Resolve(net, HostOf(net, s).value).value;
      HostOfExactly(net, s, port, ips);
      forall i | 0 <= i < |ips| && port == listenPort
        ensures !exists j | 0 <= j < |listenIPs| :: net.same(ips[i], listenIPs[j])
      {
        assert !Forwards(net, s, listenPort, listenIPs, ips[i]);
      }
      assert LeadsAway(net, port, ips, listenPort, listenIPs);
    }
    if Dialable(net, s, listenPort, listenIPs) {
      var p, ips :| StandsFor(net, s, p, ips) && LeadsAway(net, p, ips, listenPort, listenIPs);
      HostOfExactly(net, s, p, ips);
    }
  }

  /**
   A list is admitted exactly if the listen address stands for some IPs, and the list is not empty, repeats
   nothing, and has only entries that stand for IPs none of which is loopback or the balancer itself.
   */
  lemma AdmitsExactly<IP(!new)>(net: Net<IP>, listen: string, servers: seq<string>)
    ensures Admits(net, listen, servers) <==>
      exists port, ips :: StandsFor(net, listen, port, ips) && servers != [] && Distinct(servers)
        && forall i | 0 <= i < |servers| :: Dialable(net, servers[i], port, ips)
  {
    forall i, port, ips | 0 <= i < |servers|
      ensures EntryOk(net, servers[i], port, ips) <==> Dialable(net, servers[i], port, ips)
    {
      EntryOkExactly(net, servers[i], port, ips);
    }
    if Admits(net, listen, servers) {
      HostOfExactly(net, listen, PortOf(net, listen), Resolve(net, HostOf(net, listen).value).value);
    }
    if exists port, ips :: StandsFor(net, listen, port, ips) {
      var port, ips :| StandsFor(net, listen, port, ips);
      HostOfExactly(net, listen, port, ips);
    }
  }

  ghost predicate EntryFault<IP>(p: Problem, net: Net<IP>, s: string, listenPort: string, listenIPs: seq<IP>) {
    var host := HostOf(net, s);
    if p.BadHostPort? then host.None?
    else if host.None? then false
    else
      var ips := Resolve(net, host.value);
      if p.Unresolved? then ips.None?
      else if ips.None? then false
      else if p.Loopback? then exists i | 0 <= i < |ips.value| :: net.loopback(ips.value[i])
      else exists i | 0 <= i < |ips.value| :: Forwards(net, s, listenPort, listenIPs, ips.value[i])
  }

  /** What a reported problem says about the list: the entries before it pass, and it does not. */
  ghost predicate Explains<IP>(p: Problem, net: Net<IP>, servers: seq<string>, listenPort: string, listenIPs: seq<IP>) {
    match p
    case BadListen => false
    case NoServers => servers == []
    case Duplicate(at) =>
      at < |servers| && EntriesOk(net, servers[..at], listenPort, listenIPs) && servers[at] in servers[..at]
    case _ =>
      && p.at < |servers|
      && EntriesOk(net, servers[..p.at], listenPort, listenIPs)
      && servers[p.at] !in servers[..p.at]
      && EntryFault(p, net, servers[p.at], listenPort, listenIPs)
  }

  /** One entry: the loop over its addresses. */
  method CheckEntry<IP>(net: Net<IP>, s: string, at: nat, listenPort: string, listenIPs: seq<IP>)
    returns (r: Option<Problem>)
    ensures r.None? <==> EntryOk(net, s, listenPort, listenIPs)
    ensures r.Some? ==> r.value in {BadHostPort(at), Unresolved(at), Loopback(at), SelfForward(at)}
    ensures r.Some? ==> EntryFault(r.value, net, s, listenPort, listenIPs)
  {
    var host := HostOf(net, s);
    if host.None? {
      return Some(BadHostPort(at));
    }
    var ips := Resolve(net, host.value);
    if ips.None? {
      return Some(Unresolved(at));
    }
    var port := PortOf(net, s);
    for i := 0 to |ips.value|
      invariant forall k | 0 <= k < i ::
        !net.loopback(ips.value[k]) && !Forwards(net, s, listenPort, listenIPs, ips.value[k])
    {
      if net.loopback(ips.value[i]) {
        return Some(Loopback(at));
      }
      if port == listenPort {
        for j := 0 to |listenIPs|
          invariant forall k | 0 <= k < j :: !net.same(ips.value[i], listenIPs[k])
        {
          if net.same(ips.value[i], listenIPs[j]) {
            assert Forwards(net, s, listenPort, listenIPs, ips.value[i]);
            return Some(SelfForward(at));
          }
        }
      }
    }
    return None;
  }

  method CheckServers<IP>(net: Net<IP>, servers: seq<string>, listen: string, listenIPs: seq<IP>)
    returns (r: Option<Problem>)
    ensures r.None? <==> servers != [] && EntriesOk(net, servers, PortOf(net, listen), listenIPs)
    ensures r.Some? ==> Explains(r.value, net, servers, PortOf(net, listen), listenIPs)
  {
    if |servers| == 0 {
      return Some(NoServers);
    }
    var listenPort := PortOf(net, listen);
    var seen: set<string> := {};
    for i := 0 to |servers|
      invariant seen == set s | s in servers[..i]
      invariant EntriesOk(net, servers[..i], listenPort, listenIPs)
    {
      if servers[i] in seen {
        return Some(Duplicate(i));
      }
      seen := seen + {servers[i]};
      var problem := CheckEntry(net, servers[i], i, listenPort, listenIPs);
      if problem.Some? {
        return problem;
      }
      assert servers[..i + 1] == servers[..i] + [servers[i]];
    }
    assert servers[..|servers|] == servers;
    return None;
  }

  /** ValidateServers: no problem is reported exactly for the lists that are admitted. */
  method ValidateServers<IP(!new)>(net: Net<IP>, servers: seq<string>, listen: string) returns (r: Option<Problem>)
    ensures r.None? <==> Admits(net, listen, servers)
    ensures r == Some(BadListen) <==> HostOf(net, listen).None? || Resolve(net, HostOf(net, listen).value).None?
    ensures r.Some? && r != Some(BadListen) ==>
      Explains(r.value, net, servers, PortOf(net, listen), Resolve(net, HostOf(net, listen).value).value)
  {
    var host := HostOf(net, listen);
    if host.None? {
      return Some(BadListen);
    }
    var listenIPs := Resolve(net, host.value);
    if listenIPs.None? {
      return Some(BadListen);
    }
    r := CheckServers(net, servers, listen, listenIPs.value);
  }
}

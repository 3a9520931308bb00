/** Desired state of the load-balancer-based aggregate: internal/desired/loadbalancer.go. */
module LoadBalancerBased {
  import opened Kube
  import opened Ordering
  import opened Dnsmasq

  /** A service with its load-balancer address and those its status reports. */
  datatype Service = Service(ns: string, name: string, kind: string, ip: string, reported: seq<string>)

  const LOAD_BALANCER := "LoadBalancer"

  function ServiceKey(s: Service): string { s.ns + "/" + s.name }

  /** The first reported address, if it is set, overrides the requested one. */
  function EffectiveIp(s: Service): string {
    if s.reported != [] && s.reported[0] != "" then s.reported[0] else s.ip
  }

  predicate Eligible(s: Service) {
    s.kind == LOAD_BALANCER && EffectiveIp(s) != ""
  }

  function NamesOf(suffix: string, ip: string, s: Service): seq<string> {
    if Eligible(s) && EffectiveIp(s) == ip then [s.name + suffix] else []
  }

  function NamesAt(suffix: string, services: seq<Service>, ip: string): seq<string> {
    Collect(services, s => NamesOf(suffix, ip, s))
  }

  function Entries(suffix: string, services: seq<Service>, ips: seq<string>): (r: seq<DnsHostEntry>)
    ensures |r| == |ips|
  {
    seq(|ips|, i requires 0 <= i < |ips| => DnsHostEntry(ips[i], NamesAt(suffix, services, ips[i])))
  }

  /** The addresses in use, in increasing order. */
  ghost predicate InUse(suffix: string, services: seq<Service>, ips: seq<string>) {
    StrictlySorted(ips) && forall ip :: ip in ips <==> NamesAt(suffix, services, ip) != []
  }

  ghost predicate Builds(lib: Lib, suffix: string, services: seq<Service>, spec: DnsHostsSpec) {
    exists ips :: InUse(suffix, services, ips) && spec == DnsHostsSpec("", NormalHosts(lib, Entries(suffix, services, ips)))
  }

  ghost predicate Grouped(suffix: string, services: seq<Service>, byIp: map<string, DnsHostEntry>) {
    forall ip :: NamesAt(suffix, services, ip) == (if ip in byIp then byIp[ip].hostnames else [])
                 && (ip in byIp ==> byIp[ip].ip == ip && byIp[ip].hostnames != [])
  }

  lemma OneMore(suffix: string, services: seq<Service>, j: nat)
    requires j < |services|
    ensures forall ip :: NamesAt(suffix, services[..j + 1], ip) ==
                           NamesAt(suffix, services[..j], ip) + NamesOf(suffix, ip, services[j])
  {
    forall ip ensures NamesAt(suffix, services[..j + 1], ip) ==
                        NamesAt(suffix, services[..j], ip) + NamesOf(suffix, ip, services[j])
    {
      CollectStep(services, j, s => NamesOf(suffix, ip, s));
    }
  }

  method Append(svc: Service, ip: string, suffix: string, byIp: map<string, DnsHostEntry>, ghost before: seq<Service>)
    returns (r: map<string, DnsHostEntry>)
    requires Grouped(suffix, before, byIp) && Eligible(svc) && ip == EffectiveIp(svc)
    ensures Grouped(suffix, before + [svc], r)
  {
    assert (before + [svc])[..|before|] == before;
    assert (before + [svc])[..|before| + 1] == before + [svc];
    OneMore(suffix, before + [svc], |before|);
    var entry := if ip in byIp then byIp[ip] else DnsHostEntry(ip, []);
    r := byIp[ip := entry.(hostnames := entry.hostnames + [svc.name + suffix])];
  }

  lemma NotEligible(suffix: string, services: seq<Service>, j: nat, byIp: map<string, DnsHostEntry>)
    requires j < |services| && !Eligible(services[j]) && Grouped(suffix, services[..j], byIp)
    ensures Grouped(suffix, services[..j + 1], byIp)
  {
    OneMore(suffix, services, j);
  }

  method GroupByIp(services: array<Service>, suffix: string) returns (byIp: map<string, DnsHostEntry>)
    ensures Grouped(suffix, services[..], byIp)
  {
    byIp := map[];
    ghost var ss := services[..];
    for j := 0 to services.Length
      invariant Grouped(suffix, ss[..j], byIp)
    {
      var svc := services[j];
      if !Eligible(svc) {
        NotEligible(suffix, ss, j, byIp);
      }
      assert ss[..j + 1] == ss[..j] + [svc];
      if svc.kind != LOAD_BALANCER {
        continue;
      }
      var ip := svc.ip;
      if |svc.reported| > 0 && svc.reported[0] != "" {
        ip := svc.reported[0];
      }
      if ip == "" {
        continue;
      }
      byIp := Append(svc, ip, suffix, byIp, ss[..j]);
    }
    assert ss[..|ss|] == ss;
  }

  lemma GroupOf(suffix: string, services: seq<Service>, byIp: map<string, DnsHostEntry>, ip: string)
    requires Grouped(suffix, services, byIp)
    ensures ip in byIp <==> NamesAt(suffix, services, ip) != []
    ensures ip in byIp ==> byIp[ip] == DnsHostEntry(ip, NamesAt(suffix, services, ip))
  {
  }

  /** The entries in increasing order of address, as text. */
  method InAddressOrder(byIp: map<string, DnsHostEntry>, suffix: string, ghost services: seq<Service>)
    returns (entries: seq<DnsHostEntry>, ghost ips: seq<string>)
    requires Grouped(suffix, services, byIp)
    ensures InUse(suffix, services, ips) && entries == Entries(suffix, services, ips)
  {
    var keys := MapOrder(byIp);
    var sorted := SortStrings(keys);
    SortedDistinct(keys, sorted);
    SameMembers(keys, sorted);
    entries := ValuesAt(byIp, sorted);
    ips := sorted;
    forall ip ensures ip in ips <==> NamesAt(suffix, services, ip) != []
      ensures ip in byIp ==> byIp[ip] == DnsHostEntry(ip, NamesAt(suffix, services, ip))
    {
      GroupOf(suffix, services, byIp, ip);
    }
  }

  /** Sorts the services in place, then computes the one load-balancer-based object. */
  method BuildLoadBalancerBased(lib: Lib, services: array<Service>, suffix: string) returns (spec: DnsHostsSpec)
    requires lib.Valid()
    modifies services
    ensures multiset(services[..]) == multiset(old(services[..]))
    ensures SortedBy((s: Service) => s.ns + "/" + s.name, services[..])
    ensures Builds(lib, suffix, services[..], spec)
  {
    SortByKey(services, ServiceKey);
    var byIp := GroupByIp(services, suffix);
    var entries;
    ghost var ips;
    entries, ips := InAddressOrder(byIp, suffix, services[..]);
    var normal := new DnsHostEntry[|entries|](i requires 0 <= i < |entries| => entries[i]);
    assert normal[..] == entries;
    NormalizeDnsHosts(lib, normal);
    spec := DnsHostsSpec("", normal[..]);
  }

  /** Service `s` is a load balancer with address `ip`: the first one reported, else the one asked for. */
  predicate IsAt(s: Service, ip: string) {
    && s.kind == "LoadBalancer" && ip != ""
    && ip == if |s.reported| > 0 && s.reported[0] != "" then s.reported[0] else s.ip
  }

  /** Service `s` is to be found at `ip` under hostname `h`. */
  predicate FoundAt(suffix: string, s: Service, ip: string, h: string) {
    IsAt(s, ip) && h == s.name + suffix
  }

  /** No two entries have the same address. */
  ghost predicate DistinctIps(hosts: seq<DnsHostEntry>) {
    DistinctBy((e: DnsHostEntry) => e.ip, hosts)
  }

  lemma NamesAtMembers(suffix: string, listed: seq<Service>, services: seq<Service>, ip: string)
    requires multiset(services) == multiset(listed)
    ensures forall h :: h in NamesAt(suffix, services, ip) <==> exists s :: s in listed && FoundAt(suffix, s, ip, h)
    ensures NamesAt(suffix, services, ip) != [] <==> Used(listed, ip)
  {
    SameMembers(services, listed);
    CollectMembers(services, s => NamesOf(suffix, ip, s));
    var names := NamesAt(suffix, services, ip);
    if names != [] {
      assert names[0] in names;
    }
    if s :| s in listed && IsAt(s, ip) {
      assert FoundAt(suffix, s, ip, s.name + suffix);
      assert s.name + suffix in names;
    }
  }

  ghost predicate HasEntry(hosts: seq<DnsHostEntry>, ip: string) {
    exists e :: e in hosts && e.ip == ip
  }

  ghost predicate Used(listed: seq<Service>, ip: string) {
    exists s :: s in listed && IsAt(s, ip)
  }

  /** The hostnames of an entry are strictly sorted, and exactly those of the services at its address. */
  ghost predicate NamesExact(suffix: string, listed: seq<Service>, e: DnsHostEntry) {
    StrictlySorted(e.hostnames)
    && forall h :: h in e.hostnames <==> exists s :: s in listed && FoundAt(suffix, s, e.ip, h)
  }

  lemma NormalExact(lib: Lib, suffix: string, listed: seq<Service>, services: seq<Service>, ips: seq<string>)
    requires multiset(services) == multiset(listed) && InUse(suffix, services, ips)
    ensures var normal := NormalEntries(Entries(suffix, services, ips));
            && DistinctIps(normal)
            && (forall ip {:trigger Used(listed, ip)} :: HasEntry(normal, ip) <==> Used(listed, ip))
            && forall e :: e in normal ==> NamesExact(suffix, listed, e)
  {
    var raw := Entries(suffix, services, ips);
    var normal := NormalEntries(raw);
    StrictlySortedIsSorted(ips);
    forall ip ensures HasEntry(normal, ip) <==> Used(listed, ip) {
      NamesAtMembers(suffix, listed, services, ip);
      if ip in ips {
        var i :| 0 <= i < |ips| && ips[i] == ip;
        assert normal[i] in normal;
      }
    }
    forall e | e in normal ensures NamesExact(suffix, listed, e) {
      var i :| 0 <= i < |normal| && normal[i] == e;
      SortedSetSorted(raw[i].hostnames);
      NamesAtMembers(suffix, listed, services, e.ip);
    }
  }

  /** A canonical group-by, whatever the services are called: entries have distinct addresses, exactly those
      in use, and exactly the hostnames of the eligible services at their address. So each eligible service
      is in exactly one entry, and nothing is invented. */
  lemma LoadBalancerExact(lib: Lib, suffix: string, listed: seq<Service>, services: seq<Service>, spec: DnsHostsSpec)
    requires lib.Valid() && multiset(services) == multiset(listed) && Builds(lib, suffix, services, spec)
    ensures DistinctIps(spec.hosts)
    ensures forall ip {:trigger Used(listed, ip)} :: HasEntry(spec.hosts, ip) <==> Used(listed, ip)
    ensures forall e :: e in spec.hosts ==> NamesExact(suffix, listed, e)
  {
    var ips :| InUse(suffix, services, ips) && spec == DnsHostsSpec("", NormalHosts(lib, Entries(suffix, services, ips)));
    var normal := NormalEntries(Entries(suffix, services, ips));
    NormalExact(lib, suffix, listed, services, ips);
    NormalHostsMeaning(lib, Entries(suffix, services, ips));
    SameMembers(spec.hosts, normal);
    DistinctPermutes((e: DnsHostEntry) => e.ip, normal, spec.hosts);
    forall ip ensures HasEntry(spec.hosts, ip) <==> HasEntry(normal, ip) {
    }
  }

  /** Each eligible service has its hostname in exactly one entry of its address. */
  lemma EachServiceOnce(lib: Lib, suffix: string, listed: seq<Service>, services: seq<Service>, spec: DnsHostsSpec, s: Service,
                        ip: string)
    returns (i: nat)
    requires lib.Valid() && multiset(services) == multiset(listed) && Builds(lib, suffix, services, spec)
    requires s in listed && IsAt(s, ip)
    ensures i < |spec.hosts| && spec.hosts[i].ip == ip && s.name + suffix in spec.hosts[i].hostnames
    ensures forall j :: 0 <= j < |spec.hosts| && spec.hosts[j].ip == ip ==> j == i
  {
    LoadBalancerExact(lib, suffix, listed, services, spec);
    assert Used(listed, ip);
    i :| 0 <= i < |spec.hosts| && spec.hosts[i].ip == ip;
    assert FoundAt(suffix, s, spec.hosts[i].ip, s.name + suffix);
    assert spec.hosts[i] in spec.hosts && NamesExact(suffix, listed, spec.hosts[i]);
    var ipOf := (e: DnsHostEntry) => e.ip;
    assert DistinctBy(ipOf, spec.hosts);
  }

  /** The very same spec for every order in which the services are listed. */
  lemma ListOrderIrrelevant(lib: Lib, suffix: string, s0: seq<Service>, spec0: DnsHostsSpec, s1: seq<Service>, spec1: DnsHostsSpec)
    requires multiset(s0) == multiset(s1)
    requires Builds(lib, suffix, s0, spec0) && Builds(lib, suffix, s1, spec1)
    ensures spec0 == spec1
  {
    var ips0 :| InUse(suffix, s0, ips0) && spec0 == DnsHostsSpec("", NormalHosts(lib, Entries(suffix, s0, ips0)));
    var ips1 :| InUse(suffix, s1, ips1) && spec1 == DnsHostsSpec("", NormalHosts(lib, Entries(suffix, s1, ips1)));
    forall ip ensures ip in ips0 <==> ip in ips1
      ensures SortedSet(NamesAt(suffix, s0, ip)) == SortedSet(NamesAt(suffix, s1, ip))
    {
      NamesAtMembers(suffix, s0, s0, ip);
      NamesAtMembers(suffix, s0, s1, ip);
      SortedSetSorted(NamesAt(suffix, s0, ip));
      SortedSetSorted(NamesAt(suffix, s1, ip));
      StrictlySortedUnique(SortedSet(NamesAt(suffix, s0, ip)), SortedSet(NamesAt(suffix, s1, ip)));
    }
    StrictlySortedUnique(ips0, ips1);
    assert NormalEntries(Entries(suffix, s0, ips0)) == NormalEntries(Entries(suffix, s1, ips1));
  }
}

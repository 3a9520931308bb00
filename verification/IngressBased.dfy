/** Desired state of the ingress-based aggregate: internal/desired/ingress.go. */
module IngressBased {
  import opened Kube
  import opened Ordering
  import opened Dnsmasq

  /** What matters of a router here: its name, the class it claims, and its address. */
  datatype Router = Router(name: string, ingressClass: string, ip: string)

  /** A router as listed. */
  datatype ListedRouter = ListedRouter(router: Router, generation: int, status: Status)

  datatype Ingress =
    Ingress(ns: string, name: string, className: Option<string>, annotations: map<string, string>, ruleHosts: seq<string>)

  datatype Route = Route(gateway: string, hostnames: seq<string>)

  function RouterName(r: Router): string { r.name }

  function ListedName(r: ListedRouter): string { r.router.name }

  function Routers(rs: seq<ListedRouter>): (r: seq<Router>)
    ensures |r| == |rs| && forall i :: 0 <= i < |rs| ==> r[i] == rs[i].router
  {
    seq(|rs|, i requires 0 <= i < |rs| => rs[i].router)
  }

  function IngressKey(i: Ingress): string { i.ns + "/" + i.name }

  function RouteKey(r: Route): string { r.gateway }

  /** The class field if there is one, else the annotation, else none. */
  function IngressClass(i: Ingress): string {
    if i.className.Some? then i.className.value
    else if "kubernetes.io/ingress.class" in i.annotations then i.annotations["kubernetes.io/ingress.class"]
    else ""
  }

  /** What an ingress or a route asks for: hostnames at the router of a class. */
  datatype Claim = Claim(class': string, hosts: seq<string>)

  function RuleHosts(i: Ingress): seq<string> {
    Collect(i.ruleHosts, h => if h != "" then [h] else [])
  }

  function Claims(ings: seq<Ingress>, routes: seq<Route>): seq<Claim> {
    Collect(ings, i => [Claim(IngressClass(i), RuleHosts(i))]) + Collect(routes, (t: Route) => [Claim(t.gateway, t.hostnames)])
  }

  /** The router of a class: the last one claiming it; none for the empty class. */
  function RouterFor(rs: seq<Router>, class': string): Option<Router> {
    if rs == [] then None
    else if rs[|rs| - 1].ingressClass == class' && class' != "" then Some(rs[|rs| - 1])
    else RouterFor(rs[..|rs| - 1], class')
  }

  predicate Resolves(rs: seq<Router>, r: string, class': string) {
    RouterFor(rs, class').Some? && RouterFor(rs, class').value.name == r
  }

  /** What the claims, taken in order, make of the entry of the router named `r`. */
  function EntryFor(rs: seq<Router>, claims: seq<Claim>, r: string): Option<DnsHostEntry> {
    if claims == [] then None
    else
      var before, c := EntryFor(rs, claims[..|claims| - 1], r), claims[|claims| - 1];
      if !Resolves(rs, r, c.class') then before
      else
        var e := if before.Some? then before.value else DnsHostEntry(RouterFor(rs, c.class').value.ip, []);
        Some(e.(hostnames := e.hostnames + c.hosts))
  }

  function Entries(rs: seq<Router>, claims: seq<Claim>, names: seq<string>): seq<DnsHostEntry> {
    Collect(names, r => OneEntry(rs, claims, r))
  }

  function OneEntry(rs: seq<Router>, claims: seq<Claim>, r: string): seq<DnsHostEntry> {
    var e := EntryFor(rs, claims, r);
    if e.Some? then [e.value] else []
  }

  /** The names, in increasing order, of the routers that have an entry. */
  ghost predicate Claimed(rs: seq<Router>, claims: seq<Claim>, names: seq<string>) {
    StrictlySorted(names) && forall r :: r in names <==> EntryFor(rs, claims, r).Some?
  }

  /** What is computed from sorted routers `rs` and the claims of sorted ingresses and routes. */
  ghost predicate Builds(lib: Lib, rs: seq<Router>, claims: seq<Claim>, spec: DnsHostsSpec) {
    exists names :: Claimed(rs, claims, names) && spec == DnsHostsSpec("", NormalHosts(lib, Entries(rs, claims, names)))
  }

  ghost predicate Indexes(rs: seq<Router>, byClass: map<string, Router>) {
    forall c :: Find(byClass, c) == RouterFor(rs, c)
  }

  ghost predicate Gathered(rs: seq<Router>, claims: seq<Claim>, hosts: map<string, DnsHostEntry>) {
    forall r :: Find(hosts, r) == EntryFor(rs, claims, r)
  }

  method IndexClasses(routers: array<ListedRouter>) returns (byClass: map<string, Router>)
    ensures Indexes(Routers(routers[..]), byClass)
  {
    byClass := map[];
    ghost var rs := Routers(routers[..]);
    for j := 0 to routers.Length
      invariant Indexes(rs[..j], byClass)
    {
      assert rs[..j + 1][..j] == rs[..j];
      var router := routers[j].router;
      assert router == rs[j];
      if router.ingressClass != "" {
        byClass := byClass[router.ingressClass := router];
      }
    }
    assert rs[..|rs|] == rs;
  }

  /** Appends hostnames to the entry of the router of a class, which the first claim creates. */
  method Append(hosts: map<string, DnsHostEntry>, byClass: map<string, Router>, class': string, more: seq<string>,
                ghost rs: seq<Router>, ghost claims: seq<Claim>)
    returns (r: map<string, DnsHostEntry>)
    requires Indexes(rs, byClass) && Gathered(rs, claims, hosts)
    ensures Gathered(rs, claims + [Claim(class', more)], r)
  {
    assert (claims + [Claim(class', more)])[..|claims|] == claims;
    assert Find(byClass, class') == RouterFor(rs, class');
    if class' !in byClass {
      return hosts;
    }
    var router := byClass[class'];
    var entry := if router.name in hosts then hosts[router.name] else DnsHostEntry(router.ip, []);
    r := hosts[router.name := entry.(hostnames := entry.hostnames + more)];
  }

  method NonEmpty(hosts: seq<string>) returns (r: seq<string>)
    ensures r == Collect(hosts, h => if h != "" then [h] else [])
  {
    r := [];
    for j := 0 to |hosts|
      invariant r == Collect(hosts[..j], h => if h != "" then [h] else [])
    {
      CollectStep(hosts, j, h => if h != "" then [h] else []);
      if hosts[j] != "" {
        r := r + [hosts[j]];
      }
    }
    assert hosts[..|hosts|] == hosts;
  }

  method GatherIngresses(ingresses: array<Ingress>, byClass: map<string, Router>, ghost rs: seq<Router>)
    returns (hosts: map<string, DnsHostEntry>)
    requires Indexes(rs, byClass)
    ensures Gathered(rs, Claims(ingresses[..], []), hosts)
  {
    hosts := map[];
    ghost var ings := ingresses[..];
    for j := 0 to ingresses.Length
      invariant Gathered(rs, Claims(ings[..j], []), hosts)
    {
      var ing := ingresses[j];
      var more := NonEmpty(ing.ruleHosts);
      CollectStep(ings, j, i => [Claim(IngressClass(i), RuleHosts(i))]);
      assert Claims(ings[..j + 1], []) == Claims(ings[..j], []) + [Claim(IngressClass(ing), more)];
      hosts := Append(hosts, byClass, IngressClass(ing), more, rs, Claims(ings[..j], []));
    }
    assert ings[..|ings|] == ings;
  }

  method GatherRoutes(routes: array<Route>, byClass: map<string, Router>, before: map<string, DnsHostEntry>,
                      ghost rs: seq<Router>, ghost ings: seq<Ingress>)
    returns (hosts: map<string, DnsHostEntry>)
    requires Indexes(rs, byClass) && Gathered(rs, Claims(ings, []), before)
    ensures Gathered(rs, Claims(ings, routes[..]), hosts)
  {
    hosts := before;
    ghost var ts := routes[..];
    for j := 0 to routes.Length
      invariant Gathered(rs, Claims(ings, ts[..j]), hosts)
    {
      CollectStep(ts, j, (t: Route) => [Claim(t.gateway, t.hostnames)]);
      assert Claims(ings, ts[..j + 1]) == Claims(ings, ts[..j]) + [Claim(ts[j].gateway, ts[j].hostnames)];
      hosts := Append(hosts, byClass, routes[j].gateway, routes[j].hostnames, rs, Claims(ings, ts[..j]));
    }
    assert ts[..|ts|] == ts;
  }

  /** The entries in increasing order of router name. */
  method InNameOrder(hosts: map<string, DnsHostEntry>, ghost rs: seq<Router>, ghost claims: seq<Claim>)
    returns (entries: seq<DnsHostEntry>, ghost names: seq<string>)
    requires Gathered(rs, claims, hosts)
    ensures Claimed(rs, claims, names) && entries == Entries(rs, claims, names)
  {
    var keys := MapOrder(hosts);
    var sorted := SortStrings(keys);
    SortedDistinct(keys, sorted);
    SameMembers(keys, sorted);
    forall r ensures r in sorted <==> EntryFor(rs, claims, r).Some? {
      assert Find(hosts, r) == EntryFor(rs, claims, r);
    }
    names, entries := sorted, [];
    ghost var f := r => OneEntry(rs, claims, r);
    for j := 0 to |sorted|
      invariant entries == Collect(sorted[..j], f)
    {
      CollectStep(sorted, j, f);
      assert Find(hosts, sorted[j]) == EntryFor(rs, claims, sorted[j]);
      entries := entries + [hosts[sorted[j]]];
    }
    assert sorted[..|sorted|] == sorted;
  }

  /** Sorts its inputs in place, then computes the one ingress-based object. */
  method BuildIngressBased(lib: Lib, routers: array<ListedRouter>, ingresses: array<Ingress>, routes: array<Route>)
    returns (spec: DnsHostsSpec)
    requires lib.Valid()
    modifies routers, ingresses, routes
    ensures multiset(routers[..]) == multiset(old(routers[..])) && SortedBy(ListedName, routers[..])
    ensures multiset(ingresses[..]) == multiset(old(ingresses[..])) && SortedBy(IngressKey, ingresses[..])
    ensures multiset(routes[..]) == multiset(old(routes[..])) && SortedBy(RouteKey, routes[..])
    ensures Builds(lib, Routers(routers[..]), Claims(ingresses[..], routes[..]), spec)
  {
    SortByKey(routers, ListedName);
    ghost var rs := Routers(routers[..]);
    var byClass := IndexClasses(routers);
    SortByKey(ingresses, IngressKey);
    ghost var ings := ingresses[..];
    var hosts := GatherIngresses(ingresses, byClass, rs);
    SortByKey(routes, RouteKey);
    ghost var ts := routes[..];
    hosts := GatherRoutes(routes, byClass, hosts, rs, ings);
    spec := Publish(lib, hosts, rs, Claims(ings, ts));
    assert Routers(routers[..]) == rs && ingresses[..] == ings && routes[..] == ts;
  }

  method Publish(lib: Lib, hosts: map<string, DnsHostEntry>, ghost rs: seq<Router>, ghost claims: seq<Claim>)
    returns (spec: DnsHostsSpec)
    requires lib.Valid() && Gathered(rs, claims, hosts)
    ensures Builds(lib, rs, claims, spec)
  {
    var entries;
    ghost var names;
    entries, names := InNameOrder(hosts, rs, claims);
    var normal := new DnsHostEntry[|entries|](i requires 0 <= i < |entries| => entries[i]);
    assert normal[..] == entries;
    NormalizeDnsHosts(lib, normal);
    spec := DnsHostsSpec("", normal[..]);
  }
}

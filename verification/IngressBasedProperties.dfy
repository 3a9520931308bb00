/** What the ingress-based output means, in terms of unordered routers, ingresses and routes. */
module IngressBasedProperties {
  import opened Kube
  import opened Ordering
  import opened Dnsmasq
  import opened IngressBased

  /** The inputs as listed. Routers are listed in all namespaces, so two of them may have one name. */
  datatype Listing = Listing(routers: seq<Router>, ingresses: seq<Ingress>, routes: seq<Route>)

  /** The arrangement of a listing that the builder works on. */
  ghost predicate Arranged(l: Listing, rs: seq<Router>, ings: seq<Ingress>, routes: seq<Route>) {
    && multiset(rs) == multiset(l.routers) && SortedBy(RouterName, rs)
    && multiset(ings) == multiset(l.ingresses) && SortedBy(IngressKey, ings)
    && multiset(routes) == multiset(l.routes) && SortedBy(RouteKey, routes)
  }

  /** `r` is the greatest-named router claiming a non-empty class, or one of several of that name. */
  ghost predicate Winner(routers: seq<Router>, class': string, r: Router) {
    && r in routers && r.ingressClass == class' && class' != ""
    && forall x :: x in routers && x.ingressClass == class' ==> CompareStrings(x.name, r.name) <= 0
  }

  lemma LastNameGreatest(rs: seq<Router>)
    requires SortedBy(RouterName, rs) && rs != []
    ensures forall x :: x in rs ==> CompareStrings(x.name, rs[|rs| - 1].name) <= 0
  {
    forall i | 0 <= i < |rs| ensures CompareStrings(rs[i].name, rs[|rs| - 1].name) <= 0 {
      CompareStringsZero(rs[i].name, rs[i].name);
      assert i < |rs| - 1 ==> CompareStrings(RouterName(rs[i]), RouterName(rs[|rs| - 1])) <= 0;
    }
  }

  lemma {:induction false} RouterForFinds(rs: seq<Router>, class': string)
    requires SortedBy(RouterName, rs)
    ensures match RouterFor(rs, class')
            case Some(r) => Winner(rs, class', r)
            case None => class' == "" || forall x :: x in rs ==> x.ingressClass != class'
  {
    if rs != [] {
      var front, last := rs[..|rs| - 1], rs[|rs| - 1];
      assert rs == front + [last];
      RouterForFinds(front, class');
      LastNameGreatest(rs);
    }
  }

  lemma WinnersTie(routers: seq<Router>, class': string, a: Router, b: Router)
    requires Winner(routers, class', a) && Winner(routers, class', b)
    ensures a.name == b.name
  {
    CompareStringsFlips(a.name, b.name);
    CompareStringsZero(a.name, b.name);
  }

  /** Each class resolves to a winner, to none exactly if nobody claims it; and it resolves to the same router in
      every arrangement exactly if there is only one. */
  lemma ClassResolvesToWinner(routers: seq<Router>, rs: seq<Router>, class': string)
    requires multiset(rs) == multiset(routers) && SortedBy(RouterName, rs)
    ensures RouterFor(rs, class').Some? ==> Winner(routers, class', RouterFor(rs, class').value)
    ensures RouterFor(rs, class').Some? <==> exists r :: Winner(routers, class', r)
    ensures (forall r :: RouterFor(rs, class') == Some(r) <==> Winner(routers, class', r)) <==>
            (forall x, y :: Winner(routers, class', x) && Winner(routers, class', y) ==> x == y)
  {
    SameMembers(rs, routers);
    RouterForFinds(rs, class');
  }

  /** A claim of the listing: an ingress's, with its non-empty rule hosts, or a route's. */
  ghost predicate IsClaim(l: Listing, c: Claim) {
    (exists i :: i in l.ingresses && c == Claim(IngressClass(i), RuleHosts(i)))
    || (exists t :: t in l.routes && c == Claim(t.gateway, t.hostnames))
  }

  lemma ClaimsMembers(l: Listing, ings: seq<Ingress>, routes: seq<Route>)
    requires multiset(ings) == multiset(l.ingresses) && multiset(routes) == multiset(l.routes)
    ensures forall c :: c in Claims(ings, routes) <==> IsClaim(l, c)
  {
    SameMembers(ings, l.ingresses);
    SameMembers(routes, l.routes);
    CollectMembers(ings, i => [Claim(IngressClass(i), RuleHosts(i))]);
    CollectMembers(routes, (t: Route) => [Claim(t.gateway, t.hostnames)]);
  }

  /** The hostnames claimed for the router named `r`, in order. */
  function HostsOf(rs: seq<Router>, claims: seq<Claim>, r: string): seq<string> {
    Collect(claims, c => ClaimedHosts(rs, r, c))
  }

  function ClaimedHosts(rs: seq<Router>, r: string, c: Claim): seq<string> {
    if Resolves(rs, r, c.class') then c.hosts else []
  }

  lemma {:induction false} RouterForMember(rs: seq<Router>, class': string)
    requires RouterFor(rs, class').Some?
    ensures RouterFor(rs, class').value in rs
  {
    var front, last := rs[..|rs| - 1], rs[|rs| - 1];
    assert rs == front + [last];
    if RouterFor(rs, class') != Some(last) {
      RouterForMember(front, class');
    }
  }

  /** The first claim for the router named `r`, which makes its entry. */
  function FirstClaim(rs: seq<Router>, claims: seq<Claim>, r: string): Option<Claim> {
    if claims == [] then None
    else
      var front, last := claims[..|claims| - 1], claims[|claims| - 1];
      if FirstClaim(rs, front, r).Some? then FirstClaim(rs, front, r)
      else if Resolves(rs, r, last.class') then Some(last)
      else None
  }

  /** An entry has the address of the router that the first claim resolves to, and all hostnames claimed. */
  lemma {:induction false} EntryForMeaning(rs: seq<Router>, claims: seq<Claim>, r: string)
    ensures match FirstClaim(rs, claims, r)
            case Some(c) =>
              && c in claims && Resolves(rs, r, c.class')
              && EntryFor(rs, claims, r) == Some(DnsHostEntry(RouterFor(rs, c.class').value.ip, HostsOf(rs, claims, r)))
            case None =>
              && (forall c :: c in claims ==> !Resolves(rs, r, c.class'))
              && EntryFor(rs, claims, r) == None && HostsOf(rs, claims, r) == []
  {
    if claims != [] {
      var front, last := claims[..|claims| - 1], claims[|claims| - 1];
      assert claims == front + [last];
      EntryForMeaning(rs, front, r);
      assert HostsOf(rs, claims, r) == HostsOf(rs, front, r) + ClaimedHosts(rs, r, last);
      assert [] + last.hosts == last.hosts && HostsOf(rs, front, r) + [] == HostsOf(rs, front, r);
      assert last in claims;
    }
  }

  /** Router `r` wins the class of some claim. */
  ghost predicate Serves(l: Listing, r: Router) {
    exists c :: IsClaim(l, c) && Winner(l.routers, c.class', r)
  }

  /** Hostname `h` is claimed for router `r`. */
  ghost predicate ServesHost(l: Listing, r: Router, h: string) {
    exists c :: IsClaim(l, c) && Winner(l.routers, c.class', r) && h in c.hosts
  }

  /** `c` is the class of ingress `i`: its class field if set, else its annotation. */
  predicate OfClass(i: Ingress, c: string) {
    || i.className == Some(c)
    || (i.className == None
        && "kubernetes.io/ingress.class" in i.annotations && i.annotations["kubernetes.io/ingress.class"] == c)
  }

  lemma ClassMeaning(l: Listing, r: Router, i: Ingress)
    ensures Winner(l.routers, IngressClass(i), r) <==> exists c :: OfClass(i, c) && Winner(l.routers, c, r)
  {
  }

  /** Spelled out: by a non-empty rule host of an ingress of a class the router wins, or by any hostname of
      a route to such a gateway. */
  lemma ServesHostMeaning(l: Listing, r: Router, h: string)
    ensures ServesHost(l, r, h) <==>
              || (exists i, c :: i in l.ingresses && OfClass(i, c) && Winner(l.routers, c, r) && h in i.ruleHosts && h != "")
              || (exists t :: t in l.routes && Winner(l.routers, t.gateway, r) && h in t.hostnames)
    ensures Serves(l, r) <==>
              || (exists i, c :: i in l.ingresses && OfClass(i, c) && Winner(l.routers, c, r))
              || (exists t :: t in l.routes && Winner(l.routers, t.gateway, r))
  {
    forall i: Ingress ensures h in RuleHosts(i) <==> h in i.ruleHosts && h != "" {
      CollectMembers(i.ruleHosts, x => if x != "" then [x] else []);
    }
    forall i | i in l.ingresses ensures IsClaim(l, Claim(IngressClass(i), RuleHosts(i)))
      ensures Winner(l.routers, IngressClass(i), r) <==> exists c :: OfClass(i, c) && Winner(l.routers, c, r)
    {
      ClassMeaning(l, r, i);
    }
    forall t | t in l.routes ensures IsClaim(l, Claim(t.gateway, t.hostnames)) {
    }
  }

  /** The hostnames claimed for `r`, as a strictly sorted list. */
  ghost function HostList(l: Listing, r: Router): seq<string> {
    SortedSet(Collect(Claims(l.ingresses, l.routes), (c: Claim) => if Winner(l.routers, c.class', r) then c.hosts else []))
  }

  lemma HostListMeaning(l: Listing, r: Router)
    ensures StrictlySorted(HostList(l, r)) && forall h :: h in HostList(l, r) <==> ServesHost(l, r, h)
  {
    var f := (c: Claim) => if Winner(l.routers, c.class', r) then c.hosts else [];
    var all := Collect(Claims(l.ingresses, l.routes), f);
    ClaimsMembers(l, l.ingresses, l.routes);
    CollectMembers(Claims(l.ingresses, l.routes), f);
    SortedSetSorted(all);
  }

  /** Among the routers that serve, names are unique. */
  ghost predicate ServingNamesUnique(l: Listing) {
    forall i, j :: 0 <= i < j < |l.routers| && Serves(l, l.routers[i]) && Serves(l, l.routers[j]) ==>
      l.routers[i].name != l.routers[j].name
  }

  ghost function ServingOf(l: Listing, rs: seq<Router>): seq<Router> {
    Collect(rs, x => if Serves(l, x) then [x] else [])
  }

  /** Uniqueness in one arrangement is uniqueness in all, and is about routers as well as positions. */
  lemma ServingUnique(l: Listing, rs: seq<Router>)
    requires multiset(rs) == multiset(l.routers)
    ensures ServingNamesUnique(l) <==> DistinctBy(RouterName, ServingOf(l, l.routers))
    ensures ServingNamesUnique(l) <==> ApartBy(RouterName, rs, x => Serves(l, x))
    ensures forall x :: x in ServingOf(l, l.routers) <==> x in l.routers && Serves(l, x)
  {
    var f := x => Serves(l, x);
    assert Chosen(l.routers, f, ServingOf(l, l.routers)) by { SameChoice(l, l.routers, f); }
    assert Chosen(rs, f, ServingOf(l, rs)) by { SameChoice(l, rs, f); }
    ChosenDistinct(RouterName, l.routers, f, ServingOf(l, l.routers));
    ChosenDistinct(RouterName, rs, f, ServingOf(l, rs));
    ChosenPermutes(rs, l.routers, f, ServingOf(l, rs), ServingOf(l, l.routers));
    if DistinctBy(RouterName, ServingOf(l, rs)) {
      DistinctPermutes(RouterName, ServingOf(l, rs), ServingOf(l, l.routers));
    }
    if DistinctBy(RouterName, ServingOf(l, l.routers)) {
      DistinctPermutes(RouterName, ServingOf(l, l.routers), ServingOf(l, rs));
    }
    assert ServingNamesUnique(l) <==> ApartBy(RouterName, l.routers, f);
  }

  lemma SameChoice(l: Listing, rs: seq<Router>, f: Router -> bool)
    requires forall x :: f(x) <==> Serves(l, x)
    ensures Chosen(rs, f, ServingOf(l, rs))
  {
    CollectAgree(rs, x => if Serves(l, x) then [x] else [], x => if f(x) then [x] else []);
  }

  /** A name is that of a serving router exactly when it has an entry, in every arrangement. */
  lemma ServedNames(l: Listing, rs: seq<Router>, ings: seq<Ingress>, routes: seq<Route>, n: string)
    requires Arranged(l, rs, ings, routes)
    ensures EntryFor(rs, Claims(ings, routes), n).Some? <==> exists x :: Serves(l, x) && x.name == n
  {
    var claims := Claims(ings, routes);
    ClaimsMembers(l, ings, routes);
    EntryForMeaning(rs, claims, n);
    forall c ensures Resolves(rs, n, c) <==> exists x :: Winner(l.routers, c, x) && x.name == n {
      ResolvesByName(l.routers, rs, n, c);
    }
    if x :| Serves(l, x) && x.name == n {
      var c :| IsClaim(l, c) && Winner(l.routers, c.class', x);
      assert c in claims && Resolves(rs, n, c.class');
    }
    if FirstClaim(rs, claims, n).Some? {
      var c := FirstClaim(rs, claims, n).value;
      var x :| Winner(l.routers, c.class', x) && x.name == n;
      assert Serves(l, x);
    }
  }

  /** Which name a class resolves to does not depend on the arrangement. */
  lemma ResolvesByName(routers: seq<Router>, rs: seq<Router>, n: string, c: string)
    requires multiset(rs) == multiset(routers) && SortedBy(RouterName, rs)
    ensures Resolves(rs, n, c) <==> exists x :: Winner(routers, c, x) && x.name == n
  {
    ClassResolvesToWinner(routers, rs, c);
    if x :| Winner(routers, c, x) && x.name == n {
      WinnersTie(routers, c, x, RouterFor(rs, c).value);
    }
  }

  /** The entry of a serving router whose name no other serving router has. */
  lemma RouterEntry(l: Listing, rs: seq<Router>, ings: seq<Ingress>, routes: seq<Route>, r: Router)
    requires Arranged(l, rs, ings, routes) && ServingNamesUnique(l) && Serves(l, r)
    ensures EntryFor(rs, Claims(ings, routes), r.name).Some?
    ensures NormalEntry(EntryFor(rs, Claims(ings, routes), r.name).value) == DnsHostEntry(r.ip, HostList(l, r))
  {
    var claims := Claims(ings, routes);
    ServedNames(l, rs, ings, routes, r.name);
    ClaimsMembers(l, ings, routes);
    EntryForMeaning(rs, claims, r.name);
    forall c | c in claims ensures Resolves(rs, r.name, c.class') <==> RouterFor(rs, c.class') == Some(r)
      ensures Resolves(rs, r.name, c.class') <==> Winner(l.routers, c.class', r)
    {
      ServingResolves(l, rs, r, c);
    }
    var e := EntryFor(rs, claims, r.name).value;
    SortedSetSorted(e.hostnames);
    CollectMembers(claims, c => ClaimedHosts(rs, r.name, c));
    HostListMeaning(l, r);
    StrictlySortedUnique(SortedSet(e.hostnames), HostList(l, r));
  }

  lemma ServingResolves(l: Listing, rs: seq<Router>, r: Router, c: Claim)
    requires multiset(rs) == multiset(l.routers) && SortedBy(RouterName, rs)
    requires ServingNamesUnique(l) && Serves(l, r) && IsClaim(l, c)
    ensures Resolves(rs, r.name, c.class') <==> RouterFor(rs, c.class') == Some(r)
    ensures Resolves(rs, r.name, c.class') <==> Winner(l.routers, c.class', r)
  {
    ClassResolvesToWinner(l.routers, rs, c.class');
    ServingUnique(l, rs);
    ResolvesByName(l.routers, rs, r.name, c.class');
    if Resolves(rs, r.name, c.class') {
      var x := RouterFor(rs, c.class').value;
      assert Serves(l, x) && r in l.routers;
      DistinctMembers(RouterName, ServingOf(l, l.routers), x, r);
    }
  }

  lemma NormalConcat(a: seq<DnsHostEntry>, b: seq<DnsHostEntry>)
    ensures NormalEntries(a + b) == NormalEntries(a) + NormalEntries(b)
  {
  }

  lemma {:induction false} EntriesInOrder(rs: seq<Router>, claims: seq<Claim>, some: seq<Router>,
                                          f: Router -> seq<string>, g: Router -> seq<DnsHostEntry>)
    requires forall x :: x in some ==> f(x) == [] || f(x) == [x.name]
    requires forall x :: x in some ==> g(x) == if f(x) == [] then [] else NormalEntries(OneEntry(rs, claims, x.name))
    ensures NormalEntries(Entries(rs, claims, Collect(some, f))) == Collect(some, g)
  {
    if some != [] {
      var front, last := some[..|some| - 1], some[|some| - 1];
      assert some == front + [last];
      EntriesInOrder(rs, claims, front, f, g);
      CollectConcat(Collect(front, f), f(last), r => OneEntry(rs, claims, r));
      CollectTwo(last.name, last.name, r => OneEntry(rs, claims, r));
      NormalConcat(Entries(rs, claims, Collect(front, f)), Entries(rs, claims, f(last)));
    }
  }

  /** The claimed names are those of the serving routers, in order. */
  lemma NamesInOrder(l: Listing, rs: seq<Router>, ings: seq<Ingress>, routes: seq<Route>, names: seq<string>,
                     f: Router -> seq<string>, serves: Router -> bool)
    requires Arranged(l, rs, ings, routes) && ServingNamesUnique(l) && Claimed(rs, Claims(ings, routes), names)
    requires forall x :: serves(x) <==> Serves(l, x)
    requires forall x :: f(x) == if serves(x) then [x.name] else []
    ensures names == Collect(rs, f)
  {
    ServingUnique(l, rs);
    SameMembers(rs, l.routers);
    assert ApartBy(RouterName, rs, serves);
    KeysInOrder(RouterName, rs, f, serves);
    forall n ensures n in names <==> n in Collect(rs, f) {
      ServedNames(l, rs, ings, routes, n);
    }
    StrictlySortedUnique(names, Collect(rs, f));
  }

  /** The entries before the final sort, normalised: those of the serving routers, in name order. */
  lemma NormalisedEntries(l: Listing, rs: seq<Router>, ings: seq<Ingress>, routes: seq<Route>, names: seq<string>,
                          g: Router -> seq<DnsHostEntry>)
    requires Arranged(l, rs, ings, routes) && ServingNamesUnique(l) && Claimed(rs, Claims(ings, routes), names)
    requires forall x :: g(x) == if Serves(l, x) then [DnsHostEntry(x.ip, HostList(l, x))] else []
    ensures NormalEntries(Entries(rs, Claims(ings, routes), names)) == Collect(rs, g)
  {
    var serves := x => Serves(l, x);
    var f := (x: Router) => if serves(x) then [x.name] else [];
    NamesInOrder(l, rs, ings, routes, names, f, serves);
    forall x | x in rs
      ensures g(x) == if f(x) == [] then [] else NormalEntries(OneEntry(rs, Claims(ings, routes), x.name))
    {
      if Serves(l, x) {
        RouterEntry(l, rs, ings, routes, x);
      }
    }
    EntriesInOrder(rs, Claims(ings, routes), rs, f, g);
  }

  /** The one entry router `r` ought to contribute, if it serves. */
  ghost function Share(l: Listing, r: Router): multiset<DnsHostEntry> {
    if Serves(l, r) then multiset{DnsHostEntry(r.ip, HostList(l, r))} else multiset{}
  }

  ghost function Shares(l: Listing): multiset<DnsHostEntry> {
    Image(l.routers, r => Share(l, r))
  }

  lemma SharesCollected(l: Listing, rs: seq<Router>, g: Router -> seq<DnsHostEntry>)
    requires multiset(rs) == multiset(l.routers)
    requires forall x :: g(x) == if Serves(l, x) then [DnsHostEntry(x.ip, HostList(l, x))] else []
    ensures multiset(Collect(rs, g)) == Shares(l)
  {
    var share := r => Share(l, r);
    CollectImage(rs, g, share);
    ImagePermutes(rs, l.routers, share);
  }

  lemma UniqueNamesExact(lib: Lib, l: Listing, rs: seq<Router>, ings: seq<Ingress>, routes: seq<Route>, spec: DnsHostsSpec)
    requires lib.Valid() && Arranged(l, rs, ings, routes) && Builds(lib, rs, Claims(ings, routes), spec)
    requires ServingNamesUnique(l)
    ensures multiset(spec.hosts) == Shares(l)
  {
    var claims := Claims(ings, routes);
    var names :| Claimed(rs, claims, names) && spec == DnsHostsSpec("", NormalHosts(lib, Entries(rs, claims, names)));
    var g := x => if Serves(l, x) then [DnsHostEntry(x.ip, HostList(l, x))] else [];
    NormalisedEntries(l, rs, ings, routes, names, g);
    NormalHostsMeaning(lib, Entries(rs, claims, names));
    SharesCollected(l, rs, g);
  }

  lemma {:induction false} EntriesCount(rs: seq<Router>, claims: seq<Claim>, names: seq<string>)
    requires forall n :: n in names ==> EntryFor(rs, claims, n).Some?
    ensures |Entries(rs, claims, names)| == |names|
  {
    if names != [] {
      assert names == names[..|names| - 1] + [names[|names| - 1]];
      EntriesCount(rs, claims, names[..|names| - 1]);
    }
  }

  lemma {:induction false} ChosenCount<T, U>(s: seq<T>, f: T -> seq<T>, g: T -> multiset<U>)
    requires forall x :: |g(x)| == |f(x)|
    ensures |Image(s, g)| == |Collect(s, f)|
  {
    if s != [] {
      var front, last := s[..|s| - 1], s[|s| - 1];
      assert s == front + [last];
      ChosenCount(front, f, g);
      ImageConcat(front, [last], g);
    }
  }

  function Names(rs: seq<Router>): (r: seq<string>)
    ensures |r| == |rs| && forall i :: 0 <= i < |rs| ==> r[i] == rs[i].name
  {
    seq(|rs|, i requires 0 <= i < |rs| => rs[i].name)
  }

  /** There are as many entries as served names, but the shares are as many as serving routers. */
  lemma ExactMeansUnique(lib: Lib, l: Listing, rs: seq<Router>, ings: seq<Ingress>, routes: seq<Route>, spec: DnsHostsSpec)
    requires lib.Valid() && Arranged(l, rs, ings, routes) && Builds(lib, rs, Claims(ings, routes), spec)
    requires multiset(spec.hosts) == Shares(l)
    ensures ServingNamesUnique(l)
  {
    var claims := Claims(ings, routes);
    var names :| Claimed(rs, claims, names) && spec == DnsHostsSpec("", NormalHosts(lib, Entries(rs, claims, names)));
    var serving := ServingOf(l, l.routers);
    NormalHostsMeaning(lib, Entries(rs, claims, names));
    EntriesCount(rs, claims, names);
    assert |multiset(spec.hosts)| == |names|;
    ChosenCount(l.routers, x => if Serves(l, x) then [x] else [], r => Share(l, r));
    assert |serving| == |names|;
    ServingUnique(l, l.routers);
    forall n ensures n in names <==> n in Names(serving) {
      ServedNames(l, rs, ings, routes, n);
      NamesOfServing(l, n);
    }
    SameCountDistinct(names, serving);
  }

  lemma NamesOfServing(l: Listing, n: string)
    ensures n in Names(ServingOf(l, l.routers)) <==> exists x :: Serves(l, x) && x.name == n
  {
    ServingUnique(l, l.routers);
    NamesIn(ServingOf(l, l.routers), n);
  }

  lemma NamesIn(rs: seq<Router>, n: string)
    ensures n in Names(rs) <==> exists x :: x in rs && x.name == n
  {
    if n in Names(rs) {
      var i :| 0 <= i < |rs| && Names(rs)[i] == n;
      assert rs[i] in rs;
    }
    if x :| x in rs && x.name == n {
      var i :| 0 <= i < |rs| && rs[i] == x;
      assert Names(rs)[i] == n;
    }
  }

  lemma SameCountDistinct(names: seq<string>, serving: seq<Router>)
    requires StrictlySorted(names) && |serving| == |names| && forall n :: n in names <==> n in Names(serving)
    ensures DistinctBy(RouterName, serving)
  {
    StrictlySortedIsSorted(names);
    SameSizeDistinct(names, Names(serving));
    forall i, j | 0 <= i < |serving| && 0 <= j < |serving| && serving[i].name == serving[j].name ensures i == j {
      assert Names(serving)[i] == Names(serving)[j];
    }
  }

  /** The spec is, as a multiset, exactly one entry per serving router, its address with the strictly sorted set
      of the hostnames claimed for it, if and only if no two routers that serve have one name. */
  lemma IngressExact(lib: Lib, l: Listing, rs: seq<Router>, ings: seq<Ingress>, routes: seq<Route>, spec: DnsHostsSpec)
    requires lib.Valid() && Arranged(l, rs, ings, routes) && Builds(lib, rs, Claims(ings, routes), spec)
    ensures multiset(spec.hosts) == Shares(l) <==> ServingNamesUnique(l)
  {
    if ServingNamesUnique(l) {
      UniqueNamesExact(lib, l, rs, ings, routes, spec);
    }
    if multiset(spec.hosts) == Shares(l) {
      ExactMeansUnique(lib, l, rs, ings, routes, spec);
    }
  }
}

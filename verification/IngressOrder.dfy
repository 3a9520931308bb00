/** When the order of listing reaches the ingress-based output, and a router's address is lost. */
module IngressOrder {
  import opened Kube
  import opened Ordering
  import opened Dnsmasq
  import opened IngressBased
  import opened IngressBasedProperties

  /** Some arrangement of the listing makes `spec`. */
  ghost predicate Makes(lib: Lib, l: Listing, spec: DnsHostsSpec) {
    exists rs, ings, routes :: Arranged(l, rs, ings, routes) && Builds(lib, rs, Claims(ings, routes), spec)
  }

  /** The same resources in any order. */
  ghost predicate Permuted(l0: Listing, l1: Listing) {
    && multiset(l0.routers) == multiset(l1.routers)
    && multiset(l0.ingresses) == multiset(l1.ingresses) && multiset(l0.routes) == multiset(l1.routes)
  }

  lemma PermutedMakes(lib: Lib, l0: Listing, l1: Listing, spec: DnsHostsSpec)
    requires Permuted(l0, l1) && Makes(lib, l1, spec)
    ensures Makes(lib, l0, spec)
  {
    var rs, ings, routes :| Arranged(l1, rs, ings, routes) && Builds(lib, rs, Claims(ings, routes), spec);
    assert Arranged(l0, rs, ings, routes);
  }

  /** All arrangements make one spec. */
  ghost predicate OneOutcome(lib: Lib, l: Listing) {
    forall s, t :: Makes(lib, l, s) && Makes(lib, l, t) ==> s == t
  }

  ghost predicate ClassNamed(l: Listing, c: string, n: string) {
    exists x :: Winner(l.routers, c, x) && x.name == n
  }

  /** Class `c` is the first claimed of those that resolve to name `n`: that of the ingress first in the order
      the builder sorts them, or without such an ingress that of the least gateway. */
  ghost predicate FirstClass(l: Listing, c: string, n: string) {
    && ClassNamed(l, c, n)
    && ((exists i :: FirstIngress(l, i, n) && IngressClass(i) == c)
        || ((forall i :: i in l.ingresses ==> !ClassNamed(l, IngressClass(i), n)) && FirstGateway(l, c, n)))
  }

  ghost predicate FirstIngress(l: Listing, i: Ingress, n: string) {
    && i in l.ingresses && ClassNamed(l, IngressClass(i), n)
    && forall j :: j in l.ingresses && ClassNamed(l, IngressClass(j), n) ==> CompareStrings(IngressKey(i), IngressKey(j)) <= 0
  }

  ghost predicate FirstGateway(l: Listing, c: string, n: string) {
    && (exists t :: t in l.routes && t.gateway == c)
    && forall u :: u in l.routes && ClassNamed(l, u.gateway, n) ==> CompareStrings(c, u.gateway) <= 0
  }

  /** Routers that tie for a class that is claimed first for their name have one address. */
  ghost predicate TiesAgree(l: Listing) {
    forall c, x, y :: Winner(l.routers, c, x) && Winner(l.routers, c, y) && FirstClass(l, c, x.name) ==> x.ip == y.ip
  }

  /** `x` is first among the elements of `s` whose claim resolves to `n`. */
  ghost predicate IsFirst<T(!new)>(rs: seq<Router>, s: seq<T>, f: T -> Claim, key: T -> string, n: string, x: T) {
    && x in s && Resolves(rs, n, f(x).class')
    && forall y :: y in s && Resolves(rs, n, f(y).class') ==> CompareStrings(key(x), key(y)) <= 0
  }

  lemma FirstStays<T(!new)>(rs: seq<Router>, s: seq<T>, f: T -> Claim, key: T -> string, n: string, x: T)
    requires SortedBy(key, s) && s != [] && IsFirst(rs, s[..|s| - 1], f, key, n, x)
    ensures IsFirst(rs, s, f, key, n, x)
  {
    var front, last := s[..|s| - 1], s[|s| - 1];
    assert s == front + [last];
    var i :| 0 <= i < |front| && front[i] == x;
    assert CompareStrings(key(s[i]), key(s[|s| - 1])) <= 0;
  }

  lemma FirstAtEnd<T(!new)>(rs: seq<Router>, s: seq<T>, f: T -> Claim, key: T -> string, n: string)
    requires s != [] && Resolves(rs, n, f(s[|s| - 1]).class')
    requires forall y :: y in s[..|s| - 1] ==> !Resolves(rs, n, f(y).class')
    ensures IsFirst(rs, s, f, key, n, s[|s| - 1])
  {
    var front, last := s[..|s| - 1], s[|s| - 1];
    assert s == front + [last];
    CompareStringsZero(key(last), key(last));
  }

  lemma {:induction false} FirstOf<T(!new)>(rs: seq<Router>, s: seq<T>, f: T -> Claim, g: T -> seq<Claim>, key: T -> string,
                                            n: string)
    requires SortedBy(key, s) && forall x :: g(x) == [f(x)]
    ensures match FirstClaim(rs, Collect(s, g), n)
            case Some(c) => exists x :: IsFirst(rs, s, f, key, n, x) && c == f(x)
            case None => forall y :: y in s ==> !Resolves(rs, n, f(y).class')
  {
    if s != [] {
      var front, last := s[..|s| - 1], s[|s| - 1];
      var claims, before := Collect(s, g), Collect(front, g);
      FirstOf(rs, front, f, g, key, n);
      assert s == front + [last] && claims == before + [f(last)] && claims[..|claims| - 1] == before;
      if FirstClaim(rs, before, n).Some? {
        var x :| IsFirst(rs, front, f, key, n, x) && FirstClaim(rs, before, n).value == f(x);
        FirstStays(rs, s, f, key, n, x);
      } else if Resolves(rs, n, f(last).class') {
        FirstAtEnd(rs, s, f, key, n);
      }
    }
  }

  lemma {:induction false} FirstClaimConcat(rs: seq<Router>, a: seq<Claim>, b: seq<Claim>, n: string)
    ensures FirstClaim(rs, a + b, n) == if FirstClaim(rs, a, n).Some? then FirstClaim(rs, a, n) else FirstClaim(rs, b, n)
  {
    if b == [] {
      assert a + b == a;
    } else {
      assert (a + b)[..|a + b| - 1] == a + b[..|b| - 1];
      FirstClaimConcat(rs, a, b[..|b| - 1], n);
    }
  }

  lemma ResolvesIffNamed(l: Listing, rs: seq<Router>, n: string)
    requires multiset(rs) == multiset(l.routers) && SortedBy(RouterName, rs)
    ensures forall c :: Resolves(rs, n, c) <==> ClassNamed(l, c, n)
  {
    forall c ensures Resolves(rs, n, c) <==> ClassNamed(l, c, n) {
      ResolvesByName(l.routers, rs, n, c);
    }
  }

  function ClaimOfIngress(i: Ingress): Claim {
    Claim(IngressClass(i), RuleHosts(i))
  }

  function ClaimOfRoute(t: Route): Claim {
    Claim(t.gateway, t.hostnames)
  }

  lemma FirstFromIngresses(l: Listing, rs: seq<Router>, ings: seq<Ingress>, n: string)
    requires multiset(rs) == multiset(l.routers) && SortedBy(RouterName, rs)
    requires multiset(ings) == multiset(l.ingresses) && SortedBy(IngressKey, ings)
    ensures match FirstClaim(rs, Claims(ings, []), n)
            case Some(c) => exists i :: FirstIngress(l, i, n) && IngressClass(i) == c.class'
            case None => forall i :: i in l.ingresses ==> !ClassNamed(l, IngressClass(i), n)
  {
    var g := i => [Claim(IngressClass(i), RuleHosts(i))];
    ResolvesIffNamed(l, rs, n);
    SameMembers(ings, l.ingresses);
    FirstOf(rs, ings, ClaimOfIngress, g, IngressKey, n);
    assert Claims(ings, []) == Collect(ings, g);
    if FirstClaim(rs, Claims(ings, []), n).Some? {
      var i :| IsFirst(rs, ings, ClaimOfIngress, IngressKey, n, i) && FirstClaim(rs, Collect(ings, g), n).value == ClaimOfIngress(i);
      forall j | j in l.ingresses && ClassNamed(l, IngressClass(j), n) ensures CompareStrings(IngressKey(i), IngressKey(j)) <= 0 {
        assert Resolves(rs, n, ClaimOfIngress(j).class');
      }
      assert FirstIngress(l, i, n);
    } else {
      forall j | j in l.ingresses ensures !ClassNamed(l, IngressClass(j), n) {
        assert !Resolves(rs, n, ClaimOfIngress(j).class');
      }
    }
  }

  lemma FirstFromRoutes(l: Listing, rs: seq<Router>, routes: seq<Route>, n: string)
    requires multiset(rs) == multiset(l.routers) && SortedBy(RouterName, rs)
    requires multiset(routes) == multiset(l.routes) && SortedBy(RouteKey, routes)
    ensures match FirstClaim(rs, Claims([], routes), n)
            case Some(c) => ClassNamed(l, c.class', n) && FirstGateway(l, c.class', n)
            case None => forall t :: t in l.routes ==> !ClassNamed(l, t.gateway, n)
  {
    var g := (t: Route) => [Claim(t.gateway, t.hostnames)];
    ResolvesIffNamed(l, rs, n);
    SameMembers(routes, l.routes);
    FirstOf(rs, routes, ClaimOfRoute, g, RouteKey, n);
    assert Claims([], routes) == Collect(routes, g);
    if FirstClaim(rs, Claims([], routes), n).Some? {
      var t :| IsFirst(rs, routes, ClaimOfRoute, RouteKey, n, t) && FirstClaim(rs, Collect(routes, g), n).value == ClaimOfRoute(t);
      forall u | u in l.routes && ClassNamed(l, u.gateway, n) ensures CompareStrings(t.gateway, u.gateway) <= 0 {
        assert Resolves(rs, n, ClaimOfRoute(u).class') && RouteKey(t) == t.gateway && RouteKey(u) == u.gateway;
      }
      assert FirstGateway(l, t.gateway, n);
    } else {
      forall u | u in l.routes ensures !ClassNamed(l, u.gateway, n) {
        assert !Resolves(rs, n, ClaimOfRoute(u).class');
      }
    }
  }

  /** Ingresses come before routes. */
  lemma FirstOfBoth(l: Listing, n: string, byIngress: Option<Claim>, byRoute: Option<Claim>)
    requires match byIngress
             case Some(c) => exists i :: FirstIngress(l, i, n) && IngressClass(i) == c.class'
             case None => forall i :: i in l.ingresses ==> !ClassNamed(l, IngressClass(i), n)
    requires match byRoute
             case Some(c) => ClassNamed(l, c.class', n) && FirstGateway(l, c.class', n)
             case None => forall t :: t in l.routes ==> !ClassNamed(l, t.gateway, n)
    ensures match if byIngress.Some? then byIngress else byRoute
            case Some(c) => FirstClass(l, c.class', n)
            case None => forall c :: !FirstClass(l, c, n)
  {
  }

  lemma IngressesFirst(rs: seq<Router>, ings: seq<Ingress>, routes: seq<Route>, n: string)
    ensures FirstClaim(rs, Claims(ings, routes), n) ==
              if FirstClaim(rs, Claims(ings, []), n).Some? then FirstClaim(rs, Claims(ings, []), n)
              else FirstClaim(rs, Claims([], routes), n)
  {
    assert Claims(ings, routes) == Claims(ings, []) + Claims([], routes);
    FirstClaimConcat(rs, Claims(ings, []), Claims([], routes), n);
  }

  /** What the first claim for a name is, in terms of the listing. */
  lemma FirstClaimArranged(l: Listing, rs: seq<Router>, ings: seq<Ingress>, routes: seq<Route>, n: string)
    requires Arranged(l, rs, ings, routes)
    ensures match FirstClaim(rs, Claims(ings, routes), n)
            case Some(c) => FirstClass(l, c.class', n)
            case None => forall c :: !FirstClass(l, c, n)
  {
    var byIngress, byRoute := FirstClaim(rs, Claims(ings, []), n), FirstClaim(rs, Claims([], routes), n);
    IngressesFirst(rs, ings, routes, n);
    FirstFromIngresses(l, rs, ings, n);
    FirstFromRoutes(l, rs, routes, n);
    FirstOfBoth(l, n, byIngress, byRoute);
  }

  lemma FirstIngressUnique(l: Listing, i: Ingress, j: Ingress, n: string)
    requires DistinctBy(IngressKey, l.ingresses) && FirstIngress(l, i, n) && FirstIngress(l, j, n)
    ensures i == j
  {
    CompareStringsFlips(IngressKey(i), IngressKey(j));
    CompareStringsZero(IngressKey(i), IngressKey(j));
    DistinctMembers(IngressKey, l.ingresses, i, j);
  }

  /** With distinct ingresses a name has one first class. */
  lemma FirstClassUnique(l: Listing, a: string, b: string, n: string)
    requires DistinctBy(IngressKey, l.ingresses) && FirstClass(l, a, n) && FirstClass(l, b, n)
    ensures a == b
  {
    if i :| FirstIngress(l, i, n) && IngressClass(i) == a {
      var j :| FirstIngress(l, j, n) && IngressClass(j) == b;
      FirstIngressUnique(l, i, j, n);
    } else {
      CompareStringsFlips(a, b);
      CompareStringsZero(a, b);
    }
  }

  /** What the entry of a name is: none without a first class, else the address of the router that wins it in
      this arrangement, with all hostnames claimed. */
  lemma EntryShape(l: Listing, rs: seq<Router>, ings: seq<Ingress>, routes: seq<Route>, n: string)
    returns (winner: Option<Router>)
    requires Arranged(l, rs, ings, routes)
    ensures NormalEntries(OneEntry(rs, Claims(ings, routes), n)) ==
              if winner.None? then []
              else [DnsHostEntry(winner.value.ip, SortedSet(HostsOf(rs, Claims(ings, routes), n)))]
    ensures winner.None? ==> forall c :: !FirstClass(l, c, n)
    ensures winner.Some? ==> FirstClass(l, winner.value.ingressClass, n) && winner.value.name == n
                             && RouterFor(rs, winner.value.ingressClass) == winner
                             && Winner(l.routers, winner.value.ingressClass, winner.value)
  {
    var claims := Claims(ings, routes);
    EntryForMeaning(rs, claims, n);
    FirstClaimArranged(l, rs, ings, routes, n);
    winner := None;
    if FirstClaim(rs, claims, n).Some? {
      winner := RouterFor(rs, FirstClaim(rs, claims, n).value.class');
      ClassResolvesToWinner(l.routers, rs, FirstClaim(rs, claims, n).value.class');
    }
  }

  /** The entry of a name is the same in two arrangements, if ties agree. */
  lemma EntryAgrees(l: Listing, rs: seq<Router>, ings: seq<Ingress>, routes: seq<Route>,
                    rs': seq<Router>, ings': seq<Ingress>, routes': seq<Route>, n: string)
    requires Arranged(l, rs, ings, routes) && Arranged(l, rs', ings', routes')
    requires DistinctBy(IngressKey, l.ingresses) && TiesAgree(l)
    ensures NormalEntries(OneEntry(rs, Claims(ings, routes), n)) == NormalEntries(OneEntry(rs', Claims(ings', routes'), n))
  {
    var x := EntryShape(l, rs, ings, routes, n);
    var y := EntryShape(l, rs', ings', routes', n);
    HostsAgree(l, rs, ings, routes, rs', ings', routes', n);
    if x.Some? && y.Some? {
      FirstClassUnique(l, x.value.ingressClass, y.value.ingressClass, n);
    }
  }

  /** The hostnames of a name are the same set in all arrangements. */
  lemma HostsAgree(l: Listing, rs: seq<Router>, ings: seq<Ingress>, routes: seq<Route>,
                   rs': seq<Router>, ings': seq<Ingress>, routes': seq<Route>, n: string)
    requires Arranged(l, rs, ings, routes) && Arranged(l, rs', ings', routes')
    ensures SortedSet(HostsOf(rs, Claims(ings, routes), n)) == SortedSet(HostsOf(rs', Claims(ings', routes'), n))
  {
    var hosts, hosts' := HostsOf(rs, Claims(ings, routes), n), HostsOf(rs', Claims(ings', routes'), n);
    ClaimsMembers(l, ings, routes);
    ClaimsMembers(l, ings', routes');
    forall c ensures Resolves(rs, n, c) <==> Resolves(rs', n, c) {
      ResolvesByName(l.routers, rs, n, c);
      ResolvesByName(l.routers, rs', n, c);
    }
    CollectMembers(Claims(ings, routes), c => ClaimedHosts(rs, n, c));
    CollectMembers(Claims(ings', routes'), c => ClaimedHosts(rs', n, c));
    SortedSetSorted(hosts);
    SortedSetSorted(hosts');
    StrictlySortedUnique(SortedSet(hosts), SortedSet(hosts'));
  }

  lemma {:induction false} EntriesAgree(rs: seq<Router>, claims: seq<Claim>, rs': seq<Router>, claims': seq<Claim>, names: seq<string>)
    requires forall n :: n in names ==> NormalEntries(OneEntry(rs, claims, n)) == NormalEntries(OneEntry(rs', claims', n))
    ensures NormalEntries(Entries(rs, claims, names)) == NormalEntries(Entries(rs', claims', names))
  {
    if names != [] {
      var front, last := names[..|names| - 1], names[|names| - 1];
      assert names == front + [last];
      EntriesAgree(rs, claims, rs', claims', front);
      NormalConcat(Entries(rs, claims, front), OneEntry(rs, claims, last));
      NormalConcat(Entries(rs', claims', front), OneEntry(rs', claims', last));
    }
  }

  lemma NamesAgree(l: Listing, rs: seq<Router>, ings: seq<Ingress>, routes: seq<Route>, names: seq<string>,
                   rs': seq<Router>, ings': seq<Ingress>, routes': seq<Route>, names': seq<string>)
    requires Arranged(l, rs, ings, routes) && Arranged(l, rs', ings', routes')
    requires Claimed(rs, Claims(ings, routes), names) && Claimed(rs', Claims(ings', routes'), names')
    ensures names == names'
  {
    forall n ensures n in names <==> n in names' {
      ServedNames(l, rs, ings, routes, n);
      ServedNames(l, rs', ings', routes', n);
    }
    StrictlySortedUnique(names, names');
  }

  lemma TiesAgreeSuffices(lib: Lib, l: Listing)
    requires DistinctBy(IngressKey, l.ingresses) && TiesAgree(l)
    ensures OneOutcome(lib, l)
  {
    forall s, t | Makes(lib, l, s) && Makes(lib, l, t) ensures s == t {
      OneSpec(lib, l, s, t);
    }
  }

  lemma OneSpec(lib: Lib, l: Listing, s: DnsHostsSpec, t: DnsHostsSpec)
    requires DistinctBy(IngressKey, l.ingresses) && TiesAgree(l) && Makes(lib, l, s) && Makes(lib, l, t)
    ensures s == t
  {
    var rs, ings, routes :| Arranged(l, rs, ings, routes) && Builds(lib, rs, Claims(ings, routes), s);
    var rs', ings', routes' :| Arranged(l, rs', ings', routes') && Builds(lib, rs', Claims(ings', routes'), t);
    var claims, claims' := Claims(ings, routes), Claims(ings', routes');
    var names :| Claimed(rs, claims, names) && s == DnsHostsSpec("", NormalHosts(lib, Entries(rs, claims, names)));
    var names' :| Claimed(rs', claims', names') && t == DnsHostsSpec("", NormalHosts(lib, Entries(rs', claims', names')));
    NamesAgree(l, rs, ings, routes, names, rs', ings', routes', names');
    forall n | n in names ensures NormalEntries(OneEntry(rs, claims, n)) == NormalEntries(OneEntry(rs', claims', n)) {
      EntryAgrees(l, rs, ings, routes, rs', ings', routes', n);
    }
    EntriesAgree(rs, claims, rs', claims', names);
  }

  /** Unique names among the serving routers are enough. */
  lemma UniqueNamesTie(l: Listing)
    requires ServingNamesUnique(l)
    ensures TiesAgree(l)
  {
    ServingUnique(l, l.routers);
    forall c, x, y | Winner(l.routers, c, x) && Winner(l.routers, c, y) && FirstClass(l, c, x.name) ensures x.ip == y.ip {
      var claim := ClaimOfFirst(l, c, x.name);
      assert Serves(l, x) && Serves(l, y);
      WinnersTie(l.routers, c, x, y);
      DistinctMembers(RouterName, ServingOf(l, l.routers), x, y);
    }
  }

  lemma ClaimOfFirst(l: Listing, c: string, n: string) returns (claim: Claim)
    requires FirstClass(l, c, n)
    ensures IsClaim(l, claim) && claim.class' == c
  {
    if i :| FirstIngress(l, i, n) && IngressClass(i) == c {
      claim := Claim(IngressClass(i), RuleHosts(i));
    } else {
      var t :| t in l.routes && t.gateway == c;
      claim := Claim(t.gateway, t.hostnames);
    }
  }

  lemma SortedArrangement<T(!new)>(key: T -> string, s: seq<T>) returns (t: seq<T>)
    ensures multiset(t) == multiset(s) && SortedBy(key, t)
  {
    var cmp := (x: T, y: T) => CompareStrings(key(x), key(y));
    KeyPreorder(key, cmp, s);
    InsertionSortSorted(cmp, s);
    t := InsertionSort(cmp, s);
    assert forall i, j :: 0 <= i < j < |t| ==> cmp(t[i], t[j]) <= 0;
  }

  /** Every arrangement makes a spec. */
  lemma SpecExists(lib: Lib, rs: seq<Router>, claims: seq<Claim>) returns (names: seq<string>, spec: DnsHostsSpec)
    ensures Claimed(rs, claims, names) && Builds(lib, rs, claims, spec)
    ensures spec == DnsHostsSpec("", NormalHosts(lib, Entries(rs, claims, names)))
  {
    var f := (x: Router) => if EntryFor(rs, claims, x.name).Some? then [x.name] else [];
    names := SortedSet(Collect(rs, f));
    CollectMembers(rs, f);
    SortedSetSorted(Collect(rs, f));
    forall n ensures n in names <==> EntryFor(rs, claims, n).Some? {
      EntryForMeaning(rs, claims, n);
      if FirstClaim(rs, claims, n).Some? {
        var c := FirstClaim(rs, claims, n).value.class';
        RouterForMember(rs, c);
        assert n in f(RouterFor(rs, c).value);
      }
    }
    spec := DnsHostsSpec("", NormalHosts(lib, Entries(rs, claims, names)));
  }

  lemma {:induction false} RouterForAt(rs: seq<Router>, c: string) returns (i: nat)
    requires RouterFor(rs, c).Some?
    ensures i < |rs| && rs[i] == RouterFor(rs, c).value && c != "" && rs[i].ingressClass == c
    ensures forall p :: i < p < |rs| ==> rs[p].ingressClass != c
  {
    i := |rs| - 1;
    if rs[i].ingressClass != c || c == "" {
      i := RouterForAt(rs[..|rs| - 1], c);
    }
  }

  lemma {:induction false} RouterForIs(rs: seq<Router>, c: string, i: nat)
    requires i < |rs| && c != "" && rs[i].ingressClass == c && forall p :: i < p < |rs| ==> rs[p].ingressClass != c
    ensures RouterFor(rs, c) == Some(rs[i])
  {
    if i < |rs| - 1 {
      RouterForIs(rs[..|rs| - 1], c, i);
    }
  }

  lemma {:induction false} RouterForElsewhere(rs: seq<Router>, rs': seq<Router>, c: string)
    requires |rs| == |rs'|
    requires forall p :: 0 <= p < |rs| ==> rs[p] == rs'[p] || (rs[p].ingressClass != c && rs'[p].ingressClass != c)
    ensures RouterFor(rs, c) == RouterFor(rs', c)
  {
    if rs != [] {
      RouterForElsewhere(rs[..|rs| - 1], rs'[..|rs| - 1], c);
    }
  }

  /** Each of the routers that tie for a class wins it in some arrangement that is otherwise the same. */
  lemma AnotherWinner(routers: seq<Router>, rs: seq<Router>, c: string, u: Router) returns (rs': seq<Router>)
    requires multiset(rs) == multiset(routers) && SortedBy(RouterName, rs) && Winner(routers, c, u)
    ensures multiset(rs') == multiset(routers) && SortedBy(RouterName, rs')
    ensures RouterFor(rs', c) == Some(u) && forall d :: d != c ==> RouterFor(rs', d) == RouterFor(rs, d)
  {
    ClassResolvesToWinner(routers, rs, c);
    SameMembers(rs, routers);
    WinnersTie(routers, c, u, RouterFor(rs, c).value);
    var j :| 0 <= j < |rs| && rs[j] == u;
    rs' := MovedLast(rs, c, j);
  }

  lemma MovedLast(rs: seq<Router>, c: string, j: nat) returns (r: seq<Router>)
    requires SortedBy(RouterName, rs) && j < |rs| && rs[j].ingressClass == c
    requires RouterFor(rs, c).Some? && RouterFor(rs, c).value.name == rs[j].name
    ensures multiset(r) == multiset(rs) && SortedBy(RouterName, r)
    ensures RouterFor(r, c) == Some(rs[j]) && forall d :: d != c ==> RouterFor(r, d) == RouterFor(rs, d)
  {
    var i := RouterForAt(rs, c);
    r := Swapped(rs, j, i);
    RouterForIs(r, c, i);
    forall d | d != c ensures RouterFor(r, d) == RouterFor(rs, d) {
      RouterForElsewhere(rs, r, d);
    }
  }

  /** Exchanging two routers of one name and class. */
  lemma Swapped(rs: seq<Router>, j: nat, i: nat) returns (r: seq<Router>)
    requires SortedBy(RouterName, rs) && j <= i < |rs|
    requires rs[j].name == rs[i].name && rs[j].ingressClass == rs[i].ingressClass
    ensures r == rs[j := rs[i]][i := rs[j]] && multiset(r) == multiset(rs) && SortedBy(RouterName, r)
    ensures forall p :: 0 <= p < |rs| ==> r[p].ingressClass == rs[p].ingressClass && (r[p] == rs[p] || p == i || p == j)
  {
    r := rs[j := rs[i]][i := rs[j]];
    assert forall p :: 0 <= p < |rs| ==> RouterName(r[p]) == RouterName(rs[p]);
  }

  /** Two arrangements that differ only in who wins class `c`. */
  ghost predicate DifferAt(rs: seq<Router>, rs': seq<Router>, c: string) {
    forall d :: d != c ==> RouterFor(rs', d) == RouterFor(rs, d)
  }

  lemma OtherEntriesAgree(l: Listing, rs: seq<Router>, rs': seq<Router>, ings: seq<Ingress>, routes: seq<Route>,
                          c: string, x: Router, m: string)
    requires Arranged(l, rs, ings, routes) && Arranged(l, rs', ings, routes) && DistinctBy(IngressKey, l.ingresses)
    requires DifferAt(rs, rs', c) && Winner(l.routers, c, x) && m != x.name
    ensures NormalEntries(OneEntry(rs, Claims(ings, routes), m)) == NormalEntries(OneEntry(rs', Claims(ings, routes), m))
  {
    var a := EntryShape(l, rs, ings, routes, m);
    var b := EntryShape(l, rs', ings, routes, m);
    HostsAgree(l, rs, ings, routes, rs', ings, routes, m);
    if a.Some? && b.Some? {
      FirstClassUnique(l, a.value.ingressClass, b.value.ingressClass, m);
      if a.value.ingressClass == c {
        WinnersTie(l.routers, c, x, a.value);
      }
    }
  }

  lemma WinnersEntry(l: Listing, rs: seq<Router>, ings: seq<Ingress>, routes: seq<Route>, c: string, x: Router)
    requires Arranged(l, rs, ings, routes) && DistinctBy(IngressKey, l.ingresses)
    requires FirstClass(l, c, x.name) && RouterFor(rs, c) == Some(x)
    ensures NormalEntries(OneEntry(rs, Claims(ings, routes), x.name)) ==
              [DnsHostEntry(x.ip, SortedSet(HostsOf(rs, Claims(ings, routes), x.name)))]
  {
    var a := EntryShape(l, rs, ings, routes, x.name);
    FirstClassUnique(l, a.value.ingressClass, c, x.name);
  }

  lemma OneDiffers(a: seq<DnsHostEntry>, x: DnsHostEntry, y: DnsHostEntry, b: seq<DnsHostEntry>)
    requires x != y
    ensures multiset(a + [x] + b) != multiset(a + [y] + b)
  {
    assert multiset(a + [x] + b)[x] == multiset(a)[x] + 1 + multiset(b)[x];
    assert multiset(a + [y] + b)[x] == multiset(a)[x] + multiset(b)[x];
  }

  lemma SplitAt(rs: seq<Router>, claims: seq<Claim>, names: seq<string>, p: nat)
    requires p < |names|
    ensures NormalEntries(Entries(rs, claims, names)) ==
              NormalEntries(Entries(rs, claims, names[..p])) + NormalEntries(OneEntry(rs, claims, names[p]))
              + NormalEntries(Entries(rs, claims, names[p + 1..]))
  {
    var f := r => OneEntry(rs, claims, r);
    CollectConcat(names[..p + 1], names[p + 1..], f);
    CollectStep(names, p, f);
    assert names == names[..p + 1] + names[p + 1..];
    NormalConcat(Entries(rs, claims, names[..p + 1]), Entries(rs, claims, names[p + 1..]));
    NormalConcat(Entries(rs, claims, names[..p]), OneEntry(rs, claims, names[p]));
  }

  /** If two routers tie for a class claimed first for their name and have different addresses, the listing order
      decides which of the two is published. */
  lemma TieDecidesSpec(lib: Lib, l: Listing, c: string, x: Router, y: Router) returns (s: DnsHostsSpec, t: DnsHostsSpec)
    requires lib.Valid() && DistinctBy(IngressKey, l.ingresses)
    requires Winner(l.routers, c, x) && Winner(l.routers, c, y) && FirstClass(l, c, x.name) && x.ip != y.ip
    ensures Makes(lib, l, s) && Makes(lib, l, t) && s != t
  {
    var rs := SortedArrangement(RouterName, l.routers);
    var ings := SortedArrangement(IngressKey, l.ingresses);
    var routes := SortedArrangement(RouteKey, l.routes);
    var claims := Claims(ings, routes);
    var rx := AnotherWinner(l.routers, rs, c, x);
    var ry := AnotherWinner(l.routers, rs, c, y);
    WinnersTie(l.routers, c, x, y);
    var names, names';
    names, s := SpecExists(lib, rx, claims);
    names', t := SpecExists(lib, ry, claims);
    assert Arranged(l, rx, ings, routes) && Arranged(l, ry, ings, routes);
    NamesAgree(l, rx, ings, routes, names, ry, ings, routes, names');
    EntriesDiffer(l, rx, ry, ings, routes, c, x, y, names);
    NormalHostsMeaning(lib, Entries(rx, claims, names));
    NormalHostsMeaning(lib, Entries(ry, claims, names));
  }

  lemma EntriesDiffer(l: Listing, rx: seq<Router>, ry: seq<Router>, ings: seq<Ingress>, routes: seq<Route>,
                      c: string, x: Router, y: Router, names: seq<string>)
    requires Arranged(l, rx, ings, routes) && Arranged(l, ry, ings, routes) && DistinctBy(IngressKey, l.ingresses)
    requires RouterFor(rx, c) == Some(x) && RouterFor(ry, c) == Some(y) && DifferAt(rx, ry, c)
    requires Winner(l.routers, c, x) && FirstClass(l, c, x.name) && x.name == y.name && x.ip != y.ip
    requires Claimed(rx, Claims(ings, routes), names)
    ensures multiset(NormalEntries(Entries(rx, Claims(ings, routes), names))) !=
            multiset(NormalEntries(Entries(ry, Claims(ings, routes), names)))
  {
    var claims := Claims(ings, routes);
    WinnersEntry(l, rx, ings, routes, c, x);
    WinnersEntry(l, ry, ings, routes, c, y);
    assert x.name in names by {
      assert OneEntry(rx, claims, x.name) != [];
    }
    var p :| 0 <= p < |names| && names[p] == x.name;
    StrictlySortedIsSorted(names);
    forall m | m in names[..p] || m in names[p + 1..]
      ensures NormalEntries(OneEntry(rx, claims, m)) == NormalEntries(OneEntry(ry, claims, m))
    {
      OtherEntriesAgree(l, rx, ry, ings, routes, c, x, m);
    }
    EntriesAgree(rx, claims, ry, claims, names[..p]);
    EntriesAgree(rx, claims, ry, claims, names[p + 1..]);
    SplitAt(rx, claims, names, p);
    SplitAt(ry, claims, names, p);
    OneDiffers(NormalEntries(Entries(rx, claims, names[..p])),
               DnsHostEntry(x.ip, SortedSet(HostsOf(rx, claims, x.name))),
               DnsHostEntry(y.ip, SortedSet(HostsOf(ry, claims, x.name))),
               NormalEntries(Entries(rx, claims, names[p + 1..])));
  }

  /** The order in which routers, ingresses and routes are listed is irrelevant, although routers and routes are
      sorted by keys they may share, if and only if routers that tie for a class claimed first for their name have
      one address. (No two ingresses share a namespace and name.) */
  lemma OrderIrrelevantIff(lib: Lib, l: Listing)
    requires lib.Valid() && DistinctBy(IngressKey, l.ingresses)
    ensures OneOutcome(lib, l) <==> TiesAgree(l)
  {
    if TiesAgree(l) {
      TiesAgreeSuffices(lib, l);
    } else {
      var c, x, y :| Winner(l.routers, c, x) && Winner(l.routers, c, y) && FirstClass(l, c, x.name) && x.ip != y.ip;
      var s, t := TieDecidesSpec(lib, l, c, x, y);
    }
  }

  /** In particular permuted listings with unique names among the serving routers give the very same spec. */
  lemma ListOrderIrrelevant(lib: Lib, l0: Listing, l1: Listing, s: DnsHostsSpec, t: DnsHostsSpec)
    requires DistinctBy(IngressKey, l0.ingresses) && TiesAgree(l0) && Permuted(l0, l1)
    requires Makes(lib, l0, s) && Makes(lib, l1, t)
    ensures s == t
  {
    PermutedMakes(lib, l0, l1, t);
    OneSpec(lib, l0, s, t);
  }

  /** Every published host is the entry of some name. */
  lemma HostHasName(lib: Lib, rs: seq<Router>, claims: seq<Claim>, spec: DnsHostsSpec, e: DnsHostEntry) returns (n: string)
    requires lib.Valid() && Builds(lib, rs, claims, spec) && e in spec.hosts
    ensures e in NormalEntries(OneEntry(rs, claims, n))
  {
    var names :| Claimed(rs, claims, names) && spec == DnsHostsSpec("", NormalHosts(lib, Entries(rs, claims, names)));
    var raw := Entries(rs, claims, names);
    NormalHostsMeaning(lib, raw);
    SameMembers(spec.hosts, NormalEntries(raw));
    n := EntryHasName(rs, claims, names, e);
  }

  lemma EntryHasName(rs: seq<Router>, claims: seq<Claim>, names: seq<string>, e: DnsHostEntry) returns (n: string)
    requires e in NormalEntries(Entries(rs, claims, names))
    ensures e in NormalEntries(OneEntry(rs, claims, n))
  {
    var raw := Entries(rs, claims, names);
    var i :| 0 <= i < |raw| && NormalEntries(raw)[i] == e;
    CollectMembers(names, r => OneEntry(rs, claims, r));
    assert raw[i] in raw;
    n :| n in names && raw[i] in OneEntry(rs, claims, n);
    NormalOfOne(raw[i], OneEntry(rs, claims, n));
  }

  lemma NormalOfOne(h: DnsHostEntry, one: seq<DnsHostEntry>)
    requires h in one
    ensures NormalEntry(h) in NormalEntries(one)
  {
    var i :| 0 <= i < |one| && one[i] == h;
    assert NormalEntries(one)[i] == NormalEntry(h);
  }

  const INTERNAL := Router("edge", "internal", "10.0.0.1")
  const PUBLIC := Router("edge", "public", "10.0.0.2")

  /** Two routers of one name for two classes, and an ingress of each. */
  const NAMESAKES := Listing(
    [INTERNAL, PUBLIC],
    [Ingress("default", "a", Some("internal"), map[], ["a.example"]), Ingress("default", "b", Some("public"), map[], ["b.example"])],
    [])

  lemma NamesakeWinners()
    ensures forall c, x :: Winner(NAMESAKES.routers, c, x) <==> (c == "internal" && x == INTERNAL) || (c == "public" && x == PUBLIC)
  {
    var l := NAMESAKES;
    assert "internal"[0] == 'i' && "public"[0] == 'p';
    CompareStringsZero("edge", "edge");
    forall c, x ensures Winner(l.routers, c, x) <==> (c == "internal" && x == INTERNAL) || (c == "public" && x == PUBLIC) {
      assert l.routers[0] in l.routers && l.routers[1] in l.routers;
    }
  }

  lemma NamesakeFacts()
    ensures forall c, x :: Winner(NAMESAKES.routers, c, x) <==> (c == "internal" && x == INTERNAL) || (c == "public" && x == PUBLIC)
    ensures !FirstClass(NAMESAKES, "public", "edge")
  {
    var l, a, b := NAMESAKES, NAMESAKES.ingresses[0], NAMESAKES.ingresses[1];
    NamesakeWinners();
    KeysCompare();
    assert "internal"[0] == 'i' && "public"[0] == 'p';
    assert Winner(l.routers, "internal", INTERNAL) && INTERNAL.name == "edge";
    assert a in l.ingresses && b in l.ingresses && ClassNamed(l, IngressClass(a), "edge");
    NotFirst(l, a, b, "public", "edge");
  }

  lemma KeysCompare()
    ensures CompareStrings(IngressKey(NAMESAKES.ingresses[1]), IngressKey(NAMESAKES.ingresses[0])) > 0
  {
    assert IngressKey(NAMESAKES.ingresses[0]) == "default/" + "a" && IngressKey(NAMESAKES.ingresses[1]) == "default/" + "b";
    SharedPrefix("default/", "b", "a");
  }

  /** A class is not first if every ingress of it comes after one of the same name. */
  lemma NotFirst(l: Listing, a: Ingress, b: Ingress, c: string, n: string)
    requires a in l.ingresses && ClassNamed(l, IngressClass(a), n)
    requires forall i :: i in l.ingresses && IngressClass(i) == c ==> i == b
    requires CompareStrings(IngressKey(b), IngressKey(a)) > 0
    ensures !FirstClass(l, c, n)
  {
  }

  /** Every published address is that of a router that wins a class claimed first for its name. */
  lemma AddressHasWinner(lib: Lib, l: Listing, spec: DnsHostsSpec, e: DnsHostEntry) returns (x: Router)
    requires lib.Valid() && Makes(lib, l, spec) && e in spec.hosts
    ensures e.ip == x.ip && FirstClass(l, x.ingressClass, x.name) && Winner(l.routers, x.ingressClass, x)
  {
    var rs, ings, routes :| Arranged(l, rs, ings, routes) && Builds(lib, rs, Claims(ings, routes), spec);
    var n := HostHasName(lib, rs, Claims(ings, routes), spec, e);
    var winner := EntryShape(l, rs, ings, routes, n);
    x := winner.value;
  }

  lemma SecondServes()
    ensures Serves(NAMESAKES, PUBLIC) && PUBLIC.ip != INTERNAL.ip
  {
    NamesakeFacts();
    assert NAMESAKES.ingresses[1] in NAMESAKES.ingresses;
    assert IsClaim(NAMESAKES, Claim("public", RuleHosts(NAMESAKES.ingresses[1])));
    assert PUBLIC.ip[7] != INTERNAL.ip[7];
  }

  /** A router that wins the class claimed first for its name is the first one. */
  lemma OnlyFirstWins(x: Router)
    requires FirstClass(NAMESAKES, x.ingressClass, x.name) && Winner(NAMESAKES.routers, x.ingressClass, x)
    ensures x == INTERNAL
  {
    NamesakeFacts();
  }

  /** Whatever the arrangement, the second router serves, and its address is nowhere in the spec. */
  lemma NamesakeLosesAddress(lib: Lib, spec: DnsHostsSpec)
    requires lib.Valid() && Makes(lib, NAMESAKES, spec)
    ensures Serves(NAMESAKES, PUBLIC) && PUBLIC.ip != INTERNAL.ip
    ensures forall e :: e in spec.hosts ==> e.ip == INTERNAL.ip
  {
    SecondServes();
    var l := NAMESAKES;
    forall e | e in spec.hosts ensures e.ip == INTERNAL.ip {
      var x := AddressHasWinner(lib, l, spec, e);
      OnlyFirstWins(x);
    }
  }

  const TIED_A := Router("edge", "internal", "10.0.0.1")
  const TIED_B := Router("edge", "internal", "10.0.0.2")

  /** Two routers of one name for one class, and an ingress of that class. */
  const TIED := Listing([TIED_A, TIED_B], [Ingress("default", "a", Some("internal"), map[], ["a.example"])], [])

  lemma TiedWin()
    ensures Winner(TIED.routers, "internal", TIED_A) && Winner(TIED.routers, "internal", TIED_B)
  {
    var c := "internal";
    CompareStringsZero("edge", "edge");
    assert TIED.routers[0] in TIED.routers && TIED.routers[1] in TIED.routers && c[0] == 'i';
  }

  /** The class of the only ingress is the first one of any name it resolves to. */
  lemma OnlyIngressFirst(l: Listing, i: Ingress, n: string)
    requires i in l.ingresses && (forall j :: j in l.ingresses ==> j == i) && ClassNamed(l, IngressClass(i), n)
    ensures FirstClass(l, IngressClass(i), n)
  {
    CompareStringsZero(IngressKey(i), IngressKey(i));
    assert FirstIngress(l, i, n);
  }

  /** Which of the two is published depends on how they are listed. */
  lemma TiedListingUnsettled(lib: Lib)
    requires lib.Valid()
    ensures !TiesAgree(TIED) && !OneOutcome(lib, TIED)
  {
    TiedWin();
    OnlyIngressFirst(TIED, TIED.ingresses[0], TIED_A.name);
    assert TIED_A.ip[7] != TIED_B.ip[7];
    OrderIrrelevantIff(lib, TIED);
  }
}

/** The two reconcilers that publish one DNS object each: internal/controller/ingressdns_controller.go and
    internal/controller/loadbalancerdns_controller.go. */
module AggregateControllers {
  import opened Kube
  import opened Ensure
  import opened Ordering
  import opened Dnsmasq
  import opened Homelab
  import opened Codec
  import opened Goals
  import opened ReconcileGate
  import opened DeviceController
  import opened Interleaving
  import IngressBased
  import opened IngressBasedProperties
  import opened IngressOrder
  import opened StatusConditions
  import LoadBalancerBased

  function AnchorOf(a: Agent): string
    requires !a.DeviceAgent?
  {
    if a.IngressAgent? then INGRESS_ANCHOR else LOAD_BALANCER_ANCHOR
  }

  /** What a run of one of the two wants: its anchor, and its object once it knows what to put there. */
  function SoloGoal(a: Agent, target: string, tree: Option<Tree>, k: Key): Goal
    requires !a.DeviceAgent?
  {
    if k == Key(ConfigMap, target, AnchorOf(a)) then Anchor(Managed(AggregateOf(a), ""))
    else if k == Key(DnsHosts, target, AggregateOf(a)) && tree.Some?
    then Publish(tree.value, Managed(AggregateOf(a), ""), OwnerIn(target, AnchorOf(a)))
    else Leave
  }

  function SoloGoals(a: Agent, target: string, tree: Option<Tree>): Key -> Goal
    requires !a.DeviceAgent?
  {
    k => SoloGoal(a, target, tree, k)
  }

  /** Where a run of one of the two leaves the store, and its plan. */
  ghost predicate SoloOutcome(dryRun: bool, a: Agent, target: string, tree: Option<Tree>, start: Store, end: Store,
                              ok: bool, plans: seq<ApplyPlan>)
    requires !a.DeviceAgent?
  {
    && (dryRun ==> end == start)
    && (!dryRun ==> Near(SoloGoals(a, target, tree), start, end))
    && (!dryRun && ok ==> Settled(SoloGoals(a, target, tree), start, end))
    && (ok ==> |plans| == 1
               && PlanFor(SoloGoals(a, target, tree), start, Key(DnsHosts, target, AggregateOf(a)), plans[0]))
  }

  /** When such a run can succeed. */
  predicate CanPublish(a: Agent, cfg: Config, served: set<Kind>, s: Store) {
    && (cfg.dryRun || {ConfigMap, DnsHosts} <= served)
    && WellFormed(s, Key(DnsHosts, cfg.dnsmasqNamespace, AggregateOf(a)))
  }

  lemma StillNear(dryRun: bool, a: Agent, target: string, run: Run, s: Store)
    requires !a.DeviceAgent? && (if dryRun then s == run.start else Progress(SoloGoals(a, target, None), run.start, s, run.done))
    ensures SoloOutcome(dryRun, a, target, None, run.start, s, false, [])
  {
  }

  /** `tree` encodes what routers, ingresses and routes amount to. */
  ghost predicate IngressTreeFor(lib: Lib, l: Listing, tree: Tree) {
    exists spec :: Makes(lib, l, spec) && tree == EncodeDnsHosts(spec)
  }

  /** The tree is determined by the listed resources, exactly when their order cannot decide between routers. */
  lemma IngressTreeUnique(lib: Lib, l0: Listing, l1: Listing, t0: Tree, t1: Tree)
    requires DistinctBy(IngressBased.IngressKey, l0.ingresses) && TiesAgree(l0) && Permuted(l0, l1)
    requires IngressTreeFor(lib, l0, t0) && IngressTreeFor(lib, l1, t1)
    ensures t0 == t1
  {
    var s :| Makes(lib, l0, s) && t0 == EncodeDnsHosts(s);
    var t :| Makes(lib, l1, t) && t1 == EncodeDnsHosts(t);
    ListOrderIrrelevant(lib, l0, l1, s, t);
  }

  /** `tree` encodes what the services amount to. */
  ghost predicate ServicesTreeFor(lib: Lib, suffix: string, listed: seq<LoadBalancerBased.Service>, tree: Tree) {
    exists services, spec :: && multiset(services) == multiset(listed)
                             && LoadBalancerBased.Builds(lib, suffix, services, spec) && tree == EncodeDnsHosts(spec)
  }

  /** So it is by the listed services, without exception. */
  lemma ServicesTreeUnique(lib: Lib, suffix: string, s0: seq<LoadBalancerBased.Service>, s1: seq<LoadBalancerBased.Service>,
                           t0: Tree, t1: Tree)
    requires multiset(s0) == multiset(s1)
    requires ServicesTreeFor(lib, suffix, s0, t0) && ServicesTreeFor(lib, suffix, s1, t1)
    ensures t0 == t1
  {
    var ss, s :| && multiset(ss) == multiset(s0) && LoadBalancerBased.Builds(lib, suffix, ss, s) && t0 == EncodeDnsHosts(s);
    var tt, t :| && multiset(tt) == multiset(s1) && LoadBalancerBased.Builds(lib, suffix, tt, t) && t1 == EncodeDnsHosts(t);
    LoadBalancerBased.ListOrderIrrelevant(lib, suffix, ss, s, tt, t);
  }

  /** What such a tree holds, read back: one entry per serving router iff serving routers have unique names. */
  lemma IngressTreeExact(lib: Lib, l: Listing, tree: Tree)
    requires lib.Valid() && IngressTreeFor(lib, l, tree)
    ensures var parsed := ParseDnsHosts(tree);
            && parsed.Ok? && DnsWire(tree, parsed.value) && parsed.value.controller == ""
            && (multiset(parsed.value.hosts) == Shares(l) <==> ServingNamesUnique(l))
  {
    var spec :| Makes(lib, l, spec) && tree == EncodeDnsHosts(spec);
    var rs, ings, routes :| Arranged(l, rs, ings, routes)
                            && IngressBased.Builds(lib, rs, IngressBased.Claims(ings, routes), spec);
    IngressExact(lib, l, rs, ings, routes, spec);
    DnsHostsRoundTrip(spec);
    DnsOnTheWire(spec);
  }

  /** And of the other reconciler: one entry per address in use, with the hostnames of the services there. */
  lemma ServicesTreeExact(lib: Lib, suffix: string, listed: seq<LoadBalancerBased.Service>, tree: Tree)
    requires lib.Valid() && ServicesTreeFor(lib, suffix, listed, tree)
    ensures var parsed := ParseDnsHosts(tree);
            && parsed.Ok? && DnsWire(tree, parsed.value) && parsed.value.controller == ""
            && LoadBalancerBased.DistinctIps(parsed.value.hosts)
            && (forall ip {:trigger LoadBalancerBased.Used(listed, ip)} ::
                  LoadBalancerBased.HasEntry(parsed.value.hosts, ip) <==> LoadBalancerBased.Used(listed, ip))
            && forall e :: e in parsed.value.hosts ==> LoadBalancerBased.NamesExact(suffix, listed, e)
  {
    var services, spec :| && multiset(services) == multiset(listed)
                          && LoadBalancerBased.Builds(lib, suffix, services, spec) && tree == EncodeDnsHosts(spec);
    LoadBalancerBased.LoadBalancerExact(lib, suffix, listed, services, spec);
    DnsHostsRoundTrip(spec);
    DnsOnTheWire(spec);
  }

  function SoloName(a: Agent): string
    requires !a.DeviceAgent?
  {
    if a.IngressAgent? then "ingress-based" else "load-balancer-based"
  }

  function SoloAnchor(a: Agent): string
    requires !a.DeviceAgent?
  {
    if a.IngressAgent? then "homelab-operator-anchor-ingress-based" else "homelab-operator-anchor-loadbalancer-based"
  }

  function SoloLabels(a: Agent): Labels
    requires !a.DeviceAgent?
  {
    map["app.kubernetes.io/managed-by" := "homelab-operator", "homelab.valdron.ca/aggregate" := SoloName(a)]
  }

  /** What a complete run of one of the two leaves: its object with the tree, its labels over the old ones and its
      anchor among the owners; the anchor with exactly these labels; and every other object as it was. */
  lemma AfterSoloRun(a: Agent, target: string, tree: Tree, s: Store, t: Store) returns (n: nat)
    requires !a.DeviceAgent? && Settled(SoloGoals(a, target, Some(tree)), s, t)
    ensures var k := Key(DnsHosts, target, SoloName(a));
            && k in t && t[k].spec == Fields(tree) && t[k].labels == LabelsIn(s, k) + SoloLabels(a)
            && AnchoredAt(OwnersIn(s, k), t[k].owners, SoloAnchor(a), n)
    ensures var k := Key(ConfigMap, target, SoloAnchor(a));
            && k in t && t[k].labels == SoloLabels(a) && t[k].owners == OwnersIn(s, k)
            && t[k].spec == if k in s && !s[k].spec.Missing? then s[k].spec
                            else Fields(map["purpose" := JStr("homelab-operator anchor")])
    ensures forall k {:trigger Lookup(t, k)} ::
              k != Key(DnsHosts, target, SoloName(a)) && k != Key(ConfigMap, target, SoloAnchor(a)) ==> Lookup(t, k) == Lookup(s, k)
  {
    var goal := SoloGoals(a, target, Some(tree));
    var hosts, anchor := Key(DnsHosts, target, SoloName(a)), Key(ConfigMap, target, SoloAnchor(a));
    SoloGoalMeaning(a, target, tree, hosts);
    SoloGoalMeaning(a, target, tree, anchor);
    SettledPublish(goal, s, t, hosts);
    SettledAt(goal, s, t, anchor);
    n := Anchored(OwnersIn(s, hosts), SoloAnchor(a));
    forall k | k != hosts && k != anchor ensures Lookup(t, k) == Lookup(s, k) {
      SoloGoalMeaning(a, target, tree, k);
      SettledAt(goal, s, t, k);
    }
  }

  lemma SoloGoalMeaning(a: Agent, target: string, tree: Tree, k: Key)
    requires !a.DeviceAgent?
    ensures SoloGoal(a, target, Some(tree), k) ==
              if k == Key(ConfigMap, target, SoloAnchor(a)) then Anchor(SoloLabels(a))
              else if k == Key(DnsHosts, target, SoloName(a))
              then Publish(tree, SoloLabels(a), Owner(target, AnchorRef(SoloAnchor(a))))
              else Leave
  {
  }

  /** Nothing is left to do for a run that wants `tree`. */
  ghost predicate SoloFixed(a: Agent, target: string, tree: Option<Tree>, s: Store)
    requires !a.DeviceAgent?
  {
    Settled(SoloGoals(a, target, tree), s, s)
  }

  lemma FixedWithoutTree(a: Agent, target: string, tree: Option<Tree>, s: Store)
    requires !a.DeviceAgent? && SoloFixed(a, target, tree, s)
    ensures SoloFixed(a, target, None, s)
  {
    forall k ensures Lookup(s, k) == Settle(SoloGoals(a, target, None)(k), Lookup(s, k)) {
      assert Lookup(s, k) == Settle(SoloGoals(a, target, tree)(k), Lookup(s, k));
    }
  }

  /** A run after a successful one that wanted the same tree finds nothing to do, and wherever it stops the store is
      the same. */
  lemma SecondSoloRunIdle(a: Agent, target: string, tree: Option<Tree>, s: Store, t: Store, u: Store,
                          ok: bool, plans: seq<ApplyPlan>)
    requires !a.DeviceAgent? && Settled(SoloGoals(a, target, tree), s, t)
    requires SoloOutcome(false, a, target, tree, t, u, ok, plans)
    ensures SoloFixed(a, target, tree, t) && u == t
    ensures ok && tree.Some? ==> plans[0].action == Unchanged
  {
    var goal, k := SoloGoals(a, target, tree), Key(DnsHosts, target, AggregateOf(a));
    SettledIsFixed(goal, s, t);
    forall x ensures Lookup(u, x) == Lookup(t, x) {
      assert Lookup(t, x) == Settle(goal(x), Lookup(t, x));
    }
    StoresEqual(u, t);
    assert Lookup(t, k) == Settle(goal(k), Lookup(t, k));
  }

  /** Makes sure of the anchor. */
  method EnsureOwnAnchor(a: Agent, cfg: Config, lib: Lib, client: Client, gate: Gate)
    returns (rec: DeviceReconciler, owner: Option<Owner>, ghost run: Run)
    requires client.Valid() && !a.DeviceAgent?
    modifies client`calls, client`objects, client`writes
    ensures rec.cfg == cfg && rec.client == client
    ensures rec.At(SoloGoals(a, cfg.dnsmasqNamespace, None), run) && run.start == old(client.objects)
    ensures run.done <= iset{Key(ConfigMap, cfg.dnsmasqNamespace, AnchorOf(a))} && run.order == []
    ensures owner.Some? ==> owner.value == OwnerIn(cfg.dnsmasqNamespace, AnchorOf(a))
                            && run.done == iset{Key(ConfigMap, cfg.dnsmasqNamespace, AnchorOf(a))}
    ensures owner.Some? ==> cfg.dryRun || ConfigMap in client.served
    ensures cfg.dryRun || (client.Healthy() && ConfigMap in client.served) ==> owner.Some?
    ensures cfg.dryRun || SoloFixed(a, cfg.dnsmasqNamespace, None, old(client.objects)) ==> client.writes == old(client.writes)
  {
    rec := new DeviceReconciler(cfg, lib, client, gate);
    owner, run := rec.EnsureAnchor(cfg.dnsmasqNamespace, AnchorOf(a), Managed(AggregateOf(a), ""),
                                   SoloGoals(a, cfg.dnsmasqNamespace, None), Run(client.objects, iset{}, []));
  }

  /** Plans and applies the one object. */
  method PublishOne(a: Agent, rec: DeviceReconciler, owner: Owner, tree: Tree, ghost run: Run)
    returns (ok: bool, plans: seq<ApplyPlan>)
    requires !a.DeviceAgent?
    requires rec.At(SoloGoals(a, rec.cfg.dnsmasqNamespace, None), run)
    requires run.done == iset{Key(ConfigMap, rec.cfg.dnsmasqNamespace, AnchorOf(a))} && run.order == []
    requires owner == OwnerIn(rec.cfg.dnsmasqNamespace, AnchorOf(a))
    requires rec.cfg.dryRun || ConfigMap in rec.client.served
    modifies rec.client`calls, rec.client`objects, rec.client`writes
    ensures rec.client.Valid()
    ensures SoloOutcome(rec.cfg.dryRun, a, rec.cfg.dnsmasqNamespace, Some(tree), run.start, rec.client.objects, ok, plans)
    ensures ok ==> CanPublish(a, rec.cfg, rec.client.served, run.start)
    ensures rec.client.Healthy() && CanPublish(a, rec.cfg, rec.client.served, run.start) ==> ok
    ensures rec.cfg.dryRun || SoloFixed(a, rec.cfg.dnsmasqNamespace, Some(tree), run.start) ==>
              rec.client.writes == old(rec.client.writes)
  {
    var k := Key(DnsHosts, rec.cfg.dnsmasqNamespace, AggregateOf(a));
    ghost var goal := SoloGoals(a, rec.cfg.dnsmasqNamespace, Some(tree));
    assert rec.At(goal, run) by {
      GoalsAgreeSoFar(SoloGoals(a, rec.cfg.dnsmasqNamespace, None), goal, run.start, rec.client.objects, run.done);
    }
    ghost var after;
    ok, plans, after := rec.PlanAndApply(k, tree, Managed(AggregateOf(a), ""), owner, [], goal, run);
    if !rec.cfg.dryRun {
      ProgressIsNear(goal, run.start, rec.client.objects, after.done);
      if ok {
        ProgressCompletes(goal, run.start, rec.client.objects, after.done);
      }
    }
    if ok {
      OnlyPlan(goal, after, plans, k);
    }
  }

  lemma GoalsAgreeSoFar(goal: Key -> Goal, goal': Key -> Goal, s: Store, t: Store, done: iset<Key>)
    requires forall k :: k in done ==> goal'(k) == goal(k)
    ensures Progress(goal, s, t, done) ==> Progress(goal', s, t, done)
  {
  }

  lemma OnlyPlan(goal: Key -> Goal, run: Run, plans: seq<ApplyPlan>, k: Key)
    requires Listed(goal, run, plans) && k in run.done && goal(k).Publish?
    requires forall x :: x in run.done && goal(x).Publish? ==> x == k
    ensures |plans| == 1 && PlanFor(goal, run.start, k, plans[0])
  {
    assert k in run.order;
    forall x ensures multiset(run.order)[x] == multiset{k}[x] {
      OccursOnce(run.order, x);
    }
    assert multiset(run.order) == multiset{k};
    assert |multiset(run.order)| == |run.order|;
    assert run.order[0] in run.order;
  }

  lemma BuiltMakes(lib: Lib, l: Listing, d0: seq<IngressBased.ListedRouter>, ds: seq<IngressBased.ListedRouter>,
                   ings: seq<IngressBased.Ingress>, routes: seq<IngressBased.Route>, spec: DnsHostsSpec)
    requires l.routers == IngressBased.Routers(d0) && multiset(ds) == multiset(d0)
    requires SortedBy(IngressBased.ListedName, ds)
    requires multiset(ings) == multiset(l.ingresses) && SortedBy(IngressBased.IngressKey, ings)
    requires multiset(routes) == multiset(l.routes) && SortedBy(IngressBased.RouteKey, routes)
    requires IngressBased.Builds(lib, IngressBased.Routers(ds), IngressBased.Claims(ings, routes), spec)
    ensures Makes(lib, l, spec)
  {
    var f := (r: IngressBased.ListedRouter) => multiset{r.router};
    RoutersImage(d0, f);
    RoutersImage(ds, f);
    ImagePermutes(ds, d0, f);
    var rs := IngressBased.Routers(ds);
    assert forall i :: 0 <= i < |ds| ==> IngressBased.RouterName(rs[i]) == IngressBased.ListedName(ds[i]);
    assert Arranged(l, rs, ings, routes);
  }

  lemma {:induction false} RoutersImage(ds: seq<IngressBased.ListedRouter>, f: IngressBased.ListedRouter -> multiset<IngressBased.Router>)
    requires forall r: IngressBased.ListedRouter :: f(r) == multiset{r.router}
    ensures multiset(IngressBased.Routers(ds)) == Image(ds, f)
  {
    var rs := IngressBased.Routers(ds);
    if ds != [] {
      RoutersImage(ds[1..], f);
      assert rs == [rs[0]] + IngressBased.Routers(ds[1..]);
    }
  }

  function RefreshedRouter(r: IngressBased.ListedRouter, ok: bool, errMsg: string): IngressBased.ListedRouter {
    r.(status := Status(r.generation, NetworkConditions(r.status.conditions, ok, errMsg)))
  }

  function RefreshedRouters(rs: seq<IngressBased.ListedRouter>, n: nat, ok: bool, errMsg: string): (r: seq<IngressBased.ListedRouter>)
    requires n <= |rs|
    ensures |r| == |rs|
  {
    seq(|rs|, i requires 0 <= i < |rs| => if i < n then RefreshedRouter(rs[i], ok, errMsg) else rs[i])
  }

  /** Unlike for devices and networks, a changed generation alone is no reason to write. */
  function StaleRouter(dry: bool, r: IngressBased.ListedRouter, ok: bool, errMsg: string): seq<StatusWrite> {
    var after := RefreshedRouter(r, ok, errMsg).status;
    if !dry && !ConditionsEqual(r.status.conditions, after.conditions) then [StatusWrite(OfRouter, r.router.name, after)] else []
  }

  function StaleRouters(dry: bool, rs: seq<IngressBased.ListedRouter>, ok: bool, errMsg: string): seq<StatusWrite> {
    if rs == [] then []
    else StaleRouters(dry, rs[..|rs| - 1], ok, errMsg) + StaleRouter(dry, rs[|rs| - 1], ok, errMsg)
  }

  lemma RefreshRouterStep(dry: bool, rs: seq<IngressBased.ListedRouter>, j: nat, ok: bool, errMsg: string)
    requires j < |rs|
    ensures StaleRouters(dry, rs[..j + 1], ok, errMsg) ==
              StaleRouters(dry, rs[..j], ok, errMsg) + StaleRouter(dry, rs[j], ok, errMsg)
    ensures RefreshedRouters(rs, j + 1, ok, errMsg) ==
              RefreshedRouters(rs, j, ok, errMsg)[j := RefreshedRouter(rs[j], ok, errMsg)]
  {
    assert rs[..j + 1][..j] == rs[..j];
  }

  /** What a pass does to the routers' statuses: on success all are refreshed and what changed is written. */
  ghost predicate RouterOutcome(dryRun: bool, ok: bool, sorted: seq<IngressBased.ListedRouter>,
                                routers: seq<IngressBased.ListedRouter>, before: seq<StatusWrite>, after: seq<StatusWrite>) {
    && routers == (if ok then RefreshedRouters(sorted, |sorted|, true, "") else sorted)
    && after == before + (if ok then StaleRouters(dryRun, sorted, true, "") else [])
  }

  /** `w` announces the final status of a router whose Ready has another status or reason than before, or is new. */
  ghost predicate RouterAnnouncement(r: IngressBased.ListedRouter, after: IngressBased.ListedRouter, w: StatusWrite) {
    Differs(r.status.conditions, after.status.conditions, "Ready") && w == StatusWrite(OfRouter, r.router.name, after.status)
  }

  lemma RouterAnnounced(r: IngressBased.ListedRouter, ok: bool, errMsg: string, w: StatusWrite)
    ensures w in StaleRouter(false, r, ok, errMsg) <==> RouterAnnouncement(r, RefreshedRouter(r, ok, errMsg), w)
  {
    SetComparesEqual(r.status.conditions,
                     if ok then Condition(READY, "True", "Synced", "") else Condition(READY, "False", "NotSynced", errMsg));
  }

  /** Exactly the routers' statuses that changed are written, each as it then stands; the generation does not count. */
  lemma {:induction false} RouterWritesExact(rs: seq<IngressBased.ListedRouter>, ok: bool, errMsg: string, w: StatusWrite)
    ensures w in StaleRouters(false, rs, ok, errMsg) <==>
              exists j :: 0 <= j < |rs| && RouterAnnouncement(rs[j], RefreshedRouters(rs, |rs|, ok, errMsg)[j], w)
  {
    if rs != [] {
      var front, last := rs[..|rs| - 1], rs[|rs| - 1];
      var all, before := RefreshedRouters(rs, |rs|, ok, errMsg), RefreshedRouters(front, |front|, ok, errMsg);
      RouterWritesExact(front, ok, errMsg, w);
      RouterAnnounced(last, ok, errMsg, w);
      if j :| 0 <= j < |front| && RouterAnnouncement(front[j], before[j], w) {
        assert RouterAnnouncement(rs[j], all[j], w);
      }
      if j :| 0 <= j < |rs| && RouterAnnouncement(rs[j], all[j], w) {
        assert j < |front| ==> RouterAnnouncement(front[j], before[j], w);
      }
    }
  }

  /** So after a live pass: what was written is exactly that, and nothing unless it succeeded. */
  lemma RouterStatusesWritten(ok: bool, sorted: seq<IngressBased.ListedRouter>, routers: seq<IngressBased.ListedRouter>,
                              before: seq<StatusWrite>, after: seq<StatusWrite>, w: StatusWrite)
    requires RouterOutcome(false, ok, sorted, routers, before, after)
    ensures |before| <= |after| && after[..|before|] == before && |routers| == |sorted|
    ensures w in after[|before|..] <==>
              ok && exists j :: 0 <= j < |sorted| && RouterAnnouncement(sorted[j], routers[j], w)
  {
    if ok {
      RouterWritesExact(sorted, true, "", w);
    }
  }

  /** A second pass over refreshed routers, in any order, writes no status. */
  lemma {:induction false} RouterStatusesSettle(rs: seq<IngressBased.ListedRouter>, rs': seq<IngressBased.ListedRouter>)
    requires forall r :: r in rs' ==> r in RefreshedRouters(rs, |rs|, true, "")
    ensures StaleRouters(false, rs', true, "") == []
    decreases |rs'|
  {
    if rs' != [] {
      var front, last := rs'[..|rs'| - 1], rs'[|rs'| - 1];
      assert rs' == front + [last] && last in rs';
      RouterStatusesSettle(rs, front);
      RefreshedNotStale(rs, last);
    }
  }

  lemma RefreshedNotStale(rs: seq<IngressBased.ListedRouter>, r: IngressBased.ListedRouter)
    requires r in RefreshedRouters(rs, |rs|, true, "")
    ensures StaleRouter(false, r, true, "") == []
  {
    var i :| 0 <= i < |rs| && RefreshedRouters(rs, |rs|, true, "")[i] == r;
    var c := Condition(READY, "True", "Synced", "");
    SetConditionMeaning(rs[i].status.conditions, c);
    SetConditionStable(r.status.conditions, c);
  }

  /** Builds the `ingress-based` object from ingresses, routes and routers. */
  class IngressReconciler {
    const cfg: Config
    const lib: Lib
    const client: Client
    const gate: Gate

    constructor (cfg: Config, lib: Lib, client: Client, gate: Gate)
      ensures this.cfg == cfg && this.lib == lib && this.client == client && this.gate == gate
    {
      this.cfg, this.lib, this.client, this.gate := cfg, lib, client, gate;
    }

    /** What a pass works from: routes only if they are to be used. */
    ghost function Inputs(routers: array<IngressBased.ListedRouter>, ingresses: array<IngressBased.Ingress>,
                          routes: array<IngressBased.Route>): Listing
      reads routers, ingresses, routes
    {
      Listing(IngressBased.Routers(routers[..]), ingresses[..], if cfg.useHttpRoutes then routes[..] else [])
    }

    method ListAll() returns (listed: bool)
      modifies client`calls
      ensures client.Healthy() ==> listed
    {
      listed := client.ListInputs();
      if !listed {
        return;
      }
      listed := client.ListInputs();
      if listed && cfg.useHttpRoutes {
        listed := client.ListInputs();
      }
    }

    /** Lists everything and computes the object's spec. */
    method DesiredTree(routers: array<IngressBased.ListedRouter>, ingresses: array<IngressBased.Ingress>,
                       routes: array<IngressBased.Route>)
      returns (tree: Option<Tree>)
      requires lib.Valid()
      modifies client`calls, routers, ingresses, routes
      ensures tree.Some? ==> IngressTreeFor(lib, old(Inputs(routers, ingresses, routes)), tree.value)
      ensures multiset(routers[..]) == multiset(old(routers[..]))
      ensures if tree.Some? then SortedBy(IngressBased.ListedName, routers[..]) else routers[..] == old(routers[..])
      ensures client.Healthy() ==> tree.Some?
    {
      tree := None;
      ghost var listing, listed0 := Inputs(routers, ingresses, routes), routers[..];
      var listed := ListAll();
      if listed {
        var used := new IngressBased.Route[0];
        if cfg.useHttpRoutes {
          used := routes;
        }
        var spec := IngressBased.BuildIngressBased(lib, routers, ingresses, used);
        BuiltMakes(lib, listing, listed0, routers[..], ingresses[..], used[..], spec);
        tree := Some(EncodeDnsHosts(spec));
      }
    }

    /** Recomputes the status of one router in place, and writes it if a condition changed. */
    method RefreshRouter(routers: array<IngressBased.ListedRouter>, j: nat, ok: bool, errMsg: string)
      requires j < routers.Length
      modifies routers, client`calls, client`statusWrites
      ensures routers[..] == old(routers[..])[j := RefreshedRouter(old(routers[j]), ok, errMsg)]
      ensures client.statusWrites == old(client.statusWrites) + StaleRouter(cfg.dryRun, old(routers[j]), ok, errMsg)
    {
      var ir := routers[j];
      var conds;
      if ok {
        conds := SetCondition(ir.status.conditions, Condition(READY, "True", "Synced", ""));
      } else {
        conds := SetCondition(ir.status.conditions, Condition(READY, "False", "NotSynced", errMsg));
      }
      var status := Status(ir.generation, conds);
      routers[j] := ir.(status := status);
      if ConditionsEqual(ir.status.conditions, conds) {
        return;
      }
      if cfg.dryRun {
        return;
      }
      client.UpdateStatus(OfRouter, ir.router.name, status);
    }

    /** Recomputes the status of every router in place, and writes those with a changed condition. */
    method UpdateRouterStatuses(routers: array<IngressBased.ListedRouter>, ok: bool, errMsg: string)
      modifies routers, client`calls, client`statusWrites
      ensures routers[..] == RefreshedRouters(old(routers[..]), routers.Length, ok, errMsg)
      ensures client.statusWrites == old(client.statusWrites) + StaleRouters(cfg.dryRun, old(routers[..]), ok, errMsg)
    {
      ghost var before := routers[..];
      for j := 0 to routers.Length
        invariant routers[..] == RefreshedRouters(before, j, ok, errMsg)
        invariant client.statusWrites == old(client.statusWrites) + StaleRouters(cfg.dryRun, before[..j], ok, errMsg)
      {
        RefreshRouterStep(cfg.dryRun, before, j, ok, errMsg);
        assert routers[..][j] == before[j];
        RefreshRouter(routers, j, ok, errMsg);
      }
      assert before[..|before|] == before;
    }

    /** The pass up to the statuses. */
    method PublishIngress(routers: array<IngressBased.ListedRouter>, ingresses: array<IngressBased.Ingress>,
                          routes: array<IngressBased.Route>)
      returns (ok: bool, plans: seq<ApplyPlan>, ghost tree: Option<Tree>)
      requires client.Valid() && lib.Valid()
      modifies client`calls, client`objects, client`writes, routers, ingresses, routes
      ensures client.Valid()
      ensures tree.Some? ==> IngressTreeFor(lib, old(Inputs(routers, ingresses, routes)), tree.value)
      ensures SoloOutcome(cfg.dryRun, IngressAgent, cfg.dnsmasqNamespace, tree, old(client.objects), client.objects, ok, plans)
      ensures ok ==> tree.Some?
      ensures client.Healthy() ==> (ok <==> CanPublish(IngressAgent, cfg, client.served, old(client.objects)))
      ensures cfg.dryRun || SoloFixed(IngressAgent, cfg.dnsmasqNamespace, tree, old(client.objects)) ==>
                client.writes == old(client.writes)
      ensures multiset(routers[..]) == multiset(old(routers[..]))
    {
      ok, plans, tree := false, [], None;
      ghost var start := client.objects;
      var rec, owner;
      ghost var run;
      rec, owner, run := EnsureOwnAnchor(IngressAgent, cfg, lib, client, gate);
      StillNear(cfg.dryRun, IngressAgent, cfg.dnsmasqNamespace, run, client.objects);
      if owner.Some? {
        assert Inputs(routers, ingresses, routes) == old(Inputs(routers, ingresses, routes));
        var desired := DesiredTree(routers, ingresses, routes);
        tree := desired;
        if desired.Some? {
          ok, plans := PublishOne(IngressAgent, rec, owner.value, desired.value, run);
        }
      }
      if SoloFixed(IngressAgent, cfg.dnsmasqNamespace, tree, start) {
        FixedWithoutTree(IngressAgent, cfg.dnsmasqNamespace, tree, start);
      }
    }

    /** One pass. `tree` is what the listed resources amount to, absent if they could not be listed; `sorted` is
        the arrangement of the routers it worked on. */
    method ReconcileIngress(routers: array<IngressBased.ListedRouter>, ingresses: array<IngressBased.Ingress>,
                            routes: array<IngressBased.Route>)
      returns (ok: bool, plans: seq<ApplyPlan>, ghost tree: Option<Tree>, ghost sorted: seq<IngressBased.ListedRouter>)
      requires client.Valid() && lib.Valid()
      modifies client, routers, ingresses, routes
      ensures client.Valid()
      ensures tree.Some? ==> IngressTreeFor(lib, old(Inputs(routers, ingresses, routes)), tree.value)
      ensures SoloOutcome(cfg.dryRun, IngressAgent, cfg.dnsmasqNamespace, tree, old(client.objects), client.objects, ok, plans)
      ensures ok ==> tree.Some?
      ensures client.Healthy() ==> (ok <==> CanPublish(IngressAgent, cfg, client.served, old(client.objects)))
      ensures cfg.dryRun || SoloFixed(IngressAgent, cfg.dnsmasqNamespace, tree, old(client.objects)) ==>
                client.writes == old(client.writes)
      ensures multiset(sorted) == multiset(old(routers[..]))
      ensures RouterOutcome(cfg.dryRun, ok, sorted, routers[..], old(client.statusWrites), client.statusWrites)
    {
      ok, plans, tree := PublishIngress(routers, ingresses, routes);
      sorted := routers[..];
      if ok {
        UpdateRouterStatuses(routers, true, "");
      }
    }

    /** The entry point: one pass at a time on the target namespace, released however the pass ends. */
    method Reconcile(routers: array<IngressBased.ListedRouter>, ingresses: array<IngressBased.Ingress>,
                     routes: array<IngressBased.Route>)
      returns (ok: bool, requeue: bool, plans: seq<ApplyPlan>, ghost tree: Option<Tree>,
               ghost sorted: seq<IngressBased.ListedRouter>)
      requires client.Valid() && lib.Valid()
      modifies gate, client, routers, ingresses, routes
      ensures client.Valid() && gate.keys == old(gate.keys)
      ensures requeue <==> cfg.enableIngress && cfg.dnsmasqNamespace in old(gate.keys)
      ensures requeue || !cfg.enableIngress ==>
                ok && unchanged(client) && unchanged(routers) && unchanged(ingresses) && unchanged(routes)
      ensures !requeue && cfg.enableIngress ==>
                && SoloOutcome(cfg.dryRun, IngressAgent, cfg.dnsmasqNamespace, tree, old(client.objects), client.objects, ok, plans)
                && (ok ==> tree.Some?) && multiset(sorted) == multiset(old(routers[..]))
                && RouterOutcome(cfg.dryRun, ok, sorted, routers[..], old(client.statusWrites), client.statusWrites)
      ensures tree.Some? ==> IngressTreeFor(lib, old(Inputs(routers, ingresses, routes)), tree.value)
      ensures !requeue && cfg.enableIngress && client.Healthy() ==>
                (ok <==> CanPublish(IngressAgent, cfg, client.served, old(client.objects)))
      ensures cfg.dryRun || SoloFixed(IngressAgent, cfg.dnsmasqNamespace, tree, old(client.objects)) ==>
                client.writes == old(client.writes)
    {
      ok, requeue, plans, tree, sorted := true, false, [], None, [];
      if !cfg.enableIngress {
        return;
      }
      var entered := gate.Enter(cfg.dnsmasqNamespace);
      if !entered {
        requeue := true;
        return;
      }
      ok, plans, tree, sorted := ReconcileIngress(routers, ingresses, routes);
      gate.Leave(cfg.dnsmasqNamespace);
    }
  }

  /** Builds the `load-balancer-based` object from services. */
  class LoadBalancerReconciler {
    const cfg: Config
    const lib: Lib
    const client: Client
    const gate: Gate

    constructor (cfg: Config, lib: Lib, client: Client, gate: Gate)
      ensures this.cfg == cfg && this.lib == lib && this.client == client && this.gate == gate
    {
      this.cfg, this.lib, this.client, this.gate := cfg, lib, client, gate;
    }

    /** One pass. `tree` is what the services amount to, absent if they could not be listed. */
    method ReconcileLoadBalancer(services: array<LoadBalancerBased.Service>)
      returns (ok: bool, plans: seq<ApplyPlan>, ghost tree: Option<Tree>)
      requires client.Valid() && lib.Valid()
      modifies client`calls, client`objects, client`writes, services
      ensures client.Valid()
      ensures tree.Some? ==> ServicesTreeFor(lib, cfg.loadBalancerSuffix, old(services[..]), tree.value)
      ensures SoloOutcome(cfg.dryRun, LoadBalancerAgent, cfg.dnsmasqNamespace, tree, old(client.objects), client.objects, ok, plans)
      ensures ok ==> tree.Some?
      ensures client.Healthy() ==> (ok <==> CanPublish(LoadBalancerAgent, cfg, client.served, old(client.objects)))
      ensures cfg.dryRun || SoloFixed(LoadBalancerAgent, cfg.dnsmasqNamespace, tree, old(client.objects)) ==>
                client.writes == old(client.writes)
    {
      ok, plans, tree := false, [], None;
      ghost var start := client.objects;
      var rec, owner;
      ghost var run;
      rec, owner, run := EnsureOwnAnchor(LoadBalancerAgent, cfg, lib, client, gate);
      StillNear(cfg.dryRun, LoadBalancerAgent, cfg.dnsmasqNamespace, run, client.objects);
      if owner.None? {
        return;
      }
      var listed := client.ListInputs();
      if listed {
        var spec := LoadBalancerBased.BuildLoadBalancerBased(lib, services, cfg.loadBalancerSuffix);
        var obj := EncodeDnsHosts(spec);
        tree := Some(obj);
        ok, plans := PublishOne(LoadBalancerAgent, rec, owner.value, obj, run);
      }
      if SoloFixed(LoadBalancerAgent, cfg.dnsmasqNamespace, tree, start) {
        FixedWithoutTree(LoadBalancerAgent, cfg.dnsmasqNamespace, tree, start);
      }
    }

    /** The entry point: one pass at a time on the target namespace, released however the pass ends. */
    method Reconcile(services: array<LoadBalancerBased.Service>)
      returns (ok: bool, requeue: bool, plans: seq<ApplyPlan>, ghost tree: Option<Tree>)
      requires client.Valid() && lib.Valid()
      modifies gate, client, services
      ensures client.Valid() && gate.keys == old(gate.keys)
      ensures requeue <==> cfg.enableLoadBalancer && cfg.dnsmasqNamespace in old(gate.keys)
      ensures requeue || !cfg.enableLoadBalancer ==> ok && unchanged(client) && unchanged(services)
      ensures !requeue && cfg.enableLoadBalancer ==>
                && SoloOutcome(cfg.dryRun, LoadBalancerAgent, cfg.dnsmasqNamespace, tree, old(client.objects), client.objects,
                               ok, plans)
                && (ok ==> tree.Some?)
      ensures tree.Some? ==> ServicesTreeFor(lib, cfg.loadBalancerSuffix, old(services[..]), tree.value)
      ensures !requeue && cfg.enableLoadBalancer && client.Healthy() ==>
                (ok <==> CanPublish(LoadBalancerAgent, cfg, client.served, old(client.objects)))
      ensures cfg.dryRun || SoloFixed(LoadBalancerAgent, cfg.dnsmasqNamespace, tree, old(client.objects)) ==>
                client.writes == old(client.writes)
    {
      ok, requeue, plans, tree := true, false, [], None;
      if !cfg.enableLoadBalancer {
        return;
      }
      var entered := gate.Enter(cfg.dnsmasqNamespace);
      if !entered {
        requeue := true;
        return;
      }
      ok, plans, tree := ReconcileLoadBalancer(services);
      gate.Leave(cfg.dnsmasqNamespace);
    }
  }
}

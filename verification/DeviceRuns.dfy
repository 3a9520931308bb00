/** Whole sequences of device runs: retries, repetitions, dry runs, and agreement with the statuses. */
module DeviceRuns {
  import opened Kube
  import opened Ensure
  import opened Ordering
  import opened Dnsmasq
  import opened Homelab
  import opened Goals
  import opened StatusConditions
  import opened DeviceBased
  import opened DeviceBasedProperties
  import opened DeviceController
  import Interleaving

  /** The resources have unique names. */
  ghost predicate UniqueNames(p: Pass) {
    DistinctBy(DeviceName, p.devices) && DistinctBy(NetworkName, p.networks)
  }

  /** The two passes listed the same resources, in any order and with any statuses. */
  ghost predicate SameListing(p: Pass, q: Pass) {
    SameResources(p.devices, p.networks, q.devices, q.networks)
  }

  lemma SameInputs(lib: Lib, cfg: Config, p: Pass, q: Pass)
    requires PassOf(lib, cfg, p) && PassOf(lib, cfg, q) && UniqueNames(p) && SameListing(p, q)
    requires p.inputs.Some? && q.inputs.Some?
    ensures p.inputs == q.inputs
  {
    InputsUnique(lib, cfg, p.devices, p.networks, q.devices, q.networks, p.inputs.value, q.inputs.value);
  }

  /** Crash and retry absorption: however many passes died, at whatever API call, with listings and maps in
      whatever order, and whatever statuses were written in between, the pass that completes leaves exactly the
      store that one uninterrupted pass from the original store leaves. */
  lemma RetriesAbsorbed(lib: Lib, cfg: Config, passes: seq<Pass>, direct: Pass)
    requires !cfg.dryRun && passes != []
    requires PassOf(lib, cfg, direct) && direct.ok && UniqueNames(direct) && direct.before == passes[0].before
    requires forall j :: 0 <= j < |passes| ==> PassOf(lib, cfg, passes[j]) && SameListing(direct, passes[j])
    requires forall j :: 0 <= j < |passes| - 1 ==> passes[j + 1].before == passes[j].after
    requires passes[|passes| - 1].ok
    ensures passes[|passes| - 1].after == direct.after
  {
    forall j | 0 <= j < |passes| ensures Stops(direct, passes[j]) {
      StopsAlike(lib, cfg, direct, passes[j]);
    }
    StopsAlike(lib, cfg, direct, direct);
    StopsAbsorbed(direct, passes);
  }

  /** Pass `p` stopped, or succeeded, at the goals of `direct`. */
  ghost predicate Stops(direct: Pass, p: Pass)
    requires direct.inputs.Some?
  {
    Near(GoalsOf(direct.inputs.value), p.before, p.after)
    && (p.ok ==> Settled(GoalsOf(direct.inputs.value), p.before, p.after))
  }

  lemma StopsAlike(lib: Lib, cfg: Config, direct: Pass, p: Pass)
    requires !cfg.dryRun && PassOf(lib, cfg, direct) && PassOf(lib, cfg, p) && direct.inputs.Some?
    requires UniqueNames(direct) && SameListing(direct, p)
    ensures Stops(direct, p)
  {
    if p.inputs.Some? {
      SameInputs(lib, cfg, direct, p);
    }
  }

  lemma StopsAbsorbed(direct: Pass, passes: seq<Pass>)
    requires direct.inputs.Some? && Stops(direct, direct) && direct.ok && passes != [] && direct.before == passes[0].before
    requires forall j :: 0 <= j < |passes| ==> Stops(direct, passes[j])
    requires forall j :: 0 <= j < |passes| - 1 ==> passes[j + 1].before == passes[j].after
    requires passes[|passes| - 1].ok
    ensures passes[|passes| - 1].after == direct.after
  {
    var goal := GoalsOf(direct.inputs.value);
    var stops := seq(|passes|, j requires 0 <= j < |passes| => passes[j].before);
    forall j | 0 <= j < |stops| - 1 ensures Near(goal, stops[j], stops[j + 1]) {
      assert Stops(direct, passes[j]);
    }
    CrashesAbsorbed(goal, stops, passes[|passes| - 1].after, direct.after);
  }

  /** Idempotence: a pass after a completed one, on the same resources, starts from a fixed point. It writes no
      object, all its plans say "unchanged", and wherever it stops the store is the same. */
  lemma SecondRunIdle(lib: Lib, cfg: Config, first: Pass, second: Pass)
    requires !cfg.dryRun && PassOf(lib, cfg, first) && PassOf(lib, cfg, second)
    requires first.ok && UniqueNames(first) && SameListing(first, second) && second.before == first.after
    ensures second.writes == 0 && second.after == second.before
    ensures second.ok ==> forall p :: p in second.plans ==> p.action == Unchanged
  {
    if second.inputs.Some? {
      SameInputs(lib, cfg, first, second);
      SettledIsFixed(GoalsOf(first.inputs.value), first.before, first.after);
      StopsAlike(lib, cfg, first, second);
      NearFixedPoint(GoalsOf(first.inputs.value), second.before, second.after);
      if second.ok {
        PlansUnchanged(first.inputs.value, first.before, first.after, second.plans, second.order);
      }
    }
  }

  lemma PlansUnchanged(i: Inputs, s: Store, t: Store, plans: seq<ApplyPlan>, order: seq<Key>)
    requires Settled(GoalsOf(i), s, t) && PlansComplete(GoalsOf(i), i, t, plans, order)
    ensures forall p :: p in plans ==> p.action == Unchanged
  {
    forall p | p in plans ensures p.action == Unchanged {
      var j :| 0 <= j < |plans| && plans[j] == p;
      assert order[j] in order;
      SettledPlansUnchanged(i, s, t, order[j], p);
    }
  }

  lemma NearFixedPoint(goal: Key -> Goal, s: Store, t: Store)
    requires Settled(goal, s, s) && Near(goal, s, t)
    ensures t == s
  {
    forall k ensures Lookup(t, k) == Lookup(s, k) {
      assert Lookup(s, k) == Settle(goal(k), Lookup(s, k));
    }
    StoresEqual(t, s);
  }

  /** The resources as the pass left them are what `q` lists, in any order. */
  ghost predicate ListsWhatWasLeft(p: Pass, q: Pass) {
    multiset(q.devices) == multiset(p.devicesAfter) && multiset(q.networks) == multiset(p.networksAfter)
  }

  /** What a successful pass leaves: its arrangement, refreshed. */
  ghost predicate Left(p: Pass) {
    && multiset(p.sortedDevices) == multiset(p.devices) && multiset(p.sortedNetworks) == multiset(p.networks)
    && p.devicesAfter == RefreshedUpTo(p.sortedDevices, |p.sortedDevices|, NetworkNames(p.sortedNetworks), true, "")
    && p.networksAfter == RefreshedNetworks(p.sortedNetworks, |p.sortedNetworks|, true, "")
  }

  lemma SuccessLeaves(lib: Lib, cfg: Config, p: Pass)
    requires PassOf(lib, cfg, p) && p.ok
    ensures Left(p)
  {
  }

  lemma LeftIsSame(p: Pass, q: Pass)
    requires Left(p) && ListsWhatWasLeft(p, q)
    ensures SameListing(p, q)
  {
    BaresPermute(p.devices, p.networks, p.sortedDevices, p.sortedNetworks);
    BaresPermute(p.devicesAfter, p.networksAfter, q.devices, q.networks);
    assert BareDevices(p.devicesAfter) == BareDevices(p.sortedDevices);
    assert BareNetworks(p.networksAfter) == BareNetworks(p.sortedNetworks);
  }

  lemma SameNetworkNames(p: Pass, q: Pass)
    requires Left(p) && multiset(q.networks) == multiset(p.networksAfter) && multiset(q.sortedNetworks) == multiset(q.networks)
    ensures NetworkNames(q.sortedNetworks) == NetworkNames(p.sortedNetworks)
  {
    SameMembers(q.sortedNetworks, p.networksAfter);
    forall name ensures name in NetworkNames(p.sortedNetworks) <==> name in NetworkNames(p.networksAfter) {
      if n :| n in p.sortedNetworks && n.name == name {
        var j :| 0 <= j < |p.sortedNetworks| && p.sortedNetworks[j] == n;
        assert p.networksAfter[j] in p.networksAfter && p.networksAfter[j].name == name;
      }
    }
  }

  /** The whole of a second pass is silent: on what a completed pass left, in any order, it writes no object and,
      unless the options object fails, no status; and if the API answers every call in both it succeeds. */
  lemma SecondPassSilent(lib: Lib, cfg: Config, served: set<Kind>, first: Pass, second: Pass)
    requires !cfg.dryRun && PassOf(lib, cfg, first) && PassOf(lib, cfg, second)
    requires first.ok && UniqueNames(first) && ListsWhatWasLeft(first, second) && second.before == first.after
    ensures second.writes == 0 && second.after == second.before
    ensures second.optionsOk ==> second.statusWrites == []
    ensures Unhindered(cfg, served, first) && Unhindered(cfg, served, second) ==> second.ok
  {
    SuccessLeaves(lib, cfg, first);
    LeftIsSame(first, second);
    SecondRunIdle(lib, cfg, first, second);
    SecondSucceeds(lib, cfg, first, second);
    SecondStatuses(lib, cfg, first, second);
  }

  lemma SecondSucceeds(lib: Lib, cfg: Config, first: Pass, second: Pass)
    requires !cfg.dryRun && PassOf(lib, cfg, first) && PassOf(lib, cfg, second)
    requires first.ok && UniqueNames(first) && SameListing(first, second) && second.before == first.after
    ensures second.inputs.Some? ==> second.inputs == first.inputs && Comparable(second.inputs.value, second.before)
  {
    if second.inputs.Some? {
      SameInputs(lib, cfg, first, second);
      SettledIsComparable(first.inputs.value, first.before, first.after);
    }
  }

  lemma SecondStatuses(lib: Lib, cfg: Config, first: Pass, second: Pass)
    requires !cfg.dryRun && PassOf(lib, cfg, second) && Left(first) && ListsWhatWasLeft(first, second)
    ensures second.optionsOk ==> second.statusWrites == []
  {
    if second.ok {
      SameMembers(second.sortedDevices, first.devicesAfter);
      SameMembers(second.sortedNetworks, first.networksAfter);
      SameNetworkNames(first, second);
      StatusesSettle(first.sortedDevices, first.sortedNetworks, NetworkNames(first.sortedNetworks), true, "", "",
                     second.sortedDevices, second.sortedNetworks);
    }
  }

  lemma SettledIsComparable(i: Inputs, s: Store, t: Store)
    requires Settled(GoalsOf(i), s, t)
    ensures Comparable(i, t)
  {
    forall k | Published(i, k) ensures WellFormed(t, k) {
      PublishedExact(i, k);
      assert Lookup(t, k) == Settle(GoalOf(i, k), Lookup(s, k));
    }
  }

  /** A dry pass writes nothing at all. */
  lemma DryPassWritesNothing(lib: Lib, cfg: Config, p: Pass)
    requires cfg.dryRun && PassOf(lib, cfg, p)
    ensures p.after == p.before && p.writes == 0 && p.statusWrites == []
  {
    if p.ok {
      DryStatusesWriteNothing(p.sortedDevices, p.sortedNetworks, NetworkNames(p.sortedNetworks), true, "");
    } else {
      DryStatusesWriteNothing(p.sortedDevices, p.sortedNetworks, NetworkNames(p.sortedNetworks), false, p.errText);
    }
  }

  /** What happened to the spec of `k` between two stores, in the words of a plan. */
  function Happened(s: Store, t: Store, k: Key): Action
    requires k in t && WellFormed(s, k) && WellFormed(t, k)
  {
    if k !in s then Create
    else if ReadAlike(s[k].spec, t[k].spec) then Unchanged
    else Update
  }

  /** Dry-run fidelity: a dry run and a live one from the same store report the same plans, and each plan
      of the dry run names exactly what the live run then did to that object. */
  lemma DryRunForetells(i: Inputs, s: Store, t: Store, dry: seq<ApplyPlan>, dryOrder: seq<Key>,
                        live: seq<ApplyPlan>, liveOrder: seq<Key>)
    requires PlansComplete(GoalsOf(i), i, s, dry, dryOrder)
    requires PlansComplete(GoalsOf(i), i, s, live, liveOrder) && Settled(GoalsOf(i), s, t)
    ensures multiset(dry) == multiset(live)
    ensures forall j :: 0 <= j < |dryOrder| ==>
              var k := dryOrder[j];
              && k in t && WellFormed(s, k) && WellFormed(t, k)
              && dry[j] == ApplyPlan(Happened(s, t, k), GroupKind(k.kind), k.ns, k.name)
  {
    PlansOrderIrrelevant(i, s, dry, dryOrder, live, liveOrder);
    forall j | 0 <= j < |dryOrder|
      ensures var k := dryOrder[j];
              && k in t && WellFormed(s, k) && WellFormed(t, k)
              && dry[j] == ApplyPlan(Happened(s, t, k), GroupKind(k.kind), k.ns, k.name)
    {
      assert dryOrder[j] in dryOrder;
      PlanForetells(i, s, t, dryOrder[j], dry[j]);
    }
  }

  /** What a pass leaves in the statuses of the listed devices: on success Ready says whether the builder placed
      the device, and agrees with NetworkAvailable; after a failed options object nothing is Ready. */
  lemma ReadyIffPlaced(lib: Lib, cfg: Config, p: Pass, d: Device)
    requires PassOf(lib, cfg, p) && UniqueNames(p) && (p.ok || !p.optionsOk) && d in p.devicesAfter
    ensures var ready, available := ConditionOf(d.status.conditions, READY), ConditionOf(d.status.conditions, NETWORK_AVAILABLE);
            && ready.Some? && available.Some? && d.status.observedGeneration == d.generation
            && (available.value.status == "True" <==> Placed(p.sortedNetworks, d))
            && (ready.value.status == "True" <==> p.ok && Placed(p.sortedNetworks, d))
  {
    var names := NetworkNames(p.sortedNetworks);
    RefreshedSay(p.sortedDevices, names, p.ok, if p.ok then "" else p.errText);
    PlacedMeaning(p.networks, p.sortedNetworks, d);
    SameMembers(p.sortedNetworks, p.networks);
    if d.spec.network != "" && d.spec.network in names {
      var n :| n in p.networks && n.name == d.spec.network;
      assert OnNetwork(p.networks, d, n);
    }
  }

  /** And every listed network is Ready after success. */
  lemma NetworksReady(lib: Lib, cfg: Config, p: Pass, n: Network)
    requires PassOf(lib, cfg, p) && p.ok && n in p.networksAfter
    ensures NetworkReady(n)
  {
    RefreshedReady(p.sortedNetworks);
  }

  lemma {:induction false} NoneStale(dry: bool, devices: seq<Device>, networks: seq<Network>, names: set<string>,
                                     ok: bool, errMsg: string)
    ensures (forall d :: d in devices ==> StaleDevice(dry, d, names, ok, errMsg) == [])
            ==> StaleDevices(dry, devices, names, ok, errMsg) == []
    ensures (forall n :: n in networks ==> StaleNetwork(dry, n, ok, errMsg) == []) ==> StaleNetworks(dry, networks, ok, errMsg) == []
    decreases |devices| + |networks|
  {
    if devices != [] {
      assert devices == devices[..|devices| - 1] + [devices[|devices| - 1]];
      NoneStale(dry, devices[..|devices| - 1], networks, names, ok, errMsg);
    }
    if networks != [] {
      assert networks == networks[..|networks| - 1] + [networks[|networks| - 1]];
      NoneStale(dry, devices, networks[..|networks| - 1], names, ok, errMsg);
    }
  }

  /** Status fixpoint: once the statuses of a pass are in place, a second one with the same verdict writes no
      status of a device or network, in whatever order they are taken and even if the error text is another. */
  lemma StatusesSettle(devices: seq<Device>, networks: seq<Network>, names: set<string>, ok: bool, errMsg: string,
                       errMsg': string, devices': seq<Device>, networks': seq<Network>)
    requires forall d :: d in devices' ==> d in RefreshedUpTo(devices, |devices|, names, ok, errMsg)
    requires forall n :: n in networks' ==> n in RefreshedNetworks(networks, |networks|, ok, errMsg)
    ensures StaleDevices(false, devices', names, ok, errMsg') == []
    ensures StaleNetworks(false, networks', ok, errMsg') == []
  {
    forall d | d in devices' ensures StaleDevice(false, d, names, ok, errMsg') == [] {
      var i :| 0 <= i < |devices| && d == Refreshed(devices[i], names, ok, errMsg);
      StatusFixpoint(devices[i], names, ok, errMsg, errMsg');
    }
    forall n | n in networks' ensures StaleNetwork(false, n, ok, errMsg') == [] {
      var i :| 0 <= i < |networks| && n == RefreshedNetwork(networks[i], ok, errMsg);
      NetworkStatusFixpoint(networks[i], ok, errMsg, errMsg');
    }
    NoneStale(false, devices', networks', names, ok, errMsg');
  }

  lemma CollectWithout<T, U>(a: seq<T>, d: T, b: seq<T>, f: T -> seq<U>)
    requires f(d) == []
    ensures Collect(a + [d] + b, f) == Collect(a + b, f)
  {
    CollectConcat(a + [d], b, f);
    CollectConcat(a, [d], f);
    CollectConcat(a, b, f);
    CollectTwo(d, d, f);
  }

  lemma {:induction false} RadiusWithout(cfg: Config, ns: seq<Network>, a: seq<Device>, d: Device, b: seq<Device>, name: string)
    requires !Placed(ns, d)
    ensures RadiusOf(cfg, ns, a + [d] + b, name) == RadiusOf(cfg, ns, a + b, name)
  {
    var with, without := a + [d] + b, a + b;
    if b == [] {
      assert with[..|with| - 1] == a && without == a;
    } else {
      var b' := b[..|b| - 1];
      assert with[..|with| - 1] == a + [d] + b' && without[..|without| - 1] == a + b';
      RadiusWithout(cfg, ns, a, d, b', name);
    }
  }

  /** A device that was not placed contributes nothing: the output is that of the other devices. */
  lemma SkippedContributesNothing(lib: Lib, cfg: Config, a: seq<Device>, d: Device, b: seq<Device>, ns: seq<Network>,
                                  out: Output)
    requires !Placed(ns, d)
    ensures Builds(lib, cfg, a + [d] + b, ns, out) <==> Builds(lib, cfg, a + b, ns, out)
  {
    forall r ensures DhcpRaw(ns, a + [d] + b, r) == DhcpRaw(ns, a + b, r) {
      CollectWithout(a, d, b, x => DhcpEntries(ns, r, x));
    }
    forall r ensures DnsRaw(cfg, ns, a + [d] + b, r) == DnsRaw(cfg, ns, a + b, r) {
      CollectWithout(a, d, b, x => DnsEntries(cfg, ns, r, x));
    }
    forall name ensures RadiusOf(cfg, ns, a + [d] + b, name) == RadiusOf(cfg, ns, a + b, name) {
      RadiusWithout(cfg, ns, a, d, b, name);
    }
    BuildAlike(lib, cfg, a + [d] + b, ns, a + b, ns, out);
  }

  lemma OneDhcpDevice(lib: Lib, cfg: Config, d: Device, n: Network)
    requires n.name != "" && d.spec.network == n.name && d.spec.dhcp && d.spec.ip == ""
    ensures BuildsDhcp([d], [n], map[ResourceName(n.name) := DhcpHostsSpec("", [DhcpEntry(d)])])
    ensures BuildsDns(lib, cfg, [d], [n], map[])
  {
    assert NetworkNamed([n], n.name) == Some(n);
    forall r ensures DhcpRaw([n], [d], r) == (if r == ResourceName(n.name) then [DhcpEntry(d)] else []) {
      CollectTwo(d, d, x => DhcpEntries([n], r, x));
    }
    forall r ensures DnsRaw(cfg, [n], [d], r) == [] {
      CollectTwo(d, d, x => DnsEntries(cfg, [n], r, x));
    }
  }

  lemma OneRadiusDevice(cfg: Config, d: Device, n: Network) returns (radius: map<string, Tree>)
    requires n.name != "" && d.spec.network == n.name
    ensures BuildsRadius(cfg, [d], [n], radius)
  {
    assert NetworkNamed([n], n.name) == Some(n);
    radius := if RadiusEligible(cfg, [n], d) then map[d.name := FreeRadiusSpec(d.spec.macs, n.spec.vlan)] else map[];
    forall x ensures RadiusOf(cfg, [n], [d], x) == Find(radius, x) {
      assert RadiusOf(cfg, [n], [d][..0], x) == None;
    }
  }

  /** A DHCP device without an address gives its network a DhcpHosts object and no DnsHosts object. */
  lemma NoAddressListing(lib: Lib, cfg: Config, d: Device, n: Network) returns (i: Inputs)
    requires n.name != "" && d.spec.network == n.name && d.spec.dhcp && d.spec.ip == ""
    ensures InputsFor(lib, cfg, [d], [n], i) && i.target == cfg.dnsmasqNamespace
    ensures ResourceName(n.name) in i.dhcp && ResourceName(n.name) !in i.dns
  {
    OneDhcpDevice(lib, cfg, d, n);
    var radius := OneRadiusDevice(cfg, d, n);
    var out := Output(DhcpOptionsSpec("", Options(cfg, [n])), map[ResourceName(n.name) := DhcpHostsSpec("", [DhcpEntry(d)])],
                      map[], radius);
    assert BuiltFrom(lib, cfg, [d], [n], [d], [n], out);
    i := InputsOf(cfg, out);
  }

  lemma LeftAlone(i: Inputs, k: Key) returns (s: Store, t: Store)
    requires k == Key(DnsHosts, i.target, k.name) && k.name in i.dhcp && k.name !in i.dns
    ensures ManagedName(s, DnsHosts, i.target, k.name)
    ensures Settled(GoalsOf(i), s, t) && ManagedName(t, DnsHosts, i.target, k.name) && t[k] == s[k]
  {
    s := map[k := Obj(Fields(map[]), Managed(AGGREGATE, "lan"), [])];
    t := SettledExists(i, s);
    StaleDnsHostsSurvives(i, s, t, k.name);
  }

  /** The shared keep-set at work: one network, one DHCP device on it whose address was removed, and the DnsHosts
      object left from when it had one. It is managed and no longer wanted, and a complete run leaves it. */
  lemma StaleDnsHostsStays(lib: Lib, cfg: Config)
    returns (d: Device, n: Network, i: Inputs, k: Key, s: Store, t: Store)
    ensures InputsFor(lib, cfg, [d], [n], i) && DistinctBy(DeviceName, [d]) && DistinctBy(NetworkName, [n])
    ensures Settled(GoalsOf(i), s, t)
    ensures k == Key(DnsHosts, i.target, k.name) && k.name !in i.dns && ManagedName(s, DnsHosts, i.target, k.name)
    ensures ManagedName(t, DnsHosts, i.target, k.name) && t[k] == s[k]
  {
    n := Network("lan", 1, NetworkSpec(1, true, "", ""), Status(0, []));
    d := Device("tv", 2, DeviceSpec("lan", "", ["aa:bb:cc:dd:ee:ff"], true, [], false), Status(0, []));
    i := NoAddressListing(lib, cfg, d, n);
    k := Key(DnsHosts, i.target, ResourceName("lan"));
    s, t := LeftAlone(i, k);
  }

  /** What the device reconciler writes is its own in the sense of the interleaving model: no network name
      makes it write an object of one of the other two. */
  lemma WritesAreItsOwn(lib: Lib, cfg: Config, devices: seq<Device>, networks: seq<Network>, w: Interleaving.World, k: Key)
    requires InputsFor(lib, cfg, devices, networks, w.dev)
    requires Interleaving.IsWrite(GoalOf(w.dev, k))
    ensures Interleaving.OwnerOf(w, k) == Interleaving.DeviceAgent
    ensures Interleaving.GoalAt(w, k) == GoalOf(w.dev, k)
  {
    if k.kind == DnsHosts {
      assert k.name in w.dev.dns;
      HostNamesPrefixed(lib, cfg, devices, networks, w.dev, k.name);
      NamesApart(k.name);
    } else if k.kind == ConfigMap {
      NamesApart(k.name);
    }
    OwnedByName(w, k);
  }

  lemma HostNamesPrefixed(lib: Lib, cfg: Config, devices: seq<Device>, networks: seq<Network>, i: Inputs, name: string)
    requires InputsFor(lib, cfg, devices, networks, i) && (name in i.dns || name in i.dhcp)
    ensures name != [] && name[0] == PREFIX[0]
  {
    var ds, ns, out :| BuiltFrom(lib, cfg, devices, networks, ds, ns, out) && i == InputsOf(cfg, out);
    NamesArePrefixed(lib, cfg, ds, ns, out, name);
  }

  /** No kept name is that of another reconciler's object. */
  lemma KeptNamesApart(lib: Lib, cfg: Config, devices: seq<Device>, networks: seq<Network>, w: Interleaving.World)
    requires InputsFor(lib, cfg, devices, networks, w.dev)
    ensures Interleaving.INGRESS_NAME !in Keep(w.dev) && Interleaving.LOAD_BALANCER_NAME !in Keep(w.dev)
  {
    forall name | name in Keep(w.dev) ensures name != Interleaving.INGRESS_NAME && name != Interleaving.LOAD_BALANCER_NAME {
      if name in w.dev.dns || name in w.dev.dhcp {
        HostNamesPrefixed(lib, cfg, devices, networks, w.dev, name);
      } else {
        assert DHCP_OPTIONS_NAME[0] == 'd' && PREFIX[0] == 'd';
      }
      NamesApart(name);
    }
  }

  lemma OwnedByName(w: Interleaving.World, k: Key)
    requires k.kind == DnsHosts ==> k.name != Interleaving.INGRESS_NAME && k.name != Interleaving.LOAD_BALANCER_NAME
    requires k.kind == ConfigMap ==> k.name != Interleaving.INGRESS_ANCHOR && k.name != Interleaving.LOAD_BALANCER_ANCHOR
    ensures Interleaving.OwnerOf(w, k) == Interleaving.DeviceAgent
  {
  }

  lemma NamesApart(name: string)
    requires name == ANCHOR_NAME || (name != [] && name[0] == PREFIX[0])
    ensures name != Interleaving.INGRESS_NAME && name != Interleaving.LOAD_BALANCER_NAME
    ensures name == ANCHOR_NAME ==> name != Interleaving.INGRESS_ANCHOR && name != Interleaving.LOAD_BALANCER_ANCHOR
  {
    assert ANCHOR_NAME[0] == 'h' && PREFIX[0] == 'd' && Interleaving.INGRESS_NAME[0] == 'i' && Interleaving.LOAD_BALANCER_NAME[0] == 'l';
    assert ANCHOR_NAME[24] == 'd' && Interleaving.INGRESS_ANCHOR[24] == 'i' && Interleaving.LOAD_BALANCER_ANCHOR[24] == 'l';
  }
}

/** The device reconciler: internal/controller/device_controller.go. */
module DeviceController {
  import opened Kube
  import opened Ensure
  import opened Ordering
  import opened Dnsmasq
  import opened Homelab
  import opened Goals
  import opened StatusConditions
  import opened ReconcileGate
  import DeviceBased
  import opened DeviceBasedProperties

  /** Ghost bookkeeping of a run: the store it started from, the objects it has dealt with, and the order
      in which it planned the wanted ones. */
  datatype Run = Run(start: Store, done: iset<Key>, order: seq<Key>)

  ghost function Did(run: Run, k: Key): Run {
    run.(done := run.done + iset{k})
  }

  /** `plans` holds the right plan for each wanted object dealt with, once. */
  ghost predicate Listed(goal: Key -> Goal, run: Run, plans: seq<ApplyPlan>) {
    && |plans| == |run.order| && NoDup(run.order)
    && (forall k {:trigger k in run.order} :: k in run.order <==> k in run.done && goal(k).Publish?)
    && (forall j :: 0 <= j < |plans| ==> PlanFor(goal, run.start, run.order[j], plans[j]))
  }

  lemma ListedStep(goal: Key -> Goal, run: Run, plans: seq<ApplyPlan>, k: Key, p: ApplyPlan)
    requires Listed(goal, run, plans) && k !in run.done && goal(k).Publish? && PlanFor(goal, run.start, k, p)
    ensures Listed(goal, Did(run, k).(order := run.order + [k]), plans + [p])
  {
    assert k !in run.order;
  }

  ghost predicate AllWellFormed(s: Store, kind: Kind, ns: string, names: set<string>) {
    forall n :: n in names ==> WellFormed(s, Key(kind, ns, n))
  }

  /** What asks for a pass: a namespace, and the name of some network in it. */
  datatype Request = Request(ns: string, name: string)

  ghost predicate IsLeastName(networks: seq<Network>, name: string) {
    && (exists n :: n in networks && n.name == name)
    && forall n :: n in networks ==> CompareStrings(name, n.name) <= 0
  }

  /** Every event in a namespace leads to the same request. */
  lemma LeastNameUnique(n0: seq<Network>, n1: seq<Network>, a: string, b: string)
    requires multiset(n0) == multiset(n1) && IsLeastName(n0, a) && IsLeastName(n1, b)
    ensures a == b
  {
    SameMembers(n0, n1);
    CompareStringsFlips(a, b);
    CompareStringsZero(a, b);
  }

  /** What holds of the store whenever a run over inputs `i` stops, and of its plans if it succeeds. */
  ghost predicate OutcomeOn(dryRun: bool, goal: Key -> Goal, i: Inputs, start: Store, end: Store, ok: bool,
                            plans: seq<ApplyPlan>, order: seq<Key>) {
    && (dryRun ==> end == start)
    && (!dryRun ==> Near(goal, start, end) && NoGap(goal, start, end))
    && (!dryRun && ok ==> Settled(goal, start, end))
    && (ok ==> PlansComplete(goal, i, start, plans, order))
  }

  ghost predicate Served(i: Inputs, served: set<Kind>) {
    {ConfigMap, DhcpOptions, DhcpHosts, DnsHosts} <= served && (i.radius.Some? ==> FreeRadiusDevice in served)
  }

  function RefreshedUpTo(devices: seq<Device>, n: nat, names: set<string>, ok: bool, errMsg: string): (r: seq<Device>)
    requires n <= |devices|
    ensures |r| == |devices|
  {
    seq(|devices|, i requires 0 <= i < |devices| => if i < n then Refreshed(devices[i], names, ok, errMsg) else devices[i])
  }

  /** Every device carries the two conditions that a pass with this verdict gives it. */
  ghost predicate DevicesSay(devices: seq<Device>, names: set<string>, ok: bool, errMsg: string) {
    forall d :: d in devices ==>
      && ConditionOf(d.status.conditions, NETWORK_AVAILABLE) == Some(AvailableOf(d.spec.network, names))
      && ConditionOf(d.status.conditions, READY) == Some(ReadyOf(d.spec.network, names, ok, errMsg))
      && d.status.observedGeneration == d.generation
  }

  predicate NetworkReady(n: Network) {
    ConditionOf(n.status.conditions, READY) == Some(Condition(READY, "True", "Synced", ""))
    && n.status.observedGeneration == n.generation
  }

  lemma RefreshedSay(devices: seq<Device>, names: set<string>, ok: bool, errMsg: string)
    ensures DevicesSay(RefreshedUpTo(devices, |devices|, names, ok, errMsg), names, ok, errMsg)
  {
    forall d | d in RefreshedUpTo(devices, |devices|, names, ok, errMsg)
      ensures ConditionOf(d.status.conditions, NETWORK_AVAILABLE) == Some(AvailableOf(d.spec.network, names))
      ensures ConditionOf(d.status.conditions, READY) == Some(ReadyOf(d.spec.network, names, ok, errMsg))
      ensures d.status.observedGeneration == d.generation
    {
      var i :| 0 <= i < |devices| && d == Refreshed(devices[i], names, ok, errMsg);
      StatusMeaning(devices[i], names, ok, errMsg);
    }
  }

  /** The devices whose status a pass writes, in order; a dry pass writes none. */
  function StaleDevices(dry: bool, devices: seq<Device>, names: set<string>, ok: bool, errMsg: string): seq<StatusWrite> {
    if devices == [] then []
    else
      StaleDevices(dry, devices[..|devices| - 1], names, ok, errMsg)
      + StaleDevice(dry, devices[|devices| - 1], names, ok, errMsg)
  }

  function StaleDevice(dry: bool, d: Device, names: set<string>, ok: bool, errMsg: string): seq<StatusWrite> {
    if !dry && NeedsWrite(d.status, DeviceStatus(d, names, ok, errMsg))
    then [StatusWrite(OfDevice, d.name, DeviceStatus(d, names, ok, errMsg))] else []
  }

  lemma RefreshStep(dry: bool, devices: seq<Device>, j: nat, names: set<string>, ok: bool, errMsg: string)
    requires j < |devices|
    ensures StaleDevices(dry, devices[..j + 1], names, ok, errMsg) ==
              StaleDevices(dry, devices[..j], names, ok, errMsg) + StaleDevice(dry, devices[j], names, ok, errMsg)
    ensures RefreshedUpTo(devices, j + 1, names, ok, errMsg) ==
              RefreshedUpTo(devices, j, names, ok, errMsg)[j := Refreshed(devices[j], names, ok, errMsg)]
  {
    assert devices[..j + 1][..j] == devices[..j];
  }

  /** A device with the status one pass gives it. */
  function Refreshed(d: Device, names: set<string>, ok: bool, errMsg: string): Device {
    d.(status := DeviceStatus(d, names, ok, errMsg))
  }

  lemma {:induction false} DryStatusesWriteNothing(devices: seq<Device>, networks: seq<Network>, names: set<string>,
                                                   ok: bool, errMsg: string)
    ensures StaleDevices(true, devices, names, ok, errMsg) == []
    ensures StaleNetworks(true, networks, ok, errMsg) == []
    decreases |devices| + |networks|
  {
    if devices != [] {
      DryStatusesWriteNothing(devices[..|devices| - 1], networks, names, ok, errMsg);
    }
    if networks != [] {
      DryStatusesWriteNothing(devices, networks[..|networks| - 1], names, ok, errMsg);
    }
  }

  function RefreshedNetwork(n: Network, ok: bool, errMsg: string): Network {
    n.(status := NetworkStatus(n, ok, errMsg))
  }

  function RefreshedNetworks(networks: seq<Network>, n: nat, ok: bool, errMsg: string): (r: seq<Network>)
    requires n <= |networks|
    ensures |r| == |networks|
  {
    seq(|networks|, i requires 0 <= i < |networks| => if i < n then RefreshedNetwork(networks[i], ok, errMsg) else networks[i])
  }

  function StaleNetworks(dry: bool, networks: seq<Network>, ok: bool, errMsg: string): seq<StatusWrite> {
    if networks == [] then []
    else
      StaleNetworks(dry, networks[..|networks| - 1], ok, errMsg) + StaleNetwork(dry, networks[|networks| - 1], ok, errMsg)
  }

  function StaleNetwork(dry: bool, n: Network, ok: bool, errMsg: string): seq<StatusWrite> {
    if !dry && NeedsWrite(n.status, NetworkStatus(n, ok, errMsg))
    then [StatusWrite(OfNetwork, n.name, NetworkStatus(n, ok, errMsg))] else []
  }

  lemma RefreshNetworkStep(dry: bool, networks: seq<Network>, j: nat, ok: bool, errMsg: string)
    requires j < |networks|
    ensures StaleNetworks(dry, networks[..j + 1], ok, errMsg) ==
              StaleNetworks(dry, networks[..j], ok, errMsg) + StaleNetwork(dry, networks[j], ok, errMsg)
    ensures RefreshedNetworks(networks, j + 1, ok, errMsg) ==
              RefreshedNetworks(networks, j, ok, errMsg)[j := RefreshedNetwork(networks[j], ok, errMsg)]
  {
    assert networks[..j + 1][..j] == networks[..j];
  }

  lemma RefreshedReady(networks: seq<Network>)
    ensures forall n :: n in RefreshedNetworks(networks, |networks|, true, "") ==> NetworkReady(n)
  {
    forall n | n in RefreshedNetworks(networks, |networks|, true, "") ensures NetworkReady(n) {
      var i :| 0 <= i < |networks| && n == RefreshedNetwork(networks[i], true, "");
      SetConditionMeaning(networks[i].status.conditions, Condition(READY, "True", "Synced", ""));
    }
  }

  ghost predicate HostsComparable(i: Inputs, s: Store) {
    AllWellFormed(s, DhcpHosts, i.target, i.dhcp.Keys) && AllWellFormed(s, DnsHosts, i.target, i.dns.Keys)
  }

  ghost predicate RadiusComparable(i: Inputs, s: Store) {
    i.radius.Some? ==> AllWellFormed(s, FreeRadiusDevice, i.radius.value, i.devices.Keys)
  }

  lemma ComparableParts(i: Inputs, s: Store)
    requires Comparable(i, s)
    ensures WellFormed(s, OptionsKey(i)) && HostsComparable(i, s) && RadiusComparable(i, s)
  {
    assert Published(i, OptionsKey(i));
    assert forall n :: n in i.dhcp ==> Published(i, Key(DhcpHosts, i.target, n));
    assert forall n :: n in i.dns ==> Published(i, Key(DnsHosts, i.target, n));
    assert i.radius.Some? ==> forall n :: n in i.devices ==> Published(i, Key(FreeRadiusDevice, i.radius.value, n));
  }

  lemma AllPublished(goal: Key -> Goal, i: Inputs, done: iset<Key>)
    requires Describes(goal, i) && AnchorKey(i.target) in done && OptionsKey(i) in done
    requires forall n :: n in i.dhcp ==> Key(DhcpHosts, i.target, n) in done
    requires forall n :: n in i.dns ==> Key(DnsHosts, i.target, n) in done
    requires i.radius.Some? ==> AnchorKey(i.radius.value) in done
    requires i.radius.Some? ==> forall n :: n in i.devices ==> Key(FreeRadiusDevice, i.radius.value, n) in done
    ensures forall k :: goal(k).Publish? || goal(k).Anchor? ==> k in done
  {
    forall k | goal(k).Publish? ensures k in done {
      assert Published(i, k);
      assert k == Key(k.kind, k.ns, k.name);
    }
  }

  /** What a pass does to devices `ds` and networks `ns`: on success everything is refreshed and what changed is
      written; if it was the options object that failed, the devices are, with the error; otherwise nothing. */
  ghost predicate StatusOutcome(dryRun: bool, ok: bool, optionsOk: bool, errText: string,
                                ds: seq<Device>, ns: seq<Network>, devices: seq<Device>, networks: seq<Network>,
                                written: seq<StatusWrite>) {
    var names := NetworkNames(ns);
    && devices == (if ok then RefreshedUpTo(ds, |ds|, names, true, "")
                   else if optionsOk then ds
                   else RefreshedUpTo(ds, |ds|, names, false, errText))
    && networks == (if ok then RefreshedNetworks(ns, |ns|, true, "") else ns)
    && written == (if ok then StaleDevices(dryRun, ds, names, true, "") + StaleNetworks(dryRun, ns, true, "")
                   else if optionsOk then []
                   else StaleDevices(dryRun, ds, names, false, errText))
  }

  /** The record of one pass: what it listed and what that amounts to, the arrangement it worked on, the store
      it found and left, and what it reported, wrote, and left in the listed resources. `inputs` is absent if
      listing failed; `optionsOk` is false if it was the options object that failed. */
  datatype Pass = Pass(
    devices: seq<Device>, networks: seq<Network>, inputs: Option<Inputs>,
    sortedDevices: seq<Device>, sortedNetworks: seq<Network>,
    before: Store, after: Store,
    ok: bool, optionsOk: bool, errText: string, plans: seq<ApplyPlan>, order: seq<Key>,
    devicesAfter: seq<Device>, networksAfter: seq<Network>, writes: int, statusWrites: seq<StatusWrite>)

  /** What every pass of the reconciler keeps to, whatever the API does. */
  ghost predicate PassOf(lib: Lib, cfg: Config, p: Pass) {
    match p.inputs
    case None =>
      && !p.ok && p.optionsOk && p.after == p.before && p.writes == 0
      && p.devicesAfter == p.devices && p.networksAfter == p.networks && p.statusWrites == []
    case Some(i) =>
      && InputsFor(lib, cfg, p.devices, p.networks, i)
      && multiset(p.sortedDevices) == multiset(p.devices) && SortedBy(DeviceName, p.sortedDevices)
      && multiset(p.sortedNetworks) == multiset(p.networks) && SortedBy(NetworkName, p.sortedNetworks)
      && OutcomeOn(cfg.dryRun, GoalsOf(i), i, p.before, p.after, p.ok, p.plans, p.order)
      && (cfg.dryRun || Settled(GoalsOf(i), p.before, p.before) ==> p.writes == 0)
      && (p.ok ==> p.optionsOk)
      && StatusOutcome(cfg.dryRun, p.ok, p.optionsOk, p.errText, p.sortedDevices, p.sortedNetworks,
                       p.devicesAfter, p.networksAfter, p.statusWrites)
  }

  /** When the API answers every call, a pass succeeds exactly when all specs can be compared and, unless it is
      dry, all kinds are installed. */
  ghost predicate Unhindered(cfg: Config, served: set<Kind>, p: Pass) {
    p.inputs.Some? && (p.ok <==> Comparable(p.inputs.value, p.before) && (cfg.dryRun || Served(p.inputs.value, served)))
  }

  class DeviceReconciler {
    const cfg: Config
    const lib: Lib
    const client: Client
    const gate: Gate

    constructor (cfg: Config, lib: Lib, client: Client, gate: Gate)
      ensures this.cfg == cfg && this.lib == lib && this.client == client && this.gate == gate
    {
      this.cfg, this.lib, this.client, this.gate := cfg, lib, client, gate;
    }

    /** The store is where the bookkeeping says it is; a dry run leaves it where it was. */
    ghost predicate At(goal: Key -> Goal, run: Run)
      reads client`objects
    {
      && client.Valid()
      && (cfg.dryRun ==> client.objects == run.start)
      && (!cfg.dryRun ==> Progress(goal, run.start, client.objects, run.done))
    }

    ghost predicate Fixed(goal: Key -> Goal, run: Run) {
      Settled(goal, run.start, run.start)
    }

    method EnsureAnchor(ns: string, name: string, labels: Labels, ghost goal: Key -> Goal, ghost run: Run)
      returns (owner: Option<Owner>, ghost after: Run)
      requires At(goal, run) && goal(Key(ConfigMap, ns, name)) == Anchor(labels)
      requires Key(ConfigMap, ns, name) !in run.done
      modifies client`calls, client`objects, client`writes
      ensures At(goal, after) && (after == run || after == Did(run, Key(ConfigMap, ns, name)))
      ensures owner.Some? ==> owner.value == OwnerIn(ns, name) && after == Did(run, Key(ConfigMap, ns, name))
      ensures owner.Some? && !cfg.dryRun ==> ConfigMap in client.served
      ensures cfg.dryRun || (client.Healthy() && ConfigMap in client.served) ==> owner.Some?
      ensures cfg.dryRun || Fixed(goal, run) ==> client.writes == old(client.writes)
    {
      after := run;
      var k := Key(ConfigMap, ns, name);
      if cfg.dryRun {
        return Some(OwnerIn(ns, name)), Did(run, k);
      }
      var blank := Obj(Fields(ANCHOR_DATA), labels, []);
      var ok := CreateOrUpdate(client, k, blank, (cm: Obj) =>
        Ok(Obj(if cm.spec.Missing? then Fields(ANCHOR_DATA) else cm.spec, labels, cm.owners)));
      ghost var settled := Settle(Anchor(labels), Lookup(old(client.objects), k));
      if client.objects == With(old(client.objects), k, settled) {
        ProgressStep(goal, run.start, old(client.objects), client.objects, run.done, k);
        after := Did(run, k);
      }
      assert Fixed(goal, run) ==> Lookup(run.start, k) == settled by {
        if Fixed(goal, run) {
          assert Lookup(run.start, k) == Settle(goal(k), Lookup(run.start, k));
        }
      }
      owner := if ok then Some(OwnerIn(ns, name)) else None;
    }

    method PlanAndApply(k: Key, spec: Tree, labels: Labels, owner: Owner, plans: seq<ApplyPlan>,
                        ghost goal: Key -> Goal, ghost run: Run)
      returns (ok: bool, more: seq<ApplyPlan>, ghost after: Run)
      requires At(goal, run) && Listed(goal, run, plans) && k !in run.done
      requires goal(k) == Publish(spec, labels, owner) && owner.ns == k.ns
      modifies client`calls, client`objects, client`writes
      ensures At(goal, after) && after.start == run.start && (after.done == run.done || after.done == Did(run, k).done)
      ensures ok ==> Listed(goal, after, more) && after.done == Did(run, k).done
      ensures ok && !cfg.dryRun ==> k.kind in client.served
      ensures client.Healthy() && (cfg.dryRun || k.kind in client.served) && WellFormed(run.start, k) ==> ok
      ensures cfg.dryRun || Fixed(goal, run) ==> client.writes == old(client.writes)
    {
      after, more := run, plans;
      var r := PlanUnstructured(client, k, Fields(spec));
      assert Lookup(client.objects, k) == Lookup(run.start, k);
      if r.Err? {
        return false, more, after;
      }
      if !cfg.dryRun {
        ok := ApplyUnstructured(client, k, Fields(spec), false, labels, Some(owner));
        ghost var settled := Settle(goal(k), Lookup(old(client.objects), k));
        if client.objects == With(old(client.objects), k, settled) {
          ProgressStep(goal, run.start, old(client.objects), client.objects, run.done, k);
          after := Did(run, k);
        }
        assert Fixed(goal, run) ==> Lookup(run.start, k) == settled by {
          if Fixed(goal, run) {
            assert Lookup(run.start, k) == Settle(goal(k), Lookup(run.start, k));
          }
        }
        if !ok {
          return false, more, after;
        }
      }
      ListedStep(goal, run, plans, k, r.value);
      after := Did(run, k).(order := run.order + [k]);
      return true, plans + [r.value], after;
    }

    /** Applies every wanted object of one kind, in an order of the runtime's choice. */
    method ApplyEach(kind: Kind, ns: string, wanted: map<string, Tree>, labels: string -> Labels, owner: Owner,
                     plans: seq<ApplyPlan>, ghost goal: Key -> Goal, ghost run: Run)
      returns (ok: bool, more: seq<ApplyPlan>, ghost after: Run)
      requires At(goal, run) && Listed(goal, run, plans) && owner.ns == ns
      requires forall n :: n in wanted ==>
                 goal(Key(kind, ns, n)) == Publish(wanted[n], labels(n), owner)
                 && Key(kind, ns, n) !in run.done
      modifies client`calls, client`objects, client`writes
      ensures At(goal, after) && after.start == run.start
      ensures forall k :: k in after.done ==> k in run.done || (k.kind == kind && goal(k).Publish?)
      ensures forall k :: k in run.done ==> k in after.done
      ensures ok ==> Listed(goal, after, more)
      ensures ok ==> forall n :: n in wanted ==> Key(kind, ns, n) in after.done
      ensures client.Healthy() && (cfg.dryRun || kind in client.served) && AllWellFormed(run.start, kind, ns, wanted.Keys)
              ==> ok
      ensures cfg.dryRun || Fixed(goal, run) ==> client.writes == old(client.writes)
    {
      ok, more, after := true, plans, run;
      var names := MapOrder(wanted);
      for j := 0 to |names|
        invariant ok && after.start == run.start && At(goal, after) && Listed(goal, after, more)
        invariant forall k :: k in after.done ==> k in run.done || (k.kind == kind && goal(k).Publish?)
        invariant forall k :: k in run.done ==> k in after.done
        invariant forall m :: 0 <= m < |names| ==> (Key(kind, ns, names[m]) in after.done <==> m < j)
        invariant cfg.dryRun || Fixed(goal, run) ==> client.writes == old(client.writes)
      {
        var name := names[j];
        ok, more, after := PlanAndApply(Key(kind, ns, name), wanted[name], labels(name), owner, more, goal, after);
        if !ok {
          return;
        }
      }
    }

    /** Deletes the managed objects of the given kinds whose names are not kept. */
    method PruneManaged(ns: string, keep: set<string>, kinds: seq<Kind>, ghost goal: Key -> Goal, ghost run: Run)
      returns (ok: bool, ghost after: Run)
      requires !cfg.dryRun && At(goal, run)
      requires forall k: Key :: k.kind in kinds && k.ns == ns && k.name !in keep ==> goal(k) == Sweep(AGGREGATE)
      requires forall k: Key :: k.kind in kinds && k.ns == ns && k.name in keep ==> goal(k).Leave? || k in run.done
      modifies client`calls, client`objects, client`writes
      ensures At(goal, after) && after.(done := run.done) == run && run.done <= after.done
      ensures ok ==> forall k: Key :: k.kind in kinds && k.ns == ns ==> k in after.done
      ensures ok ==> forall kind :: kind in kinds ==> kind in client.served
      ensures client.Healthy() && (forall kind :: kind in kinds ==> kind in client.served) ==> ok
      ensures Fixed(goal, run) ==> client.writes == old(client.writes)
    {
      ok, after := true, run;
      for j := 0 to |kinds|
        invariant ok && At(goal, after) && after.(done := run.done) == run && run.done <= after.done
        invariant forall k: Key :: k.kind in kinds[..j] && k.ns == ns ==> k in after.done
        invariant forall kind :: kind in kinds[..j] ==> kind in client.served
        invariant Fixed(goal, run) ==> client.writes == old(client.writes)
      {
        ok, after := PruneKind(ns, keep, kinds[j], goal, after);
        if !ok {
          return;
        }
      }
    }

    method PruneKind(ns: string, keep: set<string>, kind: Kind, ghost goal: Key -> Goal, ghost run: Run)
      returns (ok: bool, ghost after: Run)
      requires !cfg.dryRun && At(goal, run)
      requires forall k: Key :: k.kind == kind && k.ns == ns && k.name !in keep ==> goal(k) == Sweep(AGGREGATE)
      requires forall k: Key :: k.kind == kind && k.ns == ns && k.name in keep ==> goal(k).Leave? || k in run.done
      modifies client`calls, client`objects, client`writes
      ensures At(goal, after) && after.(done := run.done) == run && run.done <= after.done
      ensures ok ==> kind in client.served && forall k: Key :: k.kind == kind && k.ns == ns ==> k in after.done
      ensures client.Healthy() && kind in client.served ==> ok
      ensures Fixed(goal, run) ==> client.writes == old(client.writes)
    {
      after := run;
      var keys;
      ok, keys := client.List(kind, ns, AGGREGATE);
      if !ok {
        return;
      }
      ghost var listed := client.objects;
      for j := 0 to |keys|
        invariant ok && At(goal, after) && after.(done := run.done) == run && run.done <= after.done
        invariant forall k :: k in after.done ==> k in run.done || (k in keys[..j] && k.name !in keep)
        invariant forall k :: k in keys[..j] && k.name !in keep ==> k in after.done
        invariant forall k :: k in keys[j..] ==> Lookup(client.objects, k) == Lookup(listed, k)
        invariant Fixed(goal, run) ==> client.writes == old(client.writes)
      {
        var k := keys[j];
        assert k in keys && k in keys[j..];
        if k.name in keep || cfg.dryRun {
          continue;
        }
        assert k !in after.done;
        ghost var before := client.objects;
        assert Settle(goal(k), Lookup(run.start, k)) == None;
        ok := client.Delete(k);
        if k !in client.objects {
          ProgressStep(goal, run.start, before, client.objects, after.done, k);
          after := after.(done := after.done + iset{k});
        }
        if !ok {
          return;
        }
      }
      ghost var all := iset k: Key | k.kind == kind && k.ns == ns;
      forall k | k in all && k !in after.done ensures Settle(goal(k), Lookup(run.start, k)) == Lookup(run.start, k) {
        assert keys[..|keys|] == keys;
        assert Lookup(listed, k) == Lookup(run.start, k);
      }
      ProgressWidens(goal, run.start, client.objects, after.done, all);
      after := after.(done := after.done + all);
    }

    static method RefreshConditions(dev: Device, names: set<string>, ok: bool, errMsg: string) returns (conds: seq<Condition>)
      ensures conds == DeviceConditions(dev.status.conditions, dev.spec.network, names, ok, errMsg)
    {
      conds := SetCondition(dev.status.conditions,
        Condition(NETWORK_AVAILABLE, "False", "NetworkMissing", "Referenced network does not exist"));
      if dev.spec.network != "" {
        if dev.spec.network in names {
          conds := SetCondition(conds, Condition(NETWORK_AVAILABLE, "True", "NetworkFound", ""));
        }
      } else {
        conds := SetCondition(conds, Condition(NETWORK_AVAILABLE, "False", "NetworkNotSet", "spec.network is empty"));
      }
      var ready := ok && dev.spec.network != "" && dev.spec.network in names;
      if ready {
        conds := SetCondition(conds, Condition(READY, "True", "Synced", ""));
      } else {
        var msg := if errMsg == "" then "Device not synced" else errMsg;
        conds := SetCondition(conds, Condition(READY, "False", "NotSynced", msg));
      }
    }

    static method CollectNames(networks: array<Network>) returns (names: set<string>)
      ensures names == NetworkNames(networks[..])
    {
      names := {};
      for j := 0 to networks.Length
        invariant names == NetworkNames(networks[..j])
      {
        assert networks[..j + 1] == networks[..j] + [networks[j]];
        names := names + {networks[j].name};
      }
      assert networks[..networks.Length] == networks[..];
    }

    /** Recomputes the status of one device in place, and writes it if it changed. */
    method RefreshDevice(devices: array<Device>, j: nat, names: set<string>, ok: bool, errMsg: string)
      requires j < devices.Length
      modifies devices, client`calls, client`statusWrites
      ensures devices[..] == old(devices[..])[j := Refreshed(old(devices[j]), names, ok, errMsg)]
      ensures client.statusWrites == old(client.statusWrites)
                + StaleDevice(cfg.dryRun, old(devices[j]), names, ok, errMsg)
    {
      var dev := devices[j];
      var conds := RefreshConditions(dev, names, ok, errMsg);
      var status := Status(dev.generation, conds);
      devices[j] := dev.(status := status);
      if dev.status.observedGeneration == status.observedGeneration && ConditionsEqual(dev.status.conditions, conds) {
        return;
      }
      if cfg.dryRun {
        return;
      }
      client.UpdateStatus(OfDevice, dev.name, status);
    }

    /** Recomputes the status of every device in place, and writes those that changed. */
    method UpdateDeviceStatuses(devices: array<Device>, networks: array<Network>, ok: bool, errMsg: string)
      modifies devices, client`calls, client`statusWrites
      ensures var names := NetworkNames(old(networks[..]));
              && devices[..] == RefreshedUpTo(old(devices[..]), devices.Length, names, ok, errMsg)
              && client.statusWrites == old(client.statusWrites)
                   + StaleDevices(cfg.dryRun, old(devices[..]), names, ok, errMsg)
    {
      var names := CollectNames(networks);
      RefreshDevices(devices, names, ok, errMsg);
    }

    method RefreshDevices(devices: array<Device>, names: set<string>, ok: bool, errMsg: string)
      modifies devices, client`calls, client`statusWrites
      ensures devices[..] == RefreshedUpTo(old(devices[..]), devices.Length, names, ok, errMsg)
      ensures client.statusWrites == old(client.statusWrites)
                + StaleDevices(cfg.dryRun, old(devices[..]), names, ok, errMsg)
    {
      ghost var before := devices[..];
      for j := 0 to devices.Length
        invariant devices[..] == RefreshedUpTo(before, j, names, ok, errMsg)
        invariant client.statusWrites == old(client.statusWrites)
                    + StaleDevices(cfg.dryRun, before[..j], names, ok, errMsg)
      {
        RefreshStep(cfg.dryRun, before, j, names, ok, errMsg);
        assert devices[j] == devices[..][j] == before[j];
        RefreshDevice(devices, j, names, ok, errMsg);
      }
      assert before[..|before|] == before;
    }

    /** Recomputes the status of one network in place, and writes it if it changed. */
    method RefreshNetwork(networks: array<Network>, j: nat, ok: bool, errMsg: string)
      requires j < networks.Length
      modifies networks, client`calls, client`statusWrites
      ensures networks[..] == old(networks[..])[j := RefreshedNetwork(old(networks[j]), ok, errMsg)]
      ensures client.statusWrites == old(client.statusWrites) + StaleNetwork(cfg.dryRun, old(networks[j]), ok, errMsg)
    {
      var net := networks[j];
      var conds;
      if ok {
        conds := SetCondition(net.status.conditions, Condition(READY, "True", "Synced", ""));
      } else {
        conds := SetCondition(net.status.conditions, Condition(READY, "False", "NotSynced", errMsg));
      }
      var status := Status(net.generation, conds);
      networks[j] := net.(status := status);
      if net.status.observedGeneration == status.observedGeneration && ConditionsEqual(net.status.conditions, conds) {
        return;
      }
      if cfg.dryRun {
        return;
      }
      client.UpdateStatus(OfNetwork, net.name, status);
    }

    /** Recomputes the status of every network in place, and writes those that changed. */
    method UpdateNetworkStatuses(networks: array<Network>, ok: bool, errMsg: string)
      modifies networks, client`calls, client`statusWrites
      ensures networks[..] == RefreshedNetworks(old(networks[..]), networks.Length, ok, errMsg)
      ensures client.statusWrites == old(client.statusWrites) + StaleNetworks(cfg.dryRun, old(networks[..]), ok, errMsg)
    {
      ghost var before := networks[..];
      for j := 0 to networks.Length
        invariant networks[..] == RefreshedNetworks(before, j, ok, errMsg)
        invariant client.statusWrites == old(client.statusWrites) + StaleNetworks(cfg.dryRun, before[..j], ok, errMsg)
      {
        RefreshNetworkStep(cfg.dryRun, before, j, ok, errMsg);
        assert networks[..][j] == before[j];
        RefreshNetwork(networks, j, ok, errMsg);
      }
      assert before[..|before|] == before;
    }

    ghost predicate Outcome(goal: Key -> Goal, i: Inputs, start: Store, ok: bool, plans: seq<ApplyPlan>, order: seq<Key>)
      reads client`objects
    {
      OutcomeOn(cfg.dryRun, goal, i, start, client.objects, ok, plans, order)
    }

    /** Plans and applies the DHCP and DNS host objects. */
    method ApplyHosts(i: Inputs, anchor: Owner, plans: seq<ApplyPlan>,
                      ghost goal: Key -> Goal, ghost run: Run)
      returns (ok: bool, more: seq<ApplyPlan>, ghost after: Run)
      requires anchor == OwnerIn(i.target, ANCHOR_NAME) && HostsDescribed(goal, i)
      requires At(goal, run) && Listed(goal, run, plans)
      requires run.done == iset{AnchorKey(i.target), OptionsKey(i)}
      modifies client`calls, client`objects, client`writes
      ensures At(goal, after) && after.start == run.start
      ensures forall k :: k in after.done ==> k in run.done || (goal(k).Publish? && (k.kind == DhcpHosts || k.kind == DnsHosts))
      ensures forall k :: k in run.done ==> k in after.done
      ensures ok ==> Listed(goal, after, more)
      ensures ok ==> forall n :: n in i.dhcp ==> Key(DhcpHosts, i.target, n) in after.done
      ensures ok ==> forall n :: n in i.dns ==> Key(DnsHosts, i.target, n) in after.done
      ensures client.Healthy() && (cfg.dryRun || Served(i, client.served)) && HostsComparable(i, run.start) ==> ok
      ensures cfg.dryRun || Fixed(goal, run) ==> client.writes == old(client.writes)
    {
      ok, more, after := ApplyEach(DhcpHosts, i.target, i.dhcp, HostLabels, anchor, plans, goal, run);
      if !ok {
        return;
      }
      assert forall n :: Key(DnsHosts, i.target, n) !in after.done;
      ok, more, after := ApplyEach(DnsHosts, i.target, i.dns, HostLabels, anchor, more, goal, after);
    }

    /** Plans and applies the FreeRADIUS objects, if enabled, owned by an anchor in their own namespace. */
    method ApplyRadius(i: Inputs, anchor: Owner, plans: seq<ApplyPlan>,
                       ghost goal: Key -> Goal, ghost run: Run)
      returns (ok: bool, more: seq<ApplyPlan>, ghost after: Run)
      requires i.radius == if cfg.enableFreeRadius then Some(cfg.freeRadiusNamespace) else None
      requires anchor == OwnerIn(i.target, ANCHOR_NAME) && RadiusDescribed(goal, i)
      requires At(goal, run) && Listed(goal, run, plans)
      requires forall k :: k in run.done ==> k.kind != FreeRadiusDevice && (k.kind == ConfigMap ==> k == AnchorKey(i.target))
      requires AnchorKey(i.target) in run.done
      modifies client`calls, client`objects, client`writes
      ensures At(goal, after) && after.start == run.start
      ensures forall k :: k in after.done ==> k in run.done || goal(k).Publish? || goal(k).Anchor?
      ensures forall k :: k in run.done ==> k in after.done
      ensures ok ==> Listed(goal, after, more)
      ensures ok && i.radius.Some? ==> AnchorKey(i.radius.value) in after.done
      ensures ok && i.radius.Some? ==> forall n :: n in i.devices ==> Key(FreeRadiusDevice, i.radius.value, n) in after.done
      ensures client.Healthy() && (cfg.dryRun || Served(i, client.served)) && RadiusComparable(i, run.start) ==> ok
      ensures cfg.dryRun || Fixed(goal, run) ==> client.writes == old(client.writes)
    {
      var owner := Some(anchor);
      ok, after, more := true, run, plans;
      if !cfg.enableFreeRadius {
        return;
      }
      if cfg.freeRadiusNamespace != i.target {
        owner, after := EnsureAnchor(cfg.freeRadiusNamespace, ANCHOR_NAME, Managed(AGGREGATE, ""), goal, after);
        if owner.None? {
          return false, more, after;
        }
      }
      ok, more, after := ApplyEach(FreeRadiusDevice, cfg.freeRadiusNamespace, i.devices,
                                   RadiusLabels, owner.value, more, goal, after);
    }

    /** Removes what the aggregate no longer wants, once everything wanted is in place. */
    method PruneAll(i: Inputs, ghost goal: Key -> Goal, ghost run: Run) returns (ok: bool, ghost after: Run)
      requires !cfg.dryRun && At(goal, run) && Describes(goal, i)
      requires PrunesDescribed(goal, i)
      requires forall k :: goal(k).Publish? ==> k in run.done
      modifies client`calls, client`objects, client`writes
      ensures At(goal, after) && after.(done := run.done) == run && run.done <= after.done
      ensures ok ==> forall k: Key :: k.ns == i.target && (k.kind == DhcpHosts || k.kind == DnsHosts) ==> k in after.done
      ensures ok ==> forall k: Key :: k.kind == FreeRadiusDevice && i.radius == Some(k.ns) ==> k in after.done
      ensures ok ==> {DhcpHosts, DnsHosts} <= client.served && (i.radius.Some? ==> FreeRadiusDevice in client.served)
      ensures client.Healthy() && Served(i, client.served) ==> ok
      ensures Fixed(goal, run) ==> client.writes == old(client.writes)
    {
      var keep := {DeviceBased.DHCP_OPTIONS_NAME} + i.dhcp.Keys + i.dns.Keys;
      assert DhcpHosts in [DhcpHosts, DnsHosts] && DnsHosts in [DhcpHosts, DnsHosts];
      ok, after := PruneManaged(i.target, keep, [DhcpHosts, DnsHosts], goal, run);
      if !ok {
        return;
      }
      if i.radius.Some? {
        assert FreeRadiusDevice in [FreeRadiusDevice];
        ok, after := PruneManaged(i.radius.value, i.devices.Keys, [FreeRadiusDevice], goal, after);
      }
    }

    /** The anchor, and the options object it owns. */
    method PublishOptions(i: Inputs, ghost goal: Key -> Goal, ghost start: Run)
      returns (anchor: Option<Owner>, optionsOk: bool, plans: seq<ApplyPlan>, ghost run: Run)
      requires OptionsDescribed(goal, i) && At(goal, start) && start == Run(start.start, iset{}, [])
      modifies client`calls, client`objects, client`writes
      ensures At(goal, run) && run.start == start.start
      ensures forall k :: k in run.done ==> k == AnchorKey(i.target) || k == OptionsKey(i)
      ensures anchor.Some? && optionsOk ==> Listed(goal, run, plans) && anchor == Some(OwnerIn(i.target, ANCHOR_NAME))
                                            && run.done == iset{AnchorKey(i.target), OptionsKey(i)}
      ensures anchor.Some? && optionsOk && !cfg.dryRun ==> {ConfigMap, DhcpOptions} <= client.served
      ensures client.Healthy() && (cfg.dryRun || Served(i, client.served)) && WellFormed(start.start, OptionsKey(i)) ==>
                anchor.Some? && optionsOk
      ensures anchor.None? ==> optionsOk
      ensures cfg.dryRun || Fixed(goal, start) ==> client.writes == old(client.writes)
    {
      optionsOk, plans := true, [];
      anchor, run := EnsureAnchor(i.target, ANCHOR_NAME, Managed(AGGREGATE, ""), goal, start);
      if anchor.None? {
        return;
      }
      optionsOk, plans, run := PlanAndApply(OptionsKey(i), i.options, Managed(AGGREGATE, ""), anchor.value, plans, goal, run);
    }

    /** Plans and applies everything wanted, anchors first. */
    method PublishAll(i: Inputs, ghost goal: Key -> Goal, ghost start: Run)
      returns (ok: bool, optionsOk: bool, plans: seq<ApplyPlan>, ghost run: Run)
      requires Describes(goal, i) && i.radius == (if cfg.enableFreeRadius then Some(cfg.freeRadiusNamespace) else None)
      requires At(goal, start) && start == Run(start.start, iset{}, [])
      modifies client`calls, client`objects, client`writes
      ensures At(goal, run) && run.start == start.start
      ensures forall k :: k in run.done ==> goal(k).Publish? || goal(k).Anchor?
      ensures ok ==> optionsOk && Listed(goal, run, plans)
      ensures ok ==> forall k :: goal(k).Publish? || goal(k).Anchor? ==> k in run.done
      ensures ok && !cfg.dryRun ==> {ConfigMap, DhcpOptions} <= client.served
      ensures client.Healthy() && (cfg.dryRun || Served(i, client.served)) && Comparable(i, start.start) ==> ok
      ensures cfg.dryRun || Fixed(goal, start) ==> client.writes == old(client.writes)
    {
      if Comparable(i, start.start) {
        ComparableParts(i, start.start);
      }
      var anchor;
      anchor, optionsOk, plans, run := PublishOptions(i, goal, start);
      ok := anchor.Some? && optionsOk;
      if ok {
        ok, plans, run := ApplyHosts(i, anchor.value, plans, goal, run);
      }
      if ok {
        ok, plans, run := ApplyRadius(i, anchor.value, plans, goal, run);
      }
      if ok {
        AllPublished(goal, i, run.done);
      }
    }

    /** Everything a run over inputs `i` does to the store. */
    method Drive(i: Inputs, ghost goal: Key -> Goal)
      returns (ok: bool, optionsOk: bool, plans: seq<ApplyPlan>, ghost order: seq<Key>)
      requires client.Valid() && Describes(goal, i) && PrunesDescribed(goal, i)
      requires i.radius == if cfg.enableFreeRadius then Some(cfg.freeRadiusNamespace) else None
      modifies client`calls, client`objects, client`writes
      ensures client.Valid()
      ensures ok ==> optionsOk
      ensures Outcome(goal, i, old(client.objects), ok, plans, order)
      ensures client.Healthy() ==>
                (ok <==> Comparable(i, old(client.objects)) && (cfg.dryRun || Served(i, client.served)))
      ensures cfg.dryRun || Settled(goal, old(client.objects), old(client.objects)) ==>
                client.writes == old(client.writes)
    {
      ghost var run := Run(client.objects, iset{}, []);
      ok, optionsOk, plans, run := PublishAll(i, goal, run);
      order := run.order;
      Stopped(goal, i, run);
      if !ok {
        return;
      }
      AllPlanned(goal, i, run, plans);
      if !cfg.dryRun {
        ok, run := PruneAll(i, goal, run);
        NoGapLate(goal, run.start, client.objects, run.done);
        ProgressIsNear(goal, run.start, client.objects, run.done);
        if ok {
          Swept(goal, i, run);
        }
      }
    }

    lemma Stopped(goal: Key -> Goal, i: Inputs, run: Run)
      requires At(goal, run) && forall k :: k in run.done ==> goal(k).Publish? || goal(k).Anchor?
      ensures Outcome(goal, i, run.start, false, [], [])
    {
      if !cfg.dryRun {
        NoGapEarly(goal, run.start, client.objects, run.done);
        ProgressIsNear(goal, run.start, client.objects, run.done);
      }
    }

    lemma AllPlanned(goal: Key -> Goal, i: Inputs, run: Run, plans: seq<ApplyPlan>)
      requires Listed(goal, run, plans) && Describes(goal, i) && forall k :: goal(k).Publish? ==> k in run.done
      ensures PlansComplete(goal, i, run.start, plans, run.order) && Comparable(i, run.start)
    {
      assert forall k :: k in run.order <==> Published(i, k);
      forall k | Published(i, k) ensures WellFormed(run.start, k) {
        assert k in run.order;
      }
    }

    lemma Swept(goal: Key -> Goal, i: Inputs, run: Run)
      requires !cfg.dryRun && At(goal, run) && Describes(goal, i)
      requires forall k :: goal(k).Publish? || goal(k).Anchor? ==> k in run.done
      requires forall k: Key :: k.ns == i.target && (k.kind == DhcpHosts || k.kind == DnsHosts) ==> k in run.done
      requires forall k: Key :: k.kind == FreeRadiusDevice && i.radius == Some(k.ns) ==> k in run.done
      ensures Settled(goal, run.start, client.objects)
    {
      forall k ensures k in run.done || goal(k).Leave? {
        assert goal(k).Sweep? ==> Sweepable(i, k);
      }
      ProgressCompletes(goal, run.start, client.objects, run.done);
    }

    method ComputeInputs(devices: array<Device>, networks: array<Network>) returns (i: Inputs)
      requires lib.Valid()
      modifies devices, networks
      ensures InputsFor(lib, cfg, old(devices[..]), old(networks[..]), i)
      ensures multiset(devices[..]) == multiset(old(devices[..])) && SortedBy(DeviceName, devices[..])
      ensures multiset(networks[..]) == multiset(old(networks[..])) && SortedBy(NetworkName, networks[..])
      ensures i.radius == if cfg.enableFreeRadius then Some(cfg.freeRadiusNamespace) else None
    {
      ghost var d0, n0 := devices[..], networks[..];
      var out := DeviceBased.BuildDeviceBased(lib, devices, networks, cfg);
      assert BuiltFrom(lib, cfg, d0, n0, devices[..], networks[..], out);
      i := InputsOf(cfg, out);
    }

    method DriveFrom(i: Inputs) returns (ok: bool, optionsOk: bool, plans: seq<ApplyPlan>, ghost order: seq<Key>)
      requires client.Valid()
      requires i.radius == if cfg.enableFreeRadius then Some(cfg.freeRadiusNamespace) else None
      modifies client`calls, client`objects, client`writes
      ensures client.Valid()
      ensures ok ==> optionsOk
      ensures Outcome(GoalsOf(i), i, old(client.objects), ok, plans, order)
      ensures client.Healthy() ==>
                (ok <==> Comparable(i, old(client.objects)) && (cfg.dryRun || Served(i, client.served)))
      ensures cfg.dryRun || Settled(GoalsOf(i), old(client.objects), old(client.objects)) ==>
                client.writes == old(client.writes)
    {
      GoalsDescribed(i);
      PrunesFollow(i);
      ok, optionsOk, plans, order := Drive(i, GoalsOf(i));
    }

    /** Writes what the inputs amount to, then the statuses. */
    method RunPass(i: Inputs, devices: array<Device>, networks: array<Network>, errText: string)
      returns (ok: bool, optionsOk: bool, plans: seq<ApplyPlan>, ghost order: seq<Key>, ghost written: seq<StatusWrite>)
      requires client.Valid()
      requires i.radius == if cfg.enableFreeRadius then Some(cfg.freeRadiusNamespace) else None
      modifies client, devices, networks
      ensures client.Valid()
      ensures Outcome(GoalsOf(i), i, old(client.objects), ok, plans, order)
      ensures client.Healthy() ==>
                (ok <==> Comparable(i, old(client.objects)) && (cfg.dryRun || Served(i, client.served)))
      ensures cfg.dryRun || Settled(GoalsOf(i), old(client.objects), old(client.objects)) ==>
                client.writes == old(client.writes)
      ensures ok ==> optionsOk
      ensures client.statusWrites == old(client.statusWrites) + written
      ensures StatusOutcome(cfg.dryRun, ok, optionsOk, errText, old(devices[..]), old(networks[..]),
                            devices[..], networks[..], written)
    {
      ok, optionsOk, plans, order := DriveFrom(i);
      written := [];
      if !optionsOk {
        written := StaleDevices(cfg.dryRun, devices[..], NetworkNames(networks[..]), false, errText);
        UpdateDeviceStatuses(devices, networks, false, errText);
      }
      if ok {
        written := RefreshStatuses(devices, networks);
      }
    }

    method RefreshStatuses(devices: array<Device>, networks: array<Network>) returns (ghost written: seq<StatusWrite>)
      modifies devices, networks, client`calls, client`statusWrites
      ensures client.statusWrites == old(client.statusWrites) + written
      ensures StatusOutcome(cfg.dryRun, true, true, "", old(devices[..]), old(networks[..]), devices[..], networks[..], written)
    {
      ghost var ds, ns, before := devices[..], networks[..], client.statusWrites;
      ghost var a := StaleDevices(cfg.dryRun, ds, NetworkNames(ns), true, "");
      ghost var b := StaleNetworks(cfg.dryRun, ns, true, "");
      UpdateDeviceStatuses(devices, networks, true, "");
      assert networks[..] == ns;
      ghost var after := devices[..];
      UpdateNetworkStatuses(networks, true, "");
      assert devices[..] == after;
      ConcatAssociates(before, a, b);
      written := a + b;
    }

    /** `p` is the record of what was just done. */
    twostate predicate Recorded(p: Pass, devices: array<Device>, networks: array<Network>)
      reads client, devices, networks
    {
      && p.devices == old(devices[..]) && p.networks == old(networks[..])
      && p.before == old(client.objects) && p.after == client.objects
      && p.devicesAfter == devices[..] && p.networksAfter == networks[..]
      && client.writes == old(client.writes) + p.writes
      && client.statusWrites == old(client.statusWrites) + p.statusWrites
    }

    /** One pass over the devices and networks of a namespace; `errText` is the text of whatever error it may
        run into. */
    method ReconcileNamespace(devices: array<Device>, networks: array<Network>, errText: string)
      returns (ok: bool, plans: seq<ApplyPlan>, ghost pass: Pass)
      requires client.Valid() && lib.Valid()
      modifies client, devices, networks
      ensures client.Valid()
      ensures Recorded(pass, devices, networks) && pass.ok == ok && pass.plans == plans && pass.errText == errText
      ensures PassOf(lib, cfg, pass)
      ensures client.Healthy() ==> Unhindered(cfg, client.served, pass)
    {
      ok, plans := false, [];
      ghost var d0, n0, s0 := devices[..], networks[..], client.objects;
      pass := Pass(d0, n0, None, d0, n0, s0, s0, false, true, errText, [], [], d0, n0, 0, []);
      var listed := ListDevicesAndNetworks();
      if listed {
        ghost var w0, sw0 := client.writes, client.statusWrites;
        assert devices[..] == d0 && networks[..] == n0;
        ok, plans, pass := RunListed(devices, networks, errText);
        assert client.writes == w0 + pass.writes && client.statusWrites == sw0 + pass.statusWrites;
      }
    }

    method ListDevicesAndNetworks() returns (listed: bool)
      modifies client`calls
      ensures client.Healthy() ==> listed
    {
      listed := client.ListInputs();
      if listed {
        listed := client.ListInputs();
      }
    }

    /** The pass once everything is listed. */
    method RunListed(devices: array<Device>, networks: array<Network>, errText: string)
      returns (ok: bool, plans: seq<ApplyPlan>, ghost pass: Pass)
      requires client.Valid() && lib.Valid()
      modifies client, devices, networks
      ensures client.Valid()
      ensures Recorded(pass, devices, networks) && pass.ok == ok && pass.plans == plans && pass.errText == errText
      ensures PassOf(lib, cfg, pass) && pass.inputs.Some?
      ensures client.Healthy() ==> Unhindered(cfg, client.served, pass)
    {
      ghost var d0, n0, s0, writes := devices[..], networks[..], client.objects, client.writes;
      var inputs := ComputeInputs(devices, networks);
      ghost var ds, ns := devices[..], networks[..];
      var optionsOk;
      ghost var order, written;
      ok, optionsOk, plans, order, written := RunPass(inputs, devices, networks, errText);
      pass := Pass(d0, n0, Some(inputs), ds, ns, s0, client.objects, ok, optionsOk, errText, plans, order,
                   devices[..], networks[..], client.writes - writes, written);
    }

    /** The request that stands for a namespace: that of its least-named network, or a default when there is
        none or they cannot be listed. */
    method CanonicalNetworkRequest(ns: string, networks: array<Network>) returns (req: Request)
      modifies client`calls, networks
      ensures req.ns == ns
      ensures var listed := client.script(old(client.calls)).Done? && networks.Length > 0;
              if listed then IsLeastName(old(networks[..]), req.name) else req.name == "default"
    {
      var ok := client.ListInputs();
      if !ok || networks.Length == 0 {
        return Request(ns, "default");
      }
      ghost var before := networks[..];
      SortByKey(networks, NetworkName);
      SameMembers(networks[..], before);
      CompareStringsZero(networks[0].name, networks[0].name);
      assert networks[0] in networks[..];
      return Request(ns, networks[0].name);
    }

    /** The reconcile entry point: at most one pass per namespace at a time, whatever the name in the request,
        and the namespace is released however the pass ends. A busy namespace is left alone and asked to be
        requeued. */
    method Reconcile(req: Request, devices: array<Device>, networks: array<Network>, errText: string)
      returns (ok: bool, requeue: bool, plans: seq<ApplyPlan>, ghost pass: Option<Pass>)
      requires client.Valid() && lib.Valid()
      modifies gate, client, devices, networks
      ensures client.Valid()
      ensures gate.keys == old(gate.keys)
      ensures requeue <==> cfg.enableDeviceBasedHosts && req.ns in old(gate.keys)
      ensures pass.Some? <==> cfg.enableDeviceBasedHosts && !requeue
      ensures pass.None? ==> ok && unchanged(client) && unchanged(devices) && unchanged(networks)
      ensures pass.Some? ==>
                && Recorded(pass.value, devices, networks) && PassOf(lib, cfg, pass.value)
                && pass.value.ok == ok && pass.value.plans == plans && pass.value.errText == errText
                && (client.Healthy() ==> Unhindered(cfg, client.served, pass.value))
    {
      ok, requeue, plans, pass := true, false, [], None;
      if !cfg.enableDeviceBasedHosts {
        return;
      }
      var entered := gate.Enter(req.ns);
      if !entered {
        requeue := true;
        return;
      }
      ghost var p;
      ok, plans, p := ReconcileNamespace(devices, networks, errText);
      pass := Some(p);
      gate.Leave(req.ns);
    }
  }

  ghost predicate BuiltFrom(lib: Lib, cfg: Config, d0: seq<Device>, n0: seq<Network>, ds: seq<Device>, ns: seq<Network>,
                            out: DeviceBased.Output) {
    && multiset(ds) == multiset(d0) && SortedBy(DeviceName, ds)
    && multiset(ns) == multiset(n0) && SortedBy(NetworkName, ns)
    && DeviceBased.Builds(lib, cfg, ds, ns, out)
  }

  /** `i` is what devices `d0` and networks `n0` amount to under the configuration. */
  ghost predicate InputsFor(lib: Lib, cfg: Config, d0: seq<Device>, n0: seq<Network>, i: Inputs) {
    exists ds, ns, out :: BuiltFrom(lib, cfg, d0, n0, ds, ns, out) && i == InputsOf(cfg, out)
  }

  /** The inputs of a run are determined by the devices and networks, in whatever order they are listed
      and whatever their statuses. */
  lemma InputsUnique(lib: Lib, cfg: Config, d0: seq<Device>, n0: seq<Network>, d1: seq<Device>, n1: seq<Network>,
                     i: Inputs, j: Inputs)
    requires DistinctBy(DeviceName, d0) && DistinctBy(NetworkName, n0)
    requires SameResources(d0, n0, d1, n1)
    requires InputsFor(lib, cfg, d0, n0, i) && InputsFor(lib, cfg, d1, n1, j)
    ensures i == j
  {
    var ds, ns, out :| BuiltFrom(lib, cfg, d0, n0, ds, ns, out) && i == InputsOf(cfg, out);
    var ds', ns', out' :| BuiltFrom(lib, cfg, d1, n1, ds', ns', out') && j == InputsOf(cfg, out');
    DistinctListings(d0, n0, d1, n1);
    ListOrderIrrelevant(lib, cfg, d0, n0, d1, n1, ds, ns, ds', ns', out, out');
  }
}

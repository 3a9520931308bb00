/** What a successful pass leaves in the store and announces in the statuses, in terms of the listed devices and
    networks and the configuration alone. */
module PassResults {
  import opened Kube
  import opened Ensure
  import opened Ordering
  import opened Dnsmasq
  import opened Homelab
  import opened Codec
  import opened StatusConditions
  import opened Goals
  import opened DeviceBased
  import opened DeviceBasedProperties
  import opened DeviceController
  import opened DeviceRuns

  /** `t` is a DNS spec with one entry per device with an address on the network, in address order. */
  ghost predicate DnsTree(lib: Lib, cfg: Config, d0: seq<Device>, n0: seq<Network>, name: string, t: Tree) {
    var parsed := ParseDnsHosts(t);
    && parsed.Ok? && DnsWire(t, parsed.value) && parsed.value.controller == ""
    && multiset(parsed.value.hosts) == DnsShares(cfg, n0, name, d0)
    && InAddressOrder(lib, parsed.value.hosts)
  }

  ghost predicate InAddressOrder(lib: Lib, hosts: seq<DnsHostEntry>) {
    !Straddled(lib.parse, Ips(hosts)) ==> forall i, j :: 0 <= i < j < |hosts| ==> NoLater(lib.parse, hosts[i].ip, hosts[j].ip)
  }

  /** `t` is a DHCP spec with one entry per DHCP device on the network, in strictly increasing name order. */
  ghost predicate DhcpTree(d0: seq<Device>, n0: seq<Network>, name: string, t: Tree) {
    var parsed := ParseDhcpHosts(t);
    && parsed.Ok? && DhcpWire(t, parsed.value) && parsed.value.controller == ""
    && StrictlySorted(Names(parsed.value.hosts))
    && forall e :: e in parsed.value.hosts <==>
                   exists d :: d in d0 && HasDhcp(n0, name, d)
                               && e == DhcpHostEntry(d.spec.macs, d.spec.ip, d.name, [d.spec.network], "infinite")
  }

  /** `t` is the options spec: the global options, and those of each network. */
  ghost predicate OptionsTree(cfg: Config, n0: seq<Network>, t: Tree) {
    var parsed := ParseDhcpOptions(t);
    && parsed.Ok? && OptionsWire(t, parsed.value) && parsed.value.controller == ""
    && HasGlobalOptions(cfg, n0, parsed.value.options)
    && RoutersInOrder(n0, parsed.value.options)
    && forall n :: n in n0 ==> HasItsOptions(cfg, n, parsed.value.options)
  }

  ghost predicate WantsDns(d0: seq<Device>, n0: seq<Network>, name: string) {
    exists d :: d in d0 && HasDns(n0, name, d)
  }

  ghost predicate WantsDhcp(d0: seq<Device>, n0: seq<Network>, name: string) {
    exists d :: d in d0 && HasDhcp(n0, name, d)
  }

  ghost predicate WantsRadius(cfg: Config, d0: seq<Device>, n0: seq<Network>, name: string) {
    exists d :: d in d0 && d.name == name && HasRadius(cfg, n0, d)
  }

  ghost predicate Described(lib: Lib, cfg: Config, d0: seq<Device>, n0: seq<Network>, i: Inputs) {
    lib.Valid() && DistinctBy(DeviceName, d0) && DistinctBy(NetworkName, n0) && InputsFor(lib, cfg, d0, n0, i)
  }

  lemma InputsPlaces(lib: Lib, cfg: Config, d0: seq<Device>, n0: seq<Network>, i: Inputs)
    requires InputsFor(lib, cfg, d0, n0, i)
    ensures i.target == cfg.dnsmasqNamespace
    ensures i.radius == if cfg.enableFreeRadius then Some(cfg.freeRadiusNamespace) else None
  {
  }

  /** The DNS objects a pass wants, and what is in them. */
  lemma DnsWanted(lib: Lib, cfg: Config, d0: seq<Device>, n0: seq<Network>, i: Inputs, name: string)
    requires Described(lib, cfg, d0, n0, i)
    ensures name in i.dns <==> WantsDns(d0, n0, name)
    ensures name in i.dns ==> DnsTree(lib, cfg, d0, n0, name, i.dns[name])
  {
    var ds, ns, out :| BuiltFrom(lib, cfg, d0, n0, ds, ns, out) && i == InputsOf(cfg, out);
    DnsExact(lib, cfg, d0, n0, ds, ns, out.dnsHosts, name);
    if name in i.dns {
      var spec := out.dnsHosts[name];
      assert i.dns[name] == EncodeDnsHosts(spec);
      DnsHostsRoundTrip(spec);
      DnsOnTheWire(spec);
      RawInOrder(lib, DnsRaw(cfg, ns, ds, name));
    }
  }

  lemma RawInOrder(lib: Lib, raw: seq<DnsHostEntry>)
    requires lib.Valid()
    ensures InAddressOrder(lib, NormalHosts(lib, raw))
  {
    var hosts, normal := NormalHosts(lib, raw), NormalEntries(raw);
    NormalHostsMeaning(lib, raw);
    SameMembers(hosts, normal);
    IpsMembers(hosts);
    IpsMembers(normal);
    assert Ips(normal) == Ips(raw);
    assert forall ip :: ip in Ips(hosts) <==> ip in Ips(raw);
  }

  /** The DHCP objects. */
  lemma DhcpWanted(lib: Lib, cfg: Config, d0: seq<Device>, n0: seq<Network>, i: Inputs, name: string)
    requires Described(lib, cfg, d0, n0, i)
    ensures name in i.dhcp <==> WantsDhcp(d0, n0, name)
    ensures name in i.dhcp ==> DhcpTree(d0, n0, name, i.dhcp[name])
  {
    var ds, ns, out :| BuiltFrom(lib, cfg, d0, n0, ds, ns, out) && i == InputsOf(cfg, out);
    DhcpExact(d0, n0, ds, ns, out.dhcpHosts, name);
    if name in i.dhcp {
      var spec := out.dhcpHosts[name];
      assert i.dhcp[name] == EncodeDhcpHosts(spec);
      DhcpHostsRoundTrip(spec);
      DhcpOnTheWire(spec);
    }
  }

  /** The options object. */
  lemma OptionsWanted(lib: Lib, cfg: Config, d0: seq<Device>, n0: seq<Network>, i: Inputs)
    requires Described(lib, cfg, d0, n0, i)
    ensures OptionsTree(cfg, n0, i.options)
  {
    var ds, ns, out :| BuiltFrom(lib, cfg, d0, n0, ds, ns, out) && i == InputsOf(cfg, out);
    var spec := out.dhcpOptions;
    DhcpOptionsRoundTrip(spec);
    OptionsOnTheWire(spec);
    GlobalOptionsExact(cfg, n0, ns);
    RoutersExact(cfg, n0, ns);
    forall n | n in n0 ensures HasItsOptions(cfg, n, spec.options) {
      OptionsExact(cfg, n0, ns, n);
    }
  }

  /** The FreeRADIUS objects. */
  lemma RadiusWanted(lib: Lib, cfg: Config, d0: seq<Device>, n0: seq<Network>, i: Inputs, name: string)
    requires Described(lib, cfg, d0, n0, i)
    ensures name in i.devices <==> WantsRadius(cfg, d0, n0, name)
    ensures forall d, n :: d in d0 && d.name == name && name in i.devices && OnNetwork(n0, d, n) ==>
                             RadiusTree(i.devices[name], d.spec.macs, n.spec.vlan)
  {
    var ds, ns, out :| BuiltFrom(lib, cfg, d0, n0, ds, ns, out) && i == InputsOf(cfg, out);
    forall d | d in d0 && d.name == name
      ensures name in i.devices <==> HasRadius(cfg, n0, d)
      ensures forall n :: name in i.devices && OnNetwork(n0, d, n) ==> RadiusTree(i.devices[name], d.spec.macs, n.spec.vlan)
    {
      FreeRadiusExact(cfg, d0, n0, ds, ns, out.freeRadius, d);
    }
    if name in i.devices {
      RadiusNamed(cfg, d0, n0, ds, ns, out.freeRadius, name);
    }
  }

  lemma RadiusNamed(cfg: Config, d0: seq<Device>, n0: seq<Network>, ds: seq<Device>, ns: seq<Network>,
                    radius: map<string, Tree>, name: string)
    requires Arranged(d0, n0, ds, ns) && BuildsRadius(cfg, ds, ns, radius) && name in radius
    ensures exists d :: d in d0 && d.name == name
  {
    RadiusOfFinds(cfg, ns, ds, name);
    SameMembers(ds, d0);
  }

  /** A live pass that succeeded. */
  ghost predicate Finished(lib: Lib, cfg: Config, p: Pass) {
    lib.Valid() && !cfg.dryRun && PassOf(lib, cfg, p) && p.ok && UniqueNames(p)
  }

  lemma FinishedSettles(lib: Lib, cfg: Config, p: Pass)
    requires Finished(lib, cfg, p)
    ensures p.inputs.Some? && Described(lib, cfg, p.devices, p.networks, p.inputs.value)
    ensures Settled(GoalsOf(p.inputs.value), p.before, p.after)
  {
  }

  /** The objects a pass is to leave. */
  ghost predicate Wants(cfg: Config, d0: seq<Device>, n0: seq<Network>, k: Key) {
    match k.kind
    case ConfigMap =>
      k.name == "homelab-operator-anchor-device-based"
      && (k.ns == cfg.dnsmasqNamespace || (cfg.enableFreeRadius && k.ns == cfg.freeRadiusNamespace))
    case DhcpOptions => k.ns == cfg.dnsmasqNamespace && k.name == "device-based-hosts"
    case DhcpHosts => k.ns == cfg.dnsmasqNamespace && WantsDhcp(d0, n0, k.name)
    case DnsHosts => k.ns == cfg.dnsmasqNamespace && WantsDns(d0, n0, k.name)
    case FreeRadiusDevice => cfg.enableFreeRadius && k.ns == cfg.freeRadiusNamespace && WantsRadius(cfg, d0, n0, k.name)
    case OtherKind(_) => false
  }

  /** The places a pass clears of managed objects. */
  ghost predicate Clears(cfg: Config, d0: seq<Device>, n0: seq<Network>, k: Key) {
    match k.kind
    case FreeRadiusDevice => cfg.enableFreeRadius && k.ns == cfg.freeRadiusNamespace && !WantsRadius(cfg, d0, n0, k.name)
    case DhcpHosts => k.ns == cfg.dnsmasqNamespace && !Protected(d0, n0, k.name)
    case DnsHosts => k.ns == cfg.dnsmasqNamespace && !Protected(d0, n0, k.name)
    case _ => false
  }

  /** Names that neither kind of host object is cleared of. */
  ghost predicate Protected(d0: seq<Device>, n0: seq<Network>, name: string) {
    name == "device-based-hosts" || WantsDns(d0, n0, name) || WantsDhcp(d0, n0, name)
  }

  predicate DeviceBasedLabels(l: Labels) {
    && HasLabel(l, "homelab.valdron.ca/aggregate", "device-based")
    && HasLabel(l, "app.kubernetes.io/managed-by", "homelab-operator")
  }

  /** The labels of an object that stands for no network, and of one that stands for `network`. */
  function OwnLabels(network: Option<string>): Labels {
    var both := map["app.kubernetes.io/managed-by" := "homelab-operator", "homelab.valdron.ca/aggregate" := "device-based"];
    if network.Some? then both["homelab.valdron.ca/network" := network.value] else both
  }

  lemma WantedNames(lib: Lib, cfg: Config, d0: seq<Device>, n0: seq<Network>, i: Inputs, name: string)
    requires Described(lib, cfg, d0, n0, i)
    ensures i.target == cfg.dnsmasqNamespace
    ensures i.radius == (if cfg.enableFreeRadius then Some(cfg.freeRadiusNamespace) else None)
    ensures name in i.dns <==> WantsDns(d0, n0, name)
    ensures name in i.dhcp <==> WantsDhcp(d0, n0, name)
    ensures name in i.devices <==> WantsRadius(cfg, d0, n0, name)
  {
    InputsPlaces(lib, cfg, d0, n0, i);
    DnsWanted(lib, cfg, d0, n0, i, name);
    DhcpWanted(lib, cfg, d0, n0, i, name);
    RadiusWanted(lib, cfg, d0, n0, i, name);
  }

  lemma PublishMeaning(lib: Lib, cfg: Config, d0: seq<Device>, n0: seq<Network>, i: Inputs, k: Key)
    requires Described(lib, cfg, d0, n0, i) && k.kind != ConfigMap
    ensures Wants(cfg, d0, n0, k) <==> GoalOf(i, k).Publish?
    ensures !GoalOf(i, k).Anchor?
  {
    WantedNames(lib, cfg, d0, n0, i, k.name);
    PublishedExact(i, k);
    assert OptionsKey(i) == Key(DhcpOptions, i.target, "device-based-hosts");
  }

  lemma AnchorMeaning(lib: Lib, cfg: Config, d0: seq<Device>, n0: seq<Network>, i: Inputs, k: Key)
    requires Described(lib, cfg, d0, n0, i) && k.kind == ConfigMap
    ensures GoalOf(i, k) == if Wants(cfg, d0, n0, k) then Anchor(OwnLabels(None)) else Leave
    ensures !Clears(cfg, d0, n0, k)
  {
    InputsPlaces(lib, cfg, d0, n0, i);
  }

  lemma SweepPlaces(i: Inputs, k: Key)
    ensures GoalOf(i, k).Sweep? ==> GoalOf(i, k) == Sweep(AGGREGATE)
    ensures GoalOf(i, k).Sweep? <==>
              || (k.kind == FreeRadiusDevice && i.radius == Some(k.ns) && k.name !in i.devices)
              || ((k.kind == DhcpHosts || k.kind == DnsHosts) && k.ns == i.target && k.name !in Keep(i))
  {
  }

  lemma SweepMeaning(lib: Lib, cfg: Config, d0: seq<Device>, n0: seq<Network>, i: Inputs, k: Key)
    requires Described(lib, cfg, d0, n0, i)
    ensures Clears(cfg, d0, n0, k) <==> GoalOf(i, k) == Sweep(AGGREGATE)
    ensures GoalOf(i, k).Sweep? ==> Clears(cfg, d0, n0, k)
  {
    WantedNames(lib, cfg, d0, n0, i, k.name);
    SweepPlaces(i, k);
  }

  lemma OthersGoal(lib: Lib, cfg: Config, d0: seq<Device>, n0: seq<Network>, i: Inputs, k: Key)
    requires Described(lib, cfg, d0, n0, i) && !Wants(cfg, d0, n0, k)
    ensures GoalOf(i, k) == if Clears(cfg, d0, n0, k) then Sweep(AGGREGATE) else Leave
  {
    SweepMeaning(lib, cfg, d0, n0, i, k);
    if k.kind == ConfigMap {
      AnchorMeaning(lib, cfg, d0, n0, i, k);
    } else {
      PublishMeaning(lib, cfg, d0, n0, i, k);
    }
  }

  /** Frame and pruning in one: of everything a pass is not to leave, exactly the managed objects in the places it
      clears are gone, and all else is as it was. */
  lemma OthersAfterPass(lib: Lib, cfg: Config, p: Pass, k: Key)
    requires Finished(lib, cfg, p) && !Wants(cfg, p.devices, p.networks, k)
    ensures Lookup(p.after, k) ==
              if k in p.before && Clears(cfg, p.devices, p.networks, k) && DeviceBasedLabels(p.before[k].labels) then None
              else Lookup(p.before, k)
  {
    FinishedSettles(lib, cfg, p);
    OthersGoal(lib, cfg, p.devices, p.networks, p.inputs.value, k);
    SettledAt(GoalsOf(p.inputs.value), p.before, p.after, k);
  }

  /** The anchors are there with exactly the operator's labels; what else they hold is kept. */
  lemma AnchorsAfterPass(lib: Lib, cfg: Config, p: Pass, k: Key)
    requires Finished(lib, cfg, p) && Wants(cfg, p.devices, p.networks, k) && k.kind == ConfigMap
    ensures k in p.after
    ensures p.after[k].labels == OwnLabels(None)
    ensures p.after[k].owners == if k in p.before then p.before[k].owners else []
    ensures p.after[k].spec == if k in p.before && !p.before[k].spec.Missing? then p.before[k].spec
                               else Fields(map["purpose" := JStr("homelab-operator anchor")])
  {
    FinishedSettles(lib, cfg, p);
    AnchorMeaning(lib, cfg, p.devices, p.networks, p.inputs.value, k);
    SettledAt(GoalsOf(p.inputs.value), p.before, p.after, k);
  }

  lemma NetworkOfName(n0: seq<Network>, d0: seq<Device>, name: string) returns (n: Network)
    requires WantsDns(d0, n0, name) || WantsDhcp(d0, n0, name)
    ensures n in n0 && n.name != "" && name == "device-based-" + n.name
    ensures HostLabels(name) == OwnLabels(Some(n.name))
  {
    if d :| d in d0 && HasDns(n0, name, d) {
      n :| OnNetwork(n0, d, n) && name == "device-based-" + n.name;
    } else {
      var d :| d in d0 && HasDhcp(n0, name, d);
      n :| OnNetwork(n0, d, n) && name == "device-based-" + n.name;
    }
    NetworkNameRoundTrip(n.name);
  }

  lemma PublishedGoal(i: Inputs, k: Key)
    requires GoalOf(i, k).Publish?
    ensures GoalOf(i, k).owner.ref == AnchorRef("homelab-operator-anchor-device-based")
    ensures GoalOf(i, k).labels == if k.kind == DhcpHosts || k.kind == DnsHosts then HostLabels(k.name) else OwnLabels(None)
    ensures k.kind == DnsHosts ==> k.name in i.dns && GoalOf(i, k).spec == i.dns[k.name]
    ensures k.kind == DhcpHosts ==> k.name in i.dhcp && GoalOf(i, k).spec == i.dhcp[k.name]
    ensures k.kind == DhcpOptions ==> GoalOf(i, k).spec == i.options
    ensures k.kind == FreeRadiusDevice ==> k.name in i.devices && GoalOf(i, k).spec == i.devices[k.name]
  {
  }

  /** What a pass is to leave besides the anchors. */
  lemma PublishedAfterPass(lib: Lib, cfg: Config, p: Pass, k: Key)
    requires Finished(lib, cfg, p) && Wants(cfg, p.devices, p.networks, k) && k.kind != ConfigMap
    ensures var i, g := p.inputs.value, GoalOf(p.inputs.value, k);
            && g.Publish? && k in p.after && p.after[k].spec == Fields(g.spec)
            && p.after[k].labels == LabelsIn(p.before, k) + g.labels
            && p.after[k].owners == UpsertOwner(OwnersIn(p.before, k), g.owner.ref)
  {
    FinishedSettles(lib, cfg, p);
    PublishMeaning(lib, cfg, p.devices, p.networks, p.inputs.value, k);
    SettledPublish(GoalsOf(p.inputs.value), p.before, p.after, k);
  }

  lemma NetworkOfHosts(cfg: Config, p: Pass, k: Key) returns (n: Network)
    requires Wants(cfg, p.devices, p.networks, k) && (k.kind == DhcpHosts || k.kind == DnsHosts)
    ensures k.name == "device-based-" + n.name && HostLabels(k.name) == OwnLabels(Some(n.name))
  {
    n := NetworkOfName(p.networks, p.devices, k.name);
  }

  /** Each of them carries its old labels overlaid with the operator's, and has the anchor among its old owners. */
  lemma MetadataAfterPass(lib: Lib, cfg: Config, p: Pass, k: Key) returns (network: Option<string>, n: nat)
    requires Finished(lib, cfg, p) && Wants(cfg, p.devices, p.networks, k) && k.kind != ConfigMap
    ensures k in p.after
    ensures network.Some? <==> k.kind == DhcpHosts || k.kind == DnsHosts
    ensures network.Some? ==> k.name == "device-based-" + network.value
    ensures p.after[k].labels == LabelsIn(p.before, k) + OwnLabels(network)
    ensures AnchoredAt(OwnersIn(p.before, k), p.after[k].owners, "homelab-operator-anchor-device-based", n)
  {
    PublishedAfterPass(lib, cfg, p, k);
    PublishedGoal(p.inputs.value, k);
    n := Anchored(OwnersIn(p.before, k), "homelab-operator-anchor-device-based");
    network := None;
    if k.kind == DhcpHosts || k.kind == DnsHosts {
      var net := NetworkOfHosts(cfg, p, k);
      network := Some(net.name);
    }
  }

  /** And its spec says what the devices and networks amount to. */
  lemma SpecsAfterPass(lib: Lib, cfg: Config, p: Pass, k: Key)
    requires Finished(lib, cfg, p) && Wants(cfg, p.devices, p.networks, k) && k.kind != ConfigMap
    ensures k in p.after && p.after[k].spec.Fields?
    ensures k.kind == DnsHosts ==> DnsTree(lib, cfg, p.devices, p.networks, k.name, p.after[k].spec.tree)
    ensures k.kind == DhcpHosts ==> DhcpTree(p.devices, p.networks, k.name, p.after[k].spec.tree)
    ensures k.kind == DhcpOptions ==> OptionsTree(cfg, p.networks, p.after[k].spec.tree)
    ensures k.kind == FreeRadiusDevice ==>
              forall d, n :: d in p.devices && d.name == k.name && OnNetwork(p.networks, d, n) ==>
                               RadiusTree(p.after[k].spec.tree, d.spec.macs, n.spec.vlan)
  {
    var i := p.inputs.value;
    FinishedSettles(lib, cfg, p);
    PublishedAfterPass(lib, cfg, p, k);
    PublishedGoal(i, k);
    DnsWanted(lib, cfg, p.devices, p.networks, i, k.name);
    DhcpWanted(lib, cfg, p.devices, p.networks, i, k.name);
    OptionsWanted(lib, cfg, p.devices, p.networks, i);
    RadiusWanted(lib, cfg, p.devices, p.networks, i, k.name);
  }

  /** The status of a listed device has to be announced: it speaks of another generation, or of another Ready or
      NetworkAvailable than before. */
  ghost predicate DeviceMoved(d: Device, after: Status) {
    || d.status.observedGeneration != d.generation
    || Differs(d.status.conditions, after.conditions, "Ready")
    || Differs(d.status.conditions, after.conditions, "NetworkAvailable")
  }

  ghost predicate NetworkMoved(n: Network, after: Status) {
    n.status.observedGeneration != n.generation || Differs(n.status.conditions, after.conditions, "Ready")
  }

  lemma DeviceAnnounced(d: Device, names: set<string>, ok: bool, errMsg: string)
    ensures var after := Refreshed(d, names, ok, errMsg).status;
            StaleDevice(false, d, names, ok, errMsg) == if DeviceMoved(d, after) then [StatusWrite(OfDevice, d.name, after)] else []
  {
    var conds, network := d.status.conditions, d.spec.network;
    SetConditionTwice(conds, Condition(NETWORK_AVAILABLE, "False", "NetworkMissing", "Referenced network does not exist"),
                      AvailableOf(network, names));
    SetTwoCompareEqual(conds, AvailableOf(network, names), ReadyOf(network, names, ok, errMsg));
  }

  lemma NetworkAnnounced(n: Network, ok: bool, errMsg: string)
    ensures var after := RefreshedNetwork(n, ok, errMsg).status;
            StaleNetwork(false, n, ok, errMsg) == if NetworkMoved(n, after) then [StatusWrite(OfNetwork, n.name, after)] else []
  {
    SetComparesEqual(n.status.conditions,
                     if ok then Condition(READY, "True", "Synced", "") else Condition(READY, "False", "NotSynced", errMsg));
  }

  /** `w` announces the final status of a device that moved. */
  ghost predicate AnnouncesDevice(listed: seq<Device>, after: seq<Device>, w: StatusWrite) {
    |after| == |listed| && exists j :: 0 <= j < |listed| && DeviceAnnouncement(listed[j], after[j], w)
  }

  ghost predicate DeviceAnnouncement(d: Device, after: Device, w: StatusWrite) {
    DeviceMoved(d, after.status) && w == StatusWrite(OfDevice, d.name, after.status)
  }

  ghost predicate AnnouncesNetwork(listed: seq<Network>, after: seq<Network>, w: StatusWrite) {
    |after| == |listed| && exists j :: 0 <= j < |listed| && NetworkAnnouncement(listed[j], after[j], w)
  }

  ghost predicate NetworkAnnouncement(n: Network, after: Network, w: StatusWrite) {
    NetworkMoved(n, after.status) && w == StatusWrite(OfNetwork, n.name, after.status)
  }

  lemma {:induction false} DevicesAnnounced(devices: seq<Device>, names: set<string>, ok: bool, errMsg: string, w: StatusWrite)
    ensures w in StaleDevices(false, devices, names, ok, errMsg) <==>
              exists d :: d in devices && DeviceAnnouncement(d, Refreshed(d, names, ok, errMsg), w)
  {
    if devices != [] {
      var front, last := devices[..|devices| - 1], devices[|devices| - 1];
      assert devices == front + [last];
      DevicesAnnounced(front, names, ok, errMsg, w);
      DeviceAnnounced(last, names, ok, errMsg);
    }
  }

  lemma {:induction false} NetworksAnnounced(networks: seq<Network>, ok: bool, errMsg: string, w: StatusWrite)
    ensures w in StaleNetworks(false, networks, ok, errMsg) <==>
              exists n :: n in networks && NetworkAnnouncement(n, RefreshedNetwork(n, ok, errMsg), w)
  {
    if networks != [] {
      var front, last := networks[..|networks| - 1], networks[|networks| - 1];
      assert networks == front + [last];
      NetworksAnnounced(front, ok, errMsg, w);
      NetworkAnnounced(last, ok, errMsg);
    }
  }

  lemma DevicesMoved(devices: seq<Device>, names: set<string>, ok: bool, errMsg: string, w: StatusWrite)
    ensures w in StaleDevices(false, devices, names, ok, errMsg) <==>
              AnnouncesDevice(devices, RefreshedUpTo(devices, |devices|, names, ok, errMsg), w)
  {
    DevicesAnnounced(devices, names, ok, errMsg, w);
    if d :| d in devices && DeviceAnnouncement(d, Refreshed(d, names, ok, errMsg), w) {
      var j :| 0 <= j < |devices| && devices[j] == d;
      assert DeviceAnnouncement(devices[j], RefreshedUpTo(devices, |devices|, names, ok, errMsg)[j], w);
    }
  }

  lemma NetworksMoved(networks: seq<Network>, ok: bool, errMsg: string, w: StatusWrite)
    ensures w in StaleNetworks(false, networks, ok, errMsg) <==>
              AnnouncesNetwork(networks, RefreshedNetworks(networks, |networks|, ok, errMsg), w)
  {
    NetworksAnnounced(networks, ok, errMsg, w);
    if n :| n in networks && NetworkAnnouncement(n, RefreshedNetwork(n, ok, errMsg), w) {
      var j :| 0 <= j < |networks| && networks[j] == n;
      assert NetworkAnnouncement(networks[j], RefreshedNetworks(networks, |networks|, ok, errMsg)[j], w);
    }
  }

  /** Exactly the statuses that changed are written, each as it then stands: of devices and networks if a live pass
      succeeds, of devices alone if its options object fails, and none if it fails otherwise. */
  lemma StatusWritesExact(lib: Lib, cfg: Config, p: Pass, w: StatusWrite)
    requires !cfg.dryRun && PassOf(lib, cfg, p)
    ensures w in p.statusWrites <==>
              || ((p.ok || !p.optionsOk) && AnnouncesDevice(p.sortedDevices, p.devicesAfter, w))
              || (p.ok && AnnouncesNetwork(p.sortedNetworks, p.networksAfter, w))
  {
    var names := NetworkNames(p.sortedNetworks);
    if p.inputs.Some? && (p.ok || !p.optionsOk) {
      DevicesMoved(p.sortedDevices, names, p.ok, if p.ok then "" else p.errText, w);
      NetworksMoved(p.sortedNetworks, true, "", w);
    }
  }

  lemma NamesKept(lib: Lib, cfg: Config, p: Pass)
    requires PassOf(lib, cfg, p) && (p.ok || !p.optionsOk)
    ensures SameNames(p.sortedDevices, p.devicesAfter, DeviceName) && SameNames(p.sortedNetworks, p.networksAfter, NetworkName)
  {
  }

  lemma SortedListing(lib: Lib, cfg: Config, p: Pass)
    requires PassOf(lib, cfg, p) && UniqueNames(p) && p.inputs.Some?
    ensures DistinctBy(DeviceName, p.sortedDevices) && DistinctBy(NetworkName, p.sortedNetworks)
    ensures forall d :: d in p.sortedDevices <==> d in p.devices
    ensures forall n :: n in p.sortedNetworks <==> n in p.networks
  {
    DistinctPermutes(DeviceName, p.devices, p.sortedDevices);
    DistinctPermutes(NetworkName, p.networks, p.sortedNetworks);
    SameMembers(p.sortedDevices, p.devices);
    SameMembers(p.sortedNetworks, p.networks);
  }

  ghost predicate SameNames<T>(a: seq<T>, b: seq<T>, name: T -> string) {
    |a| == |b| && forall i :: 0 <= i < |a| ==> name(a[i]) == name(b[i])
  }

  lemma SamePosition<T>(a: seq<T>, b: seq<T>, name: T -> string, x: T, y: T) returns (j: nat)
    requires SameNames(a, b, name) && DistinctBy(name, a) && x in a && y in b && name(x) == name(y)
    ensures j < |a| == |b| && a[j] == x && b[j] == y
    ensures forall i :: 0 <= i < |a| && name(a[i]) == name(x) ==> i == j
  {
    j :| 0 <= j < |a| && a[j] == x;
    var i :| 0 <= i < |b| && b[i] == y;
    assert name(a[i]) == name(a[j]);
  }

  lemma OneDeviceAnnounced(listed: seq<Device>, after: seq<Device>, d: Device, a: Device, s: Status)
    requires SameNames(listed, after, DeviceName) && DistinctBy(DeviceName, listed)
    requires d in listed && a in after && a.name == d.name
    ensures AnnouncesDevice(listed, after, StatusWrite(OfDevice, d.name, s)) <==> DeviceMoved(d, a.status) && s == a.status
  {
    var w := StatusWrite(OfDevice, d.name, s);
    var j := SamePosition(listed, after, DeviceName, d, a);
    assert DeviceAnnouncement(listed[j], after[j], w) <==> DeviceMoved(d, a.status) && s == a.status;
    if AnnouncesDevice(listed, after, w) {
      var i :| 0 <= i < |listed| && DeviceAnnouncement(listed[i], after[i], w);
      assert DeviceName(listed[i]) == d.name;
    }
  }

  lemma OneNetworkAnnounced(listed: seq<Network>, after: seq<Network>, n: Network, a: Network, s: Status)
    requires SameNames(listed, after, NetworkName) && DistinctBy(NetworkName, listed)
    requires n in listed && a in after && a.name == n.name
    ensures AnnouncesNetwork(listed, after, StatusWrite(OfNetwork, n.name, s)) <==> NetworkMoved(n, a.status) && s == a.status
  {
    var w := StatusWrite(OfNetwork, n.name, s);
    var j := SamePosition(listed, after, NetworkName, n, a);
    assert NetworkAnnouncement(listed[j], after[j], w) <==> NetworkMoved(n, a.status) && s == a.status;
    if AnnouncesNetwork(listed, after, w) {
      var i :| 0 <= i < |listed| && NetworkAnnouncement(listed[i], after[i], w);
      assert NetworkName(listed[i]) == n.name;
    }
  }

  /** Of one listed device: its status is written iff it moved, and then as it is after the pass. */
  lemma DeviceStatusWritten(lib: Lib, cfg: Config, p: Pass, d: Device, after: Device, s: Status)
    requires !cfg.dryRun && PassOf(lib, cfg, p) && UniqueNames(p) && (p.ok || !p.optionsOk)
    requires d in p.devices && after in p.devicesAfter && after.name == d.name
    ensures StatusWrite(OfDevice, d.name, s) in p.statusWrites <==> DeviceMoved(d, after.status) && s == after.status
  {
    StatusWritesExact(lib, cfg, p, StatusWrite(OfDevice, d.name, s));
    NamesKept(lib, cfg, p);
    SortedListing(lib, cfg, p);
    OneDeviceAnnounced(p.sortedDevices, p.devicesAfter, d, after, s);
  }

  /** The same of one listed network, after success. */
  lemma NetworkStatusWritten(lib: Lib, cfg: Config, p: Pass, n: Network, after: Network, s: Status)
    requires !cfg.dryRun && PassOf(lib, cfg, p) && UniqueNames(p) && p.ok
    requires n in p.networks && after in p.networksAfter && after.name == n.name
    ensures StatusWrite(OfNetwork, n.name, s) in p.statusWrites <==> NetworkMoved(n, after.status) && s == after.status
  {
    StatusWritesExact(lib, cfg, p, StatusWrite(OfNetwork, n.name, s));
    NamesKept(lib, cfg, p);
    SortedListing(lib, cfg, p);
    OneNetworkAnnounced(p.sortedNetworks, p.networksAfter, n, after, s);
  }
}

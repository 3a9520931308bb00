/** Desired state of the device-based aggregate: internal/desired/devicebased.go. */
module DeviceBased {
  import opened Kube
  import opened Ordering
  import opened Dnsmasq
  import opened Homelab

  const DHCP_OPTIONS_NAME := "device-based-hosts"

  const PREFIX := "device-based-"

  function ResourceName(network: string): string {
    PREFIX + network
  }

  datatype Output = Output(
    dhcpOptions: DhcpOptionsSpec,
    dhcpHosts: map<string, DhcpHostsSpec>,
    dnsHosts: map<string, DnsHostsSpec>,
    freeRadius: map<string, Tree>)

  /** The network of that name; the last one if there are several. */
  function NetworkNamed(ns: seq<Network>, name: string): Option<Network> {
    if ns == [] then None
    else if ns[|ns| - 1].name == name then Some(ns[|ns| - 1])
    else NetworkNamed(ns[..|ns| - 1], name)
  }

  predicate Placed(ns: seq<Network>, d: Device) {
    d.spec.network != "" && NetworkNamed(ns, d.spec.network).Some?
  }

  function Variants(cfg: Config, host: string): seq<string> {
    (if cfg.enableDeviceShortName then [host] else [])
    + (if cfg.deviceSuffix != "" then [host + cfg.deviceSuffix] else [])
  }

  function HostnamesOf(cfg: Config, d: Device): seq<string> {
    Collect([d.name] + d.spec.additionalHostnames, h => Variants(cfg, h))
  }

  function DnsEntries(cfg: Config, ns: seq<Network>, r: string, d: Device): seq<DnsHostEntry> {
    if Placed(ns, d) && d.spec.ip != "" && ResourceName(d.spec.network) == r
    then [DnsHostEntry(d.spec.ip, HostnamesOf(cfg, d))] else []
  }

  function DnsRaw(cfg: Config, ns: seq<Network>, ds: seq<Device>, r: string): seq<DnsHostEntry> {
    Collect(ds, d => DnsEntries(cfg, ns, r, d))
  }

  function DhcpEntry(d: Device): DhcpHostEntry {
    DhcpHostEntry(d.spec.macs, d.spec.ip, d.name, [d.spec.network], LEASE_TIME_INFINITE)
  }

  function DhcpEntries(ns: seq<Network>, r: string, d: Device): seq<DhcpHostEntry> {
    if Placed(ns, d) && d.spec.dhcp && ResourceName(d.spec.network) == r then [DhcpEntry(d)] else []
  }

  function DhcpRaw(ns: seq<Network>, ds: seq<Device>, r: string): seq<DhcpHostEntry> {
    Collect(ds, d => DhcpEntries(ns, r, d))
  }

  function FreeRadiusSpec(macs: seq<string>, vlan: int): Tree {
    map["macAddresses" := JArr(seq(|macs|, i requires 0 <= i < |macs| => JStr(macs[i]))), "vlan" := JNum(vlan)]
  }

  predicate RadiusEligible(cfg: Config, ns: seq<Network>, d: Device) {
    Placed(ns, d) && cfg.enableFreeRadius && (cfg.freeRadiusWirelessOnly ==> d.spec.wireless)
  }

  /** The FreeRADIUS object of that name; of the last eligible device if there are several. */
  function RadiusOf(cfg: Config, ns: seq<Network>, ds: seq<Device>, name: string): Option<Tree> {
    if ds == [] then None
    else
      var d := ds[|ds| - 1];
      if d.name == name && RadiusEligible(cfg, ns, d)
      then Some(FreeRadiusSpec(d.spec.macs, NetworkNamed(ns, d.spec.network).value.spec.vlan))
      else RadiusOf(cfg, ns, ds[..|ds| - 1], name)
  }

  function GlobalOptions(cfg: Config): seq<DhcpOption> {
    (if cfg.domainName != "" then [DhcpOption("option:domain-name", [cfg.domainName], [])] else [])
    + (if cfg.domainSearch != [] then [DhcpOption("option:domain-search", cfg.domainSearch, [])] else [])
  }

  predicate Serving(n: Network) {
    n.spec.serveDhcp && n.spec.router != ""
  }

  function NetworkOptions(cfg: Config, n: Network): seq<DhcpOption> {
    if !Serving(n) then []
    else
      (if n.spec.dnsServer != "" then [DhcpOption("option:dns-server", [n.spec.dnsServer], [n.name])]
       else if cfg.dnsServer != "" then [DhcpOption("option:dns-server", [cfg.dnsServer], [n.name])]
       else [])
      + [DhcpOption("option:router", [n.spec.router], [n.name])]
  }

  function AllNetworkOptions(cfg: Config, ns: seq<Network>): seq<DhcpOption> {
    Collect(ns, n => NetworkOptions(cfg, n))
  }

  function Options(cfg: Config, ns: seq<Network>): seq<DhcpOption> {
    GlobalOptions(cfg) + AllNetworkOptions(cfg, ns)
  }

  ghost predicate BuildsDhcp(ds: seq<Device>, ns: seq<Network>, dhcp: map<string, DhcpHostsSpec>) {
    && (forall r :: r in dhcp <==> DhcpRaw(ns, ds, r) != [])
    && (forall r :: r in dhcp ==> dhcp[r] == DhcpHostsSpec("", DhcpRaw(ns, ds, r)))
  }

  ghost predicate BuildsDns(lib: Lib, cfg: Config, ds: seq<Device>, ns: seq<Network>, dns: map<string, DnsHostsSpec>) {
    && (forall r :: r in dns <==> DnsRaw(cfg, ns, ds, r) != [])
    && (forall r :: r in dns ==> dns[r] == DnsHostsSpec("", NormalHosts(lib, DnsRaw(cfg, ns, ds, r))))
  }

  ghost predicate BuildsRadius(cfg: Config, ds: seq<Device>, ns: seq<Network>, radius: map<string, Tree>) {
    && (forall name :: name in radius <==> RadiusOf(cfg, ns, ds, name).Some?)
    && (forall name :: name in radius ==> RadiusOf(cfg, ns, ds, name) == Some(radius[name]))
  }

  /** What the loops compute from name-sorted devices `ds` and networks `ns`. */
  ghost predicate Builds(lib: Lib, cfg: Config, ds: seq<Device>, ns: seq<Network>, out: Output) {
    && out.dhcpOptions == DhcpOptionsSpec("", Options(cfg, ns))
    && BuildsDhcp(ds, ns, out.dhcpHosts)
    && BuildsDns(lib, cfg, ds, ns, out.dnsHosts)
    && BuildsRadius(cfg, ds, ns, out.freeRadius)
  }

  method HostnamesForDevice(d: Device, cfg: Config) returns (names: seq<string>)
    ensures names == HostnamesOf(cfg, d)
  {
    names := [];
    var hosts := [d.name] + d.spec.additionalHostnames;
    for i := 0 to |hosts|
      invariant names == Collect(hosts[..i], h => Variants(cfg, h))
    {
      CollectStep(hosts, i, h => Variants(cfg, h));
      if cfg.enableDeviceShortName {
        names := names + [hosts[i]];
      }
      if cfg.deviceSuffix != "" {
        names := names + [hosts[i] + cfg.deviceSuffix];
      }
    }
    assert hosts[..|hosts|] == hosts;
  }

  method AppendNetworkOptions(cfg: Config, network: Network, options: seq<DhcpOption>) returns (more: seq<DhcpOption>)
    ensures more == options + NetworkOptions(cfg, network)
  {
    more := options;
    if !network.spec.serveDhcp || network.spec.router == "" {
      return;
    }
    if network.spec.dnsServer != "" {
      more := more + [DhcpOption("option:dns-server", [network.spec.dnsServer], [network.name])];
    } else if cfg.dnsServer != "" {
      more := more + [DhcpOption("option:dns-server", [cfg.dnsServer], [network.name])];
    }
    more := more + [DhcpOption("option:router", [network.spec.router], [network.name])];
  }

  method BuildOptions(cfg: Config, networks: array<Network>) returns (options: seq<DhcpOption>)
    ensures options == Options(cfg, networks[..])
  {
    options := [];
    if cfg.domainName != "" {
      options := options + [DhcpOption("option:domain-name", [cfg.domainName], [])];
    }
    if |cfg.domainSearch| > 0 {
      options := options + [DhcpOption("option:domain-search", cfg.domainSearch, [])];
    }
    ghost var ns, global := networks[..], options;
    assert global == GlobalOptions(cfg);
    for i := 0 to networks.Length
      invariant options == global + AllNetworkOptions(cfg, ns[..i])
    {
      CollectStep(ns, i, n => NetworkOptions(cfg, n));
      options := AppendNetworkOptions(cfg, networks[i], options);
    }
    assert ns[..|ns|] == ns;
  }

  ghost predicate Indexes(ns: seq<Network>, byName: map<string, Network>) {
    forall name :: Find(byName, name) == NetworkNamed(ns, name)
  }

  method IndexNetworks(networks: array<Network>) returns (byName: map<string, Network>)
    ensures Indexes(networks[..], byName)
  {
    byName := map[];
    ghost var ns := networks[..];
    for i := 0 to networks.Length
      invariant Indexes(ns[..i], byName)
    {
      assert ns[..i + 1][..i] == ns[..i];
      byName := byName[networks[i].name := networks[i]];
    }
    assert ns[..|ns|] == ns;
  }

  ghost predicate DnsDone(cfg: Config, ns: seq<Network>, ds: seq<Device>, dns: map<string, DnsHostsSpec>) {
    forall r :: DnsRaw(cfg, ns, ds, r) == (if r in dns then dns[r].hosts else [])
                && (r in dns ==> dns[r].hosts != [] && dns[r].controller == "")
  }

  ghost predicate DhcpDone(ns: seq<Network>, ds: seq<Device>, dhcp: map<string, DhcpHostsSpec>) {
    forall r :: DhcpRaw(ns, ds, r) == (if r in dhcp then dhcp[r].hosts else [])
                && (r in dhcp ==> dhcp[r].hosts != [] && dhcp[r].controller == "")
  }

  ghost predicate RadiusDone(cfg: Config, ns: seq<Network>, ds: seq<Device>, radius: map<string, Tree>) {
    forall name :: Find(radius, name) == RadiusOf(cfg, ns, ds, name)
  }

  lemma OneMoreDns(cfg: Config, ns: seq<Network>, ds: seq<Device>, d: Device)
    ensures forall r :: DnsRaw(cfg, ns, ds + [d], r) == DnsRaw(cfg, ns, ds, r) + DnsEntries(cfg, ns, r, d)
  {
    assert (ds + [d])[..|ds + [d]| - 1] == ds;
  }

  lemma OneMoreDhcp(ns: seq<Network>, ds: seq<Device>, d: Device)
    ensures forall r :: DhcpRaw(ns, ds + [d], r) == DhcpRaw(ns, ds, r) + DhcpEntries(ns, r, d)
  {
    assert (ds + [d])[..|ds + [d]| - 1] == ds;
  }

  lemma OneMoreRadius(cfg: Config, ns: seq<Network>, ds: seq<Device>, d: Device)
    ensures forall name :: RadiusOf(cfg, ns, ds + [d], name) ==
                             if d.name == name && RadiusEligible(cfg, ns, d)
                             then Some(FreeRadiusSpec(d.spec.macs, NetworkNamed(ns, d.spec.network).value.spec.vlan))
                             else RadiusOf(cfg, ns, ds, name)
  {
    assert (ds + [d])[..|ds + [d]| - 1] == ds;
  }

  lemma Skipped(cfg: Config, ns: seq<Network>, ds: seq<Device>, d: Device)
    requires !Placed(ns, d)
    ensures forall r :: DnsRaw(cfg, ns, ds + [d], r) == DnsRaw(cfg, ns, ds, r)
    ensures forall r :: DhcpRaw(ns, ds + [d], r) == DhcpRaw(ns, ds, r)
    ensures forall name :: RadiusOf(cfg, ns, ds + [d], name) == RadiusOf(cfg, ns, ds, name)
  {
    OneMoreDns(cfg, ns, ds, d);
    OneMoreDhcp(ns, ds, d);
    OneMoreRadius(cfg, ns, ds, d);
  }

  lemma DnsPlaced(cfg: Config, ns: seq<Network>, ds: seq<Device>, d: Device,
                  before: map<string, DnsHostsSpec>, after: map<string, DnsHostsSpec>)
    requires Placed(ns, d) && d.spec.ip != "" && DnsDone(cfg, ns, ds, before)
    requires var r := ResourceName(d.spec.network);
             var old' := if r in before then before[r].hosts else [];
             after == before[r := DnsHostsSpec("", old' + [DnsHostEntry(d.spec.ip, HostnamesOf(cfg, d))])]
    ensures DnsDone(cfg, ns, ds + [d], after)
  {
    OneMoreDns(cfg, ns, ds, d);
    var name := ResourceName(d.spec.network);
    assert DnsEntries(cfg, ns, name, d) == [DnsHostEntry(d.spec.ip, HostnamesOf(cfg, d))];
    assert forall r :: r != name ==> DnsEntries(cfg, ns, r, d) == [];
  }

  lemma DhcpPlaced(ns: seq<Network>, ds: seq<Device>, d: Device,
                   before: map<string, DhcpHostsSpec>, after: map<string, DhcpHostsSpec>)
    requires Placed(ns, d) && d.spec.dhcp && DhcpDone(ns, ds, before)
    requires var r := ResourceName(d.spec.network);
             var old' := if r in before then before[r].hosts else [];
             after == before[r := DhcpHostsSpec("", old' + [DhcpEntry(d)])]
    ensures DhcpDone(ns, ds + [d], after)
  {
    OneMoreDhcp(ns, ds, d);
    var name := ResourceName(d.spec.network);
    assert DhcpEntries(ns, name, d) == [DhcpEntry(d)];
    assert forall r :: r != name ==> DhcpEntries(ns, r, d) == [];
  }

  method PlaceDns(cfg: Config, device: Device, dns: map<string, DnsHostsSpec>, ghost ns: seq<Network>, ghost ds: seq<Device>)
    returns (r: map<string, DnsHostsSpec>)
    requires Placed(ns, device) && DnsDone(cfg, ns, ds, dns)
    ensures DnsDone(cfg, ns, ds + [device], r)
  {
    if device.spec.ip == "" {
      OneMoreDns(cfg, ns, ds, device);
      return dns;
    }
    var name := ResourceName(device.spec.network);
    var names := HostnamesForDevice(device, cfg);
    var spec := if name in dns then dns[name] else DnsHostsSpec("", []);
    r := dns[name := spec.(hosts := spec.hosts + [DnsHostEntry(device.spec.ip, names)])];
    DnsPlaced(cfg, ns, ds, device, dns, r);
  }

  method PlaceDhcp(device: Device, dhcp: map<string, DhcpHostsSpec>, ghost ns: seq<Network>, ghost ds: seq<Device>)
    returns (r: map<string, DhcpHostsSpec>)
    requires Placed(ns, device) && DhcpDone(ns, ds, dhcp)
    ensures DhcpDone(ns, ds + [device], r)
  {
    if !device.spec.dhcp {
      OneMoreDhcp(ns, ds, device);
      return dhcp;
    }
    var name := ResourceName(device.spec.network);
    var spec := if name in dhcp then dhcp[name] else DhcpHostsSpec("", []);
    r := dhcp[name := spec.(hosts := spec.hosts + [
      DhcpHostEntry(device.spec.macs, device.spec.ip, device.name, [device.spec.network], LEASE_TIME_INFINITE)])];
    DhcpPlaced(ns, ds, device, dhcp, r);
  }

  method PlaceDevices(cfg: Config, devices: array<Device>, byName: map<string, Network>, ghost ns: seq<Network>)
    returns (dns: map<string, DnsHostsSpec>, dhcp: map<string, DhcpHostsSpec>, radius: map<string, Tree>)
    requires Indexes(ns, byName)
    ensures DnsDone(cfg, ns, devices[..], dns)
    ensures DhcpDone(ns, devices[..], dhcp)
    ensures RadiusDone(cfg, ns, devices[..], radius)
  {
    dns, dhcp, radius := map[], map[], map[];
    ghost var ds := devices[..];
    for i := 0 to devices.Length
      invariant DnsDone(cfg, ns, ds[..i], dns)
      invariant DhcpDone(ns, ds[..i], dhcp)
      invariant RadiusDone(cfg, ns, ds[..i], radius)
    {
      var device := devices[i];
      assert ds[..i + 1] == ds[..i] + [device];
      assert Find(byName, device.spec.network) == NetworkNamed(ns, device.spec.network);
      if device.spec.network == "" || device.spec.network !in byName {
        Skipped(cfg, ns, ds[..i], device);
        continue;
      }
      var network := byName[device.spec.network];
      dns := PlaceDns(cfg, device, dns, ns, ds[..i]);
      dhcp := PlaceDhcp(device, dhcp, ns, ds[..i]);
      assert RadiusDone(cfg, ns, ds[..i + 1],
                        if RadiusEligible(cfg, ns, device)
                        then radius[device.name := FreeRadiusSpec(device.spec.macs, network.spec.vlan)]
                        else radius) by {
        OneMoreRadius(cfg, ns, ds[..i], device);
      }
      if cfg.enableFreeRadius {
        if cfg.freeRadiusWirelessOnly && !device.spec.wireless {
          continue;
        }
        radius := radius[device.name := FreeRadiusSpec(device.spec.macs, network.spec.vlan)];
      }
    }
    assert ds[..|ds|] == ds;
  }

  method NormalizeAll(lib: Lib, raw: map<string, DnsHostsSpec>) returns (dns: map<string, DnsHostsSpec>)
    requires lib.Valid()
    ensures dns.Keys == raw.Keys
    ensures forall r :: r in raw ==> dns[r] == raw[r].(hosts := NormalHosts(lib, raw[r].hosts))
  {
    dns := raw;
    var names := raw.Keys;
    while names != {}
      invariant names <= raw.Keys == dns.Keys
      invariant forall r :: r in names ==> dns[r] == raw[r]
      invariant forall r :: r in raw && r !in names ==> dns[r] == raw[r].(hosts := NormalHosts(lib, raw[r].hosts))
      decreases |names|
    {
      var name :| name in names;
      var spec := dns[name];
      var hosts := new DnsHostEntry[|spec.hosts|](i requires 0 <= i < |spec.hosts| => spec.hosts[i]);
      assert hosts[..] == spec.hosts;
      NormalizeDnsHosts(lib, hosts);
      dns := dns[name := spec.(hosts := hosts[..])];
      names := names - {name};
    }
  }

  /** Sorts both inputs in place, then computes every device-based object. */
  method BuildDeviceBased(lib: Lib, devices: array<Device>, networks: array<Network>, cfg: Config) returns (out: Output)
    requires lib.Valid()
    modifies devices, networks
    ensures multiset(devices[..]) == multiset(old(devices[..])) && SortedBy(DeviceName, devices[..])
    ensures multiset(networks[..]) == multiset(old(networks[..])) && SortedBy(NetworkName, networks[..])
    ensures Builds(lib, cfg, devices[..], networks[..], out)
  {
    SortByKey(devices, DeviceName);
    SortByKey(networks, NetworkName);
    var byName := IndexNetworks(networks);
    var options := BuildOptions(cfg, networks);
    var raw, dhcp, radius := PlaceDevices(cfg, devices, byName, networks[..]);
    var dns := NormalizeAll(lib, raw);
    out := Output(DhcpOptionsSpec("", options), dhcp, dns, radius);
    assert Builds(lib, cfg, devices[..], networks[..], out) by {
      forall name ensures name in radius <==> RadiusOf(cfg, networks[..], devices[..], name).Some?
        ensures name in radius ==> RadiusOf(cfg, networks[..], devices[..], name) == Some(radius[name])
      {
        assert Find(radius, name) == RadiusOf(cfg, networks[..], devices[..], name);
      }
    }
  }
}

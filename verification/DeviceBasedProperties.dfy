/** What the device-based output means, in terms of the unordered devices and networks. */
module DeviceBasedProperties {
  import opened Kube
  import opened Ordering
  import opened Dnsmasq
  import opened Homelab
  import opened DeviceBased

  /** `ds` and `ns` are the name-sorted arrangements of `d0` and `n0`, whose names are unique. */
  ghost predicate Arranged(d0: seq<Device>, n0: seq<Network>, ds: seq<Device>, ns: seq<Network>) {
    && DistinctBy(DeviceName, d0) && DistinctBy(NetworkName, n0)
    && multiset(ds) == multiset(d0) && SortedBy(DeviceName, ds)
    && multiset(ns) == multiset(n0) && SortedBy(NetworkName, ns)
  }

  /** The device names an existing network. */
  ghost predicate OnNetwork(n0: seq<Network>, d: Device, n: Network) {
    n in n0 && n.name != "" && d.spec.network == n.name
  }

  ghost predicate OnSomeNetwork(n0: seq<Network>, d: Device) {
    exists n :: OnNetwork(n0, d, n)
  }

  lemma {:induction false} NetworkNamedFinds(ns: seq<Network>, name: string)
    ensures match NetworkNamed(ns, name)
            case Some(n) => n in ns && n.name == name
            case None => forall n :: n in ns ==> n.name != name
  {
    if ns != [] {
      assert ns == ns[..|ns| - 1] + [ns[|ns| - 1]];
      NetworkNamedFinds(ns[..|ns| - 1], name);
    }
  }

  lemma PlacedMeaning(n0: seq<Network>, ns: seq<Network>, d: Device)
    requires DistinctBy(NetworkName, n0) && multiset(ns) == multiset(n0)
    ensures Placed(ns, d) <==> OnSomeNetwork(n0, d)
    ensures forall n :: OnNetwork(n0, d, n) ==> NetworkNamed(ns, d.spec.network) == Some(n)
  {
    SameMembers(ns, n0);
    NetworkNamedFinds(ns, d.spec.network);
    forall n | OnNetwork(n0, d, n) ensures NetworkNamed(ns, d.spec.network) == Some(n) {
      DistinctMembers(NetworkName, n0, n, NetworkNamed(ns, d.spec.network).value);
    }
    if Placed(ns, d) {
      assert OnNetwork(n0, d, NetworkNamed(ns, d.spec.network).value);
    }
  }

  ghost predicate HasDns(n0: seq<Network>, r: string, d: Device) {
    exists n :: OnNetwork(n0, d, n) && d.spec.ip != "" && r == "device-based-" + n.name
  }

  ghost predicate HasDhcp(n0: seq<Network>, r: string, d: Device) {
    exists n :: OnNetwork(n0, d, n) && d.spec.dhcp && r == "device-based-" + n.name
  }

  /** The one DNS entry a device contributes to resource `r`, if any. */
  ghost function DnsShare(cfg: Config, n0: seq<Network>, r: string, d: Device): multiset<DnsHostEntry> {
    if HasDns(n0, r, d) then multiset{DnsHostEntry(d.spec.ip, SortedSet(HostnamesOf(cfg, d)))} else multiset{}
  }

  ghost function DnsShares(cfg: Config, n0: seq<Network>, r: string, d0: seq<Device>): multiset<DnsHostEntry> {
    Image(d0, d => DnsShare(cfg, n0, r, d))
  }

  lemma {:induction false} NormalEntriesCollect(cfg: Config, ns: seq<Network>, ds: seq<Device>, r: string,
                                                f: Device -> seq<DnsHostEntry>)
    requires forall d :: f(d) == NormalEntries(DnsEntries(cfg, ns, r, d))
    ensures NormalEntries(DnsRaw(cfg, ns, ds, r)) == Collect(ds, f)
  {
    if ds != [] {
      NormalEntriesCollect(cfg, ns, ds[..|ds| - 1], r, f);
    }
  }

  lemma DnsRawExact(cfg: Config, d0: seq<Device>, n0: seq<Network>, ds: seq<Device>, ns: seq<Network>, r: string)
    requires DistinctBy(NetworkName, n0) && multiset(ds) == multiset(d0) && multiset(ns) == multiset(n0)
    ensures multiset(NormalEntries(DnsRaw(cfg, ns, ds, r))) == DnsShares(cfg, n0, r, d0)
  {
    var f := d => NormalEntries(DnsEntries(cfg, ns, r, d));
    var g := d => DnsShare(cfg, n0, r, d);
    NormalEntriesCollect(cfg, ns, ds, r, f);
    forall d ensures g(d) == multiset(f(d)) {
      DnsEntriesMeaning(cfg, n0, ns, r, d);
    }
    CollectImage(ds, f, g);
    ImagePermutes(ds, d0, g);
  }

  /** Each network's DNS entries are, as a multiset, one entry per device on that existing network with
      an address; a resource exists exactly when there is such a device. */
  lemma DnsExact(lib: Lib, cfg: Config, d0: seq<Device>, n0: seq<Network>, ds: seq<Device>, ns: seq<Network>,
                 dns: map<string, DnsHostsSpec>, r: string)
    requires lib.Valid() && Arranged(d0, n0, ds, ns) && BuildsDns(lib, cfg, ds, ns, dns)
    ensures r in dns <==> exists d :: d in d0 && HasDns(n0, r, d)
    ensures r in dns ==> multiset(dns[r].hosts) == DnsShares(cfg, n0, r, d0)
  {
    DnsRawNonempty(cfg, d0, n0, ds, ns, r);
    DnsRawExact(cfg, d0, n0, ds, ns, r);
    NormalHostsMeaning(lib, DnsRaw(cfg, ns, ds, r));
  }

  lemma DnsEntriesMeaning(cfg: Config, n0: seq<Network>, ns: seq<Network>, r: string, d: Device)
    requires DistinctBy(NetworkName, n0) && multiset(ns) == multiset(n0)
    ensures multiset(NormalEntries(DnsEntries(cfg, ns, r, d))) == DnsShare(cfg, n0, r, d)
    ensures DnsEntries(cfg, ns, r, d) != [] <==> HasDns(n0, r, d)
  {
    PlacedMeaning(n0, ns, d);
    if DnsEntries(cfg, ns, r, d) != [] {
      assert NormalEntries(DnsEntries(cfg, ns, r, d)) == [DnsHostEntry(d.spec.ip, SortedSet(HostnamesOf(cfg, d)))];
    }
  }

  lemma DnsRawNonempty(cfg: Config, d0: seq<Device>, n0: seq<Network>, ds: seq<Device>, ns: seq<Network>, r: string)
    requires Arranged(d0, n0, ds, ns)
    ensures DnsRaw(cfg, ns, ds, r) != [] <==> exists d :: d in d0 && HasDns(n0, r, d)
  {
    SameMembers(ds, d0);
    forall d ensures DnsEntries(cfg, ns, r, d) != [] <==> HasDns(n0, r, d) {
      DnsEntriesMeaning(cfg, n0, ns, r, d);
    }
    var raw := DnsRaw(cfg, ns, ds, r);
    CollectMembers(ds, d => DnsEntries(cfg, ns, r, d));
    if raw != [] {
      assert raw[0] in raw;
    }
    if d :| d in d0 && HasDns(n0, r, d) {
      assert DnsEntries(cfg, ns, r, d)[0] in raw;
    }
  }

  /** The names of a device: its own and its additional ones, each bare, suffixed, or both. */
  lemma HostnamesExact(cfg: Config, d: Device)
    ensures forall h :: h in HostnamesOf(cfg, d) <==>
                        exists base :: (base == d.name || base in d.spec.additionalHostnames)
                                       && ((cfg.enableDeviceShortName && h == base)
                                           || (cfg.deviceSuffix != "" && h == base + cfg.deviceSuffix))
  {
    CollectMembers([d.name] + d.spec.additionalHostnames, h => Variants(cfg, h));
    forall h, base | (base == d.name || base in d.spec.additionalHostnames) && h in Variants(cfg, base)
      ensures h in HostnamesOf(cfg, d)
    {
      assert base in [d.name] + d.spec.additionalHostnames;
    }
  }

  function Names(hosts: seq<DhcpHostEntry>): (r: seq<string>)
    ensures |r| == |hosts|
    ensures forall i :: 0 <= i < |hosts| ==> r[i] == hosts[i].hostname
  {
    seq(|hosts|, i requires 0 <= i < |hosts| => hosts[i].hostname)
  }

  lemma {:induction false} DhcpNamesCollect(ns: seq<Network>, ds: seq<Device>, r: string, f: Device -> seq<string>)
    requires forall d :: f(d) == Names(DhcpEntries(ns, r, d))
    ensures Names(DhcpRaw(ns, ds, r)) == Collect(ds, f)
  {
    if ds != [] {
      DhcpNamesCollect(ns, ds[..|ds| - 1], r, f);
    }
  }

  lemma DhcpNamesSorted(ns: seq<Network>, ds: seq<Device>, r: string)
    requires SortedBy(DeviceName, ds) && DistinctBy(DeviceName, ds)
    ensures StrictlySorted(Names(DhcpRaw(ns, ds, r)))
  {
    var f := d => Names(DhcpEntries(ns, r, d));
    forall d ensures f(d) == if DhcpEntries(ns, r, d) != [] then [DeviceName(d)] else [] {
      assert DhcpEntries(ns, r, d) == [] || DhcpEntries(ns, r, d) == [DhcpEntry(d)];
    }
    DhcpNamesCollect(ns, ds, r, f);
    var chosen := d => DhcpEntries(ns, r, d) != [];
    DistinctIsApart(DeviceName, ds, chosen);
    KeysInOrder(DeviceName, ds, f, chosen);
  }

  lemma DhcpRawMembers(d0: seq<Device>, n0: seq<Network>, ds: seq<Device>, ns: seq<Network>, r: string)
    requires DistinctBy(NetworkName, n0) && multiset(ds) == multiset(d0) && multiset(ns) == multiset(n0)
    ensures forall e :: e in DhcpRaw(ns, ds, r) <==> exists d :: d in d0 && HasDhcp(n0, r, d) && e == DhcpEntry(d)
    ensures DhcpRaw(ns, ds, r) != [] <==> exists d :: d in d0 && HasDhcp(n0, r, d)
  {
    SameMembers(ds, d0);
    forall d ensures DhcpEntries(ns, r, d) == if HasDhcp(n0, r, d) then [DhcpEntry(d)] else [] {
      PlacedMeaning(n0, ns, d);
    }
    var raw := DhcpRaw(ns, ds, r);
    CollectMembers(ds, d => DhcpEntries(ns, r, d));
    if raw != [] {
      assert raw[0] in raw;
    }
    if d :| d in d0 && HasDhcp(n0, r, d) {
      assert DhcpEntry(d) in raw;
    }
  }

  /** DHCP entries are exactly the DHCP devices of the network, in strictly increasing name order. */
  lemma DhcpExact(d0: seq<Device>, n0: seq<Network>, ds: seq<Device>, ns: seq<Network>, dhcp: map<string, DhcpHostsSpec>,
                  r: string)
    requires Arranged(d0, n0, ds, ns) && BuildsDhcp(ds, ns, dhcp)
    ensures r in dhcp <==> exists d :: d in d0 && HasDhcp(n0, r, d)
    ensures r in dhcp ==>
              && StrictlySorted(Names(dhcp[r].hosts))
              && forall e :: e in dhcp[r].hosts <==>
                             exists d :: d in d0 && HasDhcp(n0, r, d)
                                         && e == DhcpHostEntry(d.spec.macs, d.spec.ip, d.name, [d.spec.network], "infinite")
  {
    DhcpRawMembers(d0, n0, ds, ns, r);
    DistinctPermutes(DeviceName, d0, ds);
    DhcpNamesSorted(ns, ds, r);
  }

  lemma {:induction false} RadiusOfFinds(cfg: Config, ns: seq<Network>, ds: seq<Device>, name: string)
    ensures match RadiusOf(cfg, ns, ds, name)
            case Some(t) => exists d :: && d in ds && d.name == name && RadiusEligible(cfg, ns, d)
                                        && t == FreeRadiusSpec(d.spec.macs, NetworkNamed(ns, d.spec.network).value.spec.vlan)
            case None => forall d :: d in ds && d.name == name ==> !RadiusEligible(cfg, ns, d)
  {
    if ds != [] {
      var front, last := ds[..|ds| - 1], ds[|ds| - 1];
      assert ds == front + [last];
      RadiusOfFinds(cfg, ns, front, name);
      assert last in ds;
    }
  }

  /** The tree of a FreeRADIUS object with these MAC addresses and this VLAN. */
  predicate RadiusTree(t: Tree, macs: seq<string>, vlan: int) {
    && t.Keys == {"macAddresses", "vlan"}
    && Texts(t["macAddresses"], macs) && t["vlan"] == JNum(vlan)
  }

  /** A device that gets a FreeRADIUS object. */
  ghost predicate HasRadius(cfg: Config, n0: seq<Network>, d: Device) {
    cfg.enableFreeRadius && OnSomeNetwork(n0, d) && (cfg.freeRadiusWirelessOnly ==> d.spec.wireless)
  }

  /** FreeRADIUS objects are exactly the eligible devices, each with its MAC addresses and the VLAN of its
      network. */
  lemma FreeRadiusExact(cfg: Config, d0: seq<Device>, n0: seq<Network>, ds: seq<Device>, ns: seq<Network>,
                        radius: map<string, Tree>, d: Device)
    requires Arranged(d0, n0, ds, ns) && BuildsRadius(cfg, ds, ns, radius) && d in d0
    ensures d.name in radius <==> HasRadius(cfg, n0, d)
    ensures forall n :: d.name in radius && OnNetwork(n0, d, n) ==> RadiusTree(radius[d.name], d.spec.macs, n.spec.vlan)
    ensures forall name :: name in radius ==> exists x :: x in d0 && x.name == name
  {
    SameMembers(ds, d0);
    PlacedMeaning(n0, ns, d);
    RadiusOfFinds(cfg, ns, ds, d.name);
    forall x | x in ds && x.name == d.name ensures x == d {
      DistinctMembers(DeviceName, d0, x, d);
    }
    forall name | name in radius ensures exists x :: x in d0 && x.name == name {
      RadiusOfFinds(cfg, ns, ds, name);
    }
  }

  /** The options that carry exactly the tag `tag`. */
  function Tagged(options: seq<DhcpOption>, tag: string): seq<DhcpOption> {
    Collect(options, (o: DhcpOption) => if o.tags == [tag] then [o] else [])
  }

  lemma TaggedConcat(a: seq<DhcpOption>, b: seq<DhcpOption>, tag: string)
    ensures Tagged(a + b, tag) == Tagged(a, tag) + Tagged(b, tag)
  {
    CollectConcat(a, b, (o: DhcpOption) => if o.tags == [tag] then [o] else []);
  }

  lemma TaggedShort(o: seq<DhcpOption>, tag: string)
    requires |o| <= 2
    requires (forall i :: 0 <= i < |o| ==> o[i].tags == [tag]) || (forall i :: 0 <= i < |o| ==> o[i].tags != [tag])
    ensures Tagged(o, tag) == if o != [] && o[0].tags == [tag] then o else []
  {
    var f := (o: DhcpOption) => if o.tags == [tag] then [o] else [];
    if |o| == 2 {
      CollectTwo(o[0], o[1], f);
      assert o == [o[0], o[1]];
    } else if |o| == 1 {
      CollectTwo(o[0], o[0], f);
      assert o == [o[0]];
    }
  }

  lemma {:induction false} TaggedAll(ns: seq<Network>, tag: string, f: Network -> seq<DhcpOption>)
    requires DistinctBy(NetworkName, ns)
    requires forall n :: Tagged(f(n), tag) == if n.name == tag then f(n) else []
    ensures Tagged(Collect(ns, f), tag) == match NetworkNamed(ns, tag) case Some(n) => f(n) case None => []
  {
    if ns != [] {
      var front, last := ns[..|ns| - 1], ns[|ns| - 1];
      assert ns == front + [last];
      TaggedAll(front, tag, f);
      TaggedConcat(Collect(front, f), f(last), tag);
      NetworkNamedFinds(front, tag);
    }
  }

  lemma OptionsTagged(cfg: Config, n: Network, tag: string)
    ensures Tagged(NetworkOptions(cfg, n), tag) == if n.name == tag then NetworkOptions(cfg, n) else []
    ensures Tagged(GlobalOptions(cfg), tag) == []
  {
    TaggedShort(NetworkOptions(cfg, n), tag);
    TaggedShort(GlobalOptions(cfg), tag);
  }

  lemma TaggedOptions(cfg: Config, ns: seq<Network>, n: Network)
    requires DistinctBy(NetworkName, ns) && n in ns
    ensures Tagged(Options(cfg, ns), n.name) == NetworkOptions(cfg, n)
  {
    var f := x => NetworkOptions(cfg, x);
    forall x ensures Tagged(f(x), n.name) == if x.name == n.name then f(x) else [] {
      OptionsTagged(cfg, x, n.name);
    }
    OptionsTagged(cfg, n, n.name);
    TaggedAll(ns, n.name, f);
    TaggedConcat(GlobalOptions(cfg), AllNetworkOptions(cfg, ns), n.name);
    NetworkNamedFinds(ns, n.name);
    DistinctMembers(NetworkName, ns, n, NetworkNamed(ns, n.name).value);
  }

  ghost predicate HasItsOptions(cfg: Config, n: Network, options: seq<DhcpOption>) {
    var mine := Tagged(options, n.name);
    var server := if n.spec.dnsServer != "" then n.spec.dnsServer else cfg.dnsServer;
    if !n.spec.serveDhcp || n.spec.router == "" then mine == []
    else if server == "" then mine == [DhcpOption("option:router", [n.spec.router], [n.name])]
    else mine == [DhcpOption("option:dns-server", [server], [n.name]),
                  DhcpOption("option:router", [n.spec.router], [n.name])]
  }

  /** Options tagged with a network are none if it does not serve DHCP; otherwise its DNS server or else
      the default one, if there is either, followed by its router. */
  lemma OptionsExact(cfg: Config, n0: seq<Network>, ns: seq<Network>, n: Network)
    requires DistinctBy(NetworkName, n0) && multiset(ns) == multiset(n0) && n in n0
    ensures HasItsOptions(cfg, n, Options(cfg, ns))
  {
    SameMembers(ns, n0);
    DistinctPermutes(NetworkName, n0, ns);
    TaggedOptions(cfg, ns, n);
  }

  /** The tags of the router options, in order. */
  function RouterTags(options: seq<DhcpOption>): seq<string> {
    Collect(options, (o: DhcpOption) => if o.key == "option:router" then o.tags else [])
  }

  lemma RouterTagsConcat(a: seq<DhcpOption>, b: seq<DhcpOption>)
    ensures RouterTags(a + b) == RouterTags(a) + RouterTags(b)
  {
    CollectConcat(a, b, (o: DhcpOption) => if o.key == "option:router" then o.tags else []);
  }

  lemma RouterTagsShort(cfg: Config, n: Network)
    ensures RouterTags(NetworkOptions(cfg, n)) == if Serving(n) then [n.name] else []
  {
    var f := (o: DhcpOption) => if o.key == "option:router" then o.tags else [];
    var o := NetworkOptions(cfg, n);
    if |o| == 2 {
      CollectTwo(o[0], o[1], f);
    } else if |o| == 1 {
      CollectTwo(o[0], o[0], f);
    }
  }

  lemma GlobalRouterTags(cfg: Config)
    ensures RouterTags(GlobalOptions(cfg)) == []
  {
    var f := (o: DhcpOption) => if o.key == "option:router" then o.tags else [];
    var g := GlobalOptions(cfg);
    if |g| == 2 {
      CollectTwo(g[0], g[1], f);
    } else if |g| == 1 {
      CollectTwo(g[0], g[0], f);
    }
  }

  lemma {:induction false} RouterTagsAll(cfg: Config, ns: seq<Network>, f: Network -> seq<string>)
    requires forall n :: f(n) == if Serving(n) then [n.name] else []
    ensures RouterTags(AllNetworkOptions(cfg, ns)) == Collect(ns, f)
  {
    if ns != [] {
      var front, last := ns[..|ns| - 1], ns[|ns| - 1];
      RouterTagsAll(cfg, front, f);
      RouterTagsConcat(AllNetworkOptions(cfg, front), NetworkOptions(cfg, last));
      RouterTagsShort(cfg, last);
    }
  }

  lemma RouterTagsSorted(cfg: Config, ns: seq<Network>)
    requires SortedBy(NetworkName, ns) && DistinctBy(NetworkName, ns)
    ensures StrictlySorted(RouterTags(Options(cfg, ns)))
    ensures forall t :: t in RouterTags(Options(cfg, ns)) <==> exists n :: n in ns && Serving(n) && n.name == t
  {
    RouterTagsConcat(GlobalOptions(cfg), AllNetworkOptions(cfg, ns));
    GlobalRouterTags(cfg);
    var f := (n: Network) => if Serving(n) then [n.name] else [];
    RouterTagsAll(cfg, ns, f);
    DistinctIsApart(NetworkName, ns, Serving);
    KeysInOrder(NetworkName, ns, f, Serving);
    assert RouterTags(Options(cfg, ns)) == Collect(ns, f);
  }

  ghost predicate RoutersInOrder(n0: seq<Network>, options: seq<DhcpOption>) {
    && StrictlySorted(RouterTags(options))
    && forall t :: t in RouterTags(options) <==>
                   exists n :: n in n0 && n.spec.serveDhcp && n.spec.router != "" && n.name == t
  }

  /** Exactly the serving networks have a router option, in strictly increasing name order. */
  lemma RoutersExact(cfg: Config, n0: seq<Network>, ns: seq<Network>)
    requires DistinctBy(NetworkName, n0) && multiset(ns) == multiset(n0) && SortedBy(NetworkName, ns)
    ensures RoutersInOrder(n0, Options(cfg, ns))
  {
    SameMembers(ns, n0);
    DistinctPermutes(NetworkName, n0, ns);
    RouterTagsSorted(cfg, ns);
  }

  /** The options without a tag. */
  function Untagged(options: seq<DhcpOption>): seq<DhcpOption> {
    Collect(options, (o: DhcpOption) => if o.tags == [] then [o] else [])
  }

  lemma {:induction false} UntaggedAll(ns: seq<Network>, f: Network -> seq<DhcpOption>)
    requires forall n :: Untagged(f(n)) == []
    ensures Untagged(Collect(ns, f)) == []
  {
    if ns != [] {
      var front, last := ns[..|ns| - 1], ns[|ns| - 1];
      UntaggedAll(front, f);
      UntaggedConcat(Collect(front, f), f(last));
    }
  }

  lemma NetworkOptionsTagged(cfg: Config, ns: seq<Network>)
    ensures Untagged(AllNetworkOptions(cfg, ns)) == []
    ensures forall o :: o in AllNetworkOptions(cfg, ns) ==> exists n :: n in ns && Serving(n) && o.tags == [n.name]
  {
    var f := n => NetworkOptions(cfg, n);
    forall n ensures Untagged(f(n)) == [] && forall o :: o in f(n) ==> Serving(n) && o.tags == [n.name] {
      UntaggedShort(NetworkOptions(cfg, n));
    }
    UntaggedAll(ns, f);
    CollectMembers(ns, f);
  }

  lemma UntaggedConcat(a: seq<DhcpOption>, b: seq<DhcpOption>)
    ensures Untagged(a + b) == Untagged(a) + Untagged(b)
  {
    CollectConcat(a, b, (o: DhcpOption) => if o.tags == [] then [o] else []);
  }

  lemma UntaggedShort(o: seq<DhcpOption>)
    requires |o| <= 2
    requires (forall i :: 0 <= i < |o| ==> o[i].tags == []) || (forall i :: 0 <= i < |o| ==> o[i].tags != [])
    ensures Untagged(o) == if o != [] && o[0].tags == [] then o else []
  {
    var f := (o: DhcpOption) => if o.tags == [] then [o] else [];
    if |o| == 2 {
      CollectTwo(o[0], o[1], f);
      assert o == [o[0], o[1]];
    } else if |o| == 1 {
      CollectTwo(o[0], o[0], f);
      assert o == [o[0]];
    }
  }

  ghost predicate HasGlobalOptions(cfg: Config, n0: seq<Network>, options: seq<DhcpOption>) {
    && Untagged(options) ==
         (if cfg.domainName == "" then [] else [DhcpOption("option:domain-name", [cfg.domainName], [])])
         + (if cfg.domainSearch == [] then [] else [DhcpOption("option:domain-search", cfg.domainSearch, [])])
    && forall o :: o in options ==>
         o.tags == [] || exists n :: n in n0 && n.spec.serveDhcp && n.spec.router != "" && o.tags == [n.name]
  }

  /** Without a tag there are exactly the domain name and the search list, each if configured; every other
      option carries the tag of a serving network. */
  lemma GlobalOptionsExact(cfg: Config, n0: seq<Network>, ns: seq<Network>)
    requires multiset(ns) == multiset(n0)
    ensures HasGlobalOptions(cfg, n0, Options(cfg, ns))
  {
    UntaggedAreGlobal(cfg, ns);
    OtherTags(cfg, n0, ns);
  }

  lemma UntaggedAreGlobal(cfg: Config, ns: seq<Network>)
    ensures Untagged(Options(cfg, ns)) == GlobalOptions(cfg)
  {
    NetworkOptionsTagged(cfg, ns);
    UntaggedConcat(GlobalOptions(cfg), AllNetworkOptions(cfg, ns));
    UntaggedShort(GlobalOptions(cfg));
  }

  lemma OtherTags(cfg: Config, n0: seq<Network>, ns: seq<Network>)
    requires multiset(ns) == multiset(n0)
    ensures forall o :: o in Options(cfg, ns) ==>
              o.tags == [] || exists n :: n in n0 && n.spec.serveDhcp && n.spec.router != "" && o.tags == [n.name]
  {
    SameMembers(ns, n0);
    NetworkOptionsTagged(cfg, ns);
  }

  lemma {:induction false} NetworkNamedBare(ns: seq<Network>, name: string)
    ensures NetworkNamed(BareNetworks(ns), name) ==
              match NetworkNamed(ns, name) case Some(n) => Some(BareNetwork(n)) case None => None
  {
    if ns != [] {
      NetworkNamedBare(ns[..|ns| - 1], name);
      assert BareNetworks(ns)[..|ns| - 1] == BareNetworks(ns[..|ns| - 1]);
    }
  }

  lemma PlacedBare(ns: seq<Network>, d: Device)
    ensures Placed(BareNetworks(ns), BareDevice(d)) <==> Placed(ns, d)
  {
    NetworkNamedBare(ns, d.spec.network);
  }

  lemma DnsRawBare(cfg: Config, ns: seq<Network>, ds: seq<Device>, r: string)
    ensures DnsRaw(cfg, BareNetworks(ns), BareDevices(ds), r) == DnsRaw(cfg, ns, ds, r)
  {
    forall d ensures DnsEntries(cfg, BareNetworks(ns), r, BareDevice(d)) == DnsEntries(cfg, ns, r, d) {
      PlacedBare(ns, d);
    }
    CollectPointwise(BareDevices(ds), ds, d => DnsEntries(cfg, BareNetworks(ns), r, d), d => DnsEntries(cfg, ns, r, d));
  }

  lemma DhcpRawBare(ns: seq<Network>, ds: seq<Device>, r: string)
    ensures DhcpRaw(BareNetworks(ns), BareDevices(ds), r) == DhcpRaw(ns, ds, r)
  {
    forall d ensures DhcpEntries(BareNetworks(ns), r, BareDevice(d)) == DhcpEntries(ns, r, d) {
      PlacedBare(ns, d);
    }
    CollectPointwise(BareDevices(ds), ds, d => DhcpEntries(BareNetworks(ns), r, d), d => DhcpEntries(ns, r, d));
  }

  lemma {:induction false} RadiusOfBare(cfg: Config, ns: seq<Network>, ds: seq<Device>, name: string)
    ensures RadiusOf(cfg, BareNetworks(ns), BareDevices(ds), name) == RadiusOf(cfg, ns, ds, name)
  {
    if ds != [] {
      var front, last := ds[..|ds| - 1], ds[|ds| - 1];
      assert BareDevices(ds)[..|ds| - 1] == BareDevices(front);
      RadiusOfBare(cfg, ns, front, name);
      PlacedBare(ns, last);
      NetworkNamedBare(ns, last.spec.network);
    }
  }

  lemma OptionsBare(cfg: Config, ns: seq<Network>)
    ensures Options(cfg, BareNetworks(ns)) == Options(cfg, ns)
  {
    CollectPointwise(BareNetworks(ns), ns, n => NetworkOptions(cfg, n), n => NetworkOptions(cfg, n));
  }

  /** Statuses and generations do not reach the output. */
  lemma StatusesIrrelevant(lib: Lib, cfg: Config, ds: seq<Device>, ns: seq<Network>, out: Output)
    ensures Builds(lib, cfg, ds, ns, out) <==> Builds(lib, cfg, BareDevices(ds), BareNetworks(ns), out)
  {
    OptionsBare(cfg, ns);
    forall r ensures DnsRaw(cfg, BareNetworks(ns), BareDevices(ds), r) == DnsRaw(cfg, ns, ds, r)
      ensures DhcpRaw(BareNetworks(ns), BareDevices(ds), r) == DhcpRaw(ns, ds, r)
    {
      DnsRawBare(cfg, ns, ds, r);
      DhcpRawBare(ns, ds, r);
    }
    forall name ensures RadiusOf(cfg, BareNetworks(ns), BareDevices(ds), name) == RadiusOf(cfg, ns, ds, name) {
      RadiusOfBare(cfg, ns, ds, name);
    }
    BuildAlike(lib, cfg, BareDevices(ds), BareNetworks(ns), ds, ns, out);
  }

  lemma BuildAlike(lib: Lib, cfg: Config, ds: seq<Device>, ns: seq<Network>, ds': seq<Device>, ns': seq<Network>, out: Output)
    requires Options(cfg, ns) == Options(cfg, ns')
    requires forall r :: DnsRaw(cfg, ns, ds, r) == DnsRaw(cfg, ns', ds', r)
    requires forall r :: DhcpRaw(ns, ds, r) == DhcpRaw(ns', ds', r)
    requires forall name :: RadiusOf(cfg, ns, ds, name) == RadiusOf(cfg, ns', ds', name)
    ensures Builds(lib, cfg, ds, ns, out) <==> Builds(lib, cfg, ds', ns', out)
  {
    assert BuildsDhcp(ds, ns, out.dhcpHosts) <==> BuildsDhcp(ds', ns', out.dhcpHosts);
    assert BuildsDns(lib, cfg, ds, ns, out.dnsHosts) <==> BuildsDns(lib, cfg, ds', ns', out.dnsHosts);
    assert BuildsRadius(cfg, ds, ns, out.freeRadius) <==> BuildsRadius(cfg, ds', ns', out.freeRadius);
  }

  lemma BaresPermute(d0: seq<Device>, n0: seq<Network>, ds: seq<Device>, ns: seq<Network>)
    requires multiset(ds) == multiset(d0) && multiset(ns) == multiset(n0)
    ensures SameResources(ds, ns, d0, n0)
  {
    MappedPermutes(ds, d0, BareDevice, BareDevices(ds), BareDevices(d0));
    MappedPermutes(ns, n0, BareNetwork, BareNetworks(ns), BareNetworks(n0));
  }

  /** Names that are unique in one listing are unique in every listing of the same resources. */
  lemma DistinctListings(d0: seq<Device>, n0: seq<Network>, d1: seq<Device>, n1: seq<Network>)
    requires DistinctBy(DeviceName, d0) && DistinctBy(NetworkName, n0) && SameResources(d0, n0, d1, n1)
    ensures DistinctBy(DeviceName, d1) && DistinctBy(NetworkName, n1)
  {
    DistinctBares(d0, n0);
    DistinctPermutes(DeviceName, BareDevices(d0), BareDevices(d1));
    DistinctPermutes(NetworkName, BareNetworks(n0), BareNetworks(n1));
    DistinctBares(d1, n1);
  }

  lemma DistinctBares(d0: seq<Device>, n0: seq<Network>)
    ensures DistinctBy(DeviceName, BareDevices(d0)) <==> DistinctBy(DeviceName, d0)
    ensures DistinctBy(NetworkName, BareNetworks(n0)) <==> DistinctBy(NetworkName, n0)
  {
    assert forall i :: 0 <= i < |d0| ==> DeviceName(BareDevices(d0)[i]) == DeviceName(d0[i]);
    assert forall i :: 0 <= i < |n0| ==> NetworkName(BareNetworks(n0)[i]) == NetworkName(n0[i]);
  }

  /** Hence the sorted arrangements of two listings of the same resources are the same but for statuses. */
  lemma ArrangementsAgree(d0: seq<Device>, n0: seq<Network>, ds0: seq<Device>, ns0: seq<Network>,
                          d1: seq<Device>, n1: seq<Network>, ds1: seq<Device>, ns1: seq<Network>)
    requires Arranged(d0, n0, ds0, ns0) && Arranged(d1, n1, ds1, ns1) && SameResources(d0, n0, d1, n1)
    ensures BareDevices(ds0) == BareDevices(ds1) && BareNetworks(ns0) == BareNetworks(ns1)
  {
    BaresPermute(d0, n0, ds0, ns0);
    BaresPermute(d1, n1, ds1, ns1);
    DistinctBares(d0, n0);
    assert SortedBy(DeviceName, BareDevices(ds0)) && SortedBy(DeviceName, BareDevices(ds1));
    assert SortedBy(NetworkName, BareNetworks(ns0)) && SortedBy(NetworkName, BareNetworks(ns1));
    SortedByUnique(DeviceName, BareDevices(d0), BareDevices(ds0), BareDevices(ds1));
    SortedByUnique(NetworkName, BareNetworks(n0), BareNetworks(ns0), BareNetworks(ns1));
  }

  /** The whole output depends on the devices and networks, not on the order they were listed in, nor on
      their statuses. */
  lemma ListOrderIrrelevant(lib: Lib, cfg: Config, d0: seq<Device>, n0: seq<Network>, d1: seq<Device>, n1: seq<Network>,
                            ds0: seq<Device>, ns0: seq<Network>, ds1: seq<Device>, ns1: seq<Network>,
                            out0: Output, out1: Output)
    requires Arranged(d0, n0, ds0, ns0) && Builds(lib, cfg, ds0, ns0, out0)
    requires Arranged(d1, n1, ds1, ns1) && Builds(lib, cfg, ds1, ns1, out1)
    requires SameResources(d0, n0, d1, n1)
    ensures out0 == out1
  {
    ArrangementsAgree(d0, n0, ds0, ns0, d1, n1, ds1, ns1);
    StatusesIrrelevant(lib, cfg, ds0, ns0, out0);
    StatusesIrrelevant(lib, cfg, ds1, ns1, out1);
    OneOutput(lib, cfg, BareDevices(ds0), BareNetworks(ns0), out0, out1);
  }

  lemma OneOutput(lib: Lib, cfg: Config, ds: seq<Device>, ns: seq<Network>, out0: Output, out1: Output)
    requires Builds(lib, cfg, ds, ns, out0) && Builds(lib, cfg, ds, ns, out1)
    ensures out0 == out1
  {
    assert out0.dhcpHosts == out1.dhcpHosts;
    assert out0.dnsHosts == out1.dnsHosts;
    assert out0.freeRadius == out1.freeRadius;
  }

  /** Every object name starts with the device-based prefix, and gives back its network. */
  lemma NamesArePrefixed(lib: Lib, cfg: Config, ds: seq<Device>, ns: seq<Network>, out: Output, r: string)
    requires Builds(lib, cfg, ds, ns, out) && (r in out.dhcpHosts || r in out.dnsHosts)
    ensures PREFIX < r
  {
    CollectMembers(ds, d => DnsEntries(cfg, ns, r, d));
    CollectMembers(ds, d => DhcpEntries(ns, r, d));
    if r in out.dhcpHosts {
      assert DhcpRaw(ns, ds, r)[0] in DhcpRaw(ns, ds, r);
    } else {
      assert DnsRaw(cfg, ns, ds, r)[0] in DnsRaw(cfg, ns, ds, r);
    }
  }
}

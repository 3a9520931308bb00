/** The operator's own resources and its configuration. */
module Homelab {
  import opened Kube

  datatype DeviceSpec =
    DeviceSpec(network: string, ip: string, macs: seq<string>, dhcp: bool, additionalHostnames: seq<string>, wireless: bool)

  datatype Device = Device(name: string, generation: int, spec: DeviceSpec, status: Status)

  datatype NetworkSpec = NetworkSpec(vlan: int, serveDhcp: bool, router: string, dnsServer: string)

  datatype Network = Network(name: string, generation: int, spec: NetworkSpec, status: Status)

  datatype Config = Config(
    dryRun: bool,
    dnsmasqNamespace: string,
    dnsServer: string,
    domainName: string,
    domainSearch: seq<string>,
    enableDeviceBasedHosts: bool,
    enableDeviceShortName: bool,
    deviceSuffix: string,
    enableFreeRadius: bool,
    freeRadiusNamespace: string,
    freeRadiusWirelessOnly: bool,
    enableIngress: bool,
    useHttpRoutes: bool,
    enableLoadBalancer: bool,
    loadBalancerSuffix: string,
    watchNamespaces: seq<string>)

  function DeviceName(d: Device): string { d.name }

  function NetworkName(n: Network): string { n.name }

  /** A device without what a pass writes to it: its status, and the generation that goes with it. */
  function BareDevice(d: Device): Device {
    d.(generation := 0, status := Status(0, []))
  }

  function BareNetwork(n: Network): Network {
    n.(generation := 0, status := Status(0, []))
  }

  function BareDevices(ds: seq<Device>): (r: seq<Device>)
    ensures |r| == |ds| && forall i :: 0 <= i < |ds| ==> r[i] == BareDevice(ds[i])
  {
    seq(|ds|, i requires 0 <= i < |ds| => BareDevice(ds[i]))
  }

  function BareNetworks(ns: seq<Network>): (r: seq<Network>)
    ensures |r| == |ns| && forall i :: 0 <= i < |ns| ==> r[i] == BareNetwork(ns[i])
  {
    seq(|ns|, i requires 0 <= i < |ns| => BareNetwork(ns[i]))
  }

  /** Two listings of the same resources: in any order, and whatever was written to their statuses. */
  ghost predicate SameResources(d0: seq<Device>, n0: seq<Network>, d1: seq<Device>, n1: seq<Network>) {
    multiset(BareDevices(d0)) == multiset(BareDevices(d1)) && multiset(BareNetworks(n0)) == multiset(BareNetworks(n1))
  }
}

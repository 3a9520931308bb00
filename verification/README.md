# Homelab operator: verified model

This project models the Kubernetes operator that turns Devices, Networks, Ingresses, HTTP routes and
LoadBalancer Services into dnsmasq and FreeRADIUS objects, and proves what its runs do to the shared object
store. Run `dafny verify dfyconfig.toml`.

## How the model is laid out

| file | what it holds |
|---|---|
| `Kube.dfy` | objects, the store, and an API client whose every call takes effect and answers, is refused, or takes effect while its answer is lost |
| `Ensure.dfy` | the plan verdict, and create-or-update with its mutation |
| `Ordering.dfy` | string order, sorting, compacting, and sums over lists |
| `Dnsmasq.dfy`, `Codec.dfy` | the dnsmasq specs, their normal form, the wire format, and the typed-to-tree codec |
| `Homelab.dfy`, `StatusConditions.dfy` | the operator's own resources, its configuration, its status conditions |
| `DeviceBased.dfy`, `IngressBased.dfy`, `LoadBalancerBased.dfy` | the desired-state builders as loops over sorted arrays and maps, each against a recursive specification |
| `DeviceBasedProperties.dfy`, `IngressBasedProperties.dfy` | what those specifications mean for the unordered inputs |
| `IngressOrder.dfy` | when the order of a listing can decide between routers, and listings that go wrong |
| `Goals.dfy` | what a device run wants of every object, and what follows from that alone |
| `DeviceController.dfy`, `AggregateControllers.dfy` | the three reconcilers as classes over the client |
| `PassResults.dfy` | what a successful device pass leaves in the store and announces in statuses, in terms of devices and networks alone |
| `DeviceRuns.dfy` | sequences of device passes, each a record of what it listed, wrote and left: retries, repetitions, dry runs |
| `Interleaving.dfy`, `Turns.dfy` | the three reconcilers interleaved call by call, and taking turns |
| `Schedules.dfy` | schedules built step by step, and exactly when all of them agree |
| `Gate.dfy` | the gate as a class, its protocol for any number of threads, and the store their runs share |
| `Settings.dfy`, `ReconcileLog.dfy` | comma lists and derived settings; plan deduplication and tallies |

The centre is `Goals.Settle`: the whole change a run makes to one object. A run that stops anywhere leaves
each object as it was or settled (`Near`); one that succeeds leaves all of them settled (`Settled`). The
reconciler methods are proved to do just that for every behaviour of the API, with map iteration in any order:
the client's script decides, call by call, whether a call is done, refused, or lost after taking effect, so a
crash after any call is a run whose remaining calls are refused. Everything about retries, repetition,
leftovers and interleaving then follows from `Settle` being idempotent and acting on one object at a time.
`PassResults` closes the gap to the inputs: after a successful pass the object `device-based-<network>` holds, key
by key, what the devices on that network amount to, with these labels and this owner, and nothing else has changed
but the stale objects that are gone.

Address parsing and the sort of host entries are parameters (`Dnsmasq.Lib`): any partial function to
addresses, and any function with the contract of `slices.SortFunc`. Where a result needs more than that contract,
namely that a sorted list with ties is left alone, it says so (`Dnsmasq.Lib.KeepsSorted`).

## What was found out about the code

* `compareIP` is not transitive in general (`CompareIPCycle`). It is on a list of addresses exactly when no
  unparseable address lies, as text, between two parseable ones that are numerically the other way round
  (`CompareIPPreorderIff`); lists that are all parseable or all unparseable are such.
* The keep-set of a prune is shared by DhcpHosts and DnsHosts and holds the name of the options object, so a
  stale object of one kind survives while the other kind wants its name. One network with one DHCP device
  whose address was removed is enough (`StaleDnsHostsStays`). `ExactLeftovers` and `NoLeftoversIff` say
  exactly what is left.
* Binding the CSV flags and applying them unchanged alters a loaded configuration if a derived search entry
  is neither clean nor blank, for instance with a comma in the domain name (`CommaInDomainName`); `ReapplyIff`
  is the exact condition.
* Ingress entries are keyed by router name, so of two serving routers of one name, in two namespaces, one
  loses its address (`NamesakeLosesAddress`, a concrete listing). The spec is one entry per serving router iff
  no two serving routers share a name (`IngressExact`); namesakes that serve nothing are harmless.
* Routers are sorted by name alone. If two of one name claim one class, their listing order decides which is
  published (`TiedListingUnsettled`); the order is irrelevant iff routers that tie so have one address
  (`OrderIrrelevantIff`).
* An `ingress-based` or `load-balancer-based` DNS object that carries the device-based labels is swept by the
  device reconciler, and under some schedule is missing once all have finished although it is wanted
  (`MislabelledInterferes`). All schedules agree iff there is no such object (`SchedulesAgreeIff`,
  `ForeignLabelsDecide`); other wrong labels are harmless.
* The "/"-joined resource key tells resources apart if group-kind and namespace have no "/" in them
  (`KeyInjective`), which holds for what the operator plans (`RunPlansDistinct`).

## Model

| member | source | states |
|---|---|---|
| `Kube.Client.Write` | internal/ensure/ensure.go:18 | a create or update takes effect only when the kind is served and the object is absent or present as asked; an effect may be reported as a failure, never the reverse |
| `Kube.Client.List` | internal/controller/device_controller.go:239-246 | lists, each once and in any order, exactly the objects of a kind and namespace that carry both managed labels |
| `Ensure.PlanUnstructured` | internal/ensure/plan.go:25-64 | the verdict on the live object: create iff it is absent or its kind unknown, unchanged iff the specs read the same, an error iff a call fails or a spec is no map |
| `Ensure.ApplyUnstructured` | internal/ensure/ensure.go:22-54 | the object ends with the desired spec, merged labels and upserted owner or the store is untouched; nothing is written if nothing would change, nor in a dry run |
| `Ensure.UpsertOwnerIdempotent` | internal/ensure/ensure.go:47-50 | setting the same owner twice is setting it once |
| `Ensure.UpsertOwnerExact` | internal/ensure/ensure.go:47-50 | exactly the first reference of the same group, kind and name is replaced; if there is none the new one is appended |
| `Ensure.UpsertOwnerKeepsOthers` | internal/ensure/ensure.go:47-50 | every other owner reference stays, in its place |
| `Dnsmasq.CompareIPPreorderIff` | internal/dnsmasq/spec.go:29-36 | compareIP is total, and transitive on a list iff no unparseable address straddles two parseable ones; always so on all-or-none parseable lists |
| `Dnsmasq.CompareIPMeaning` | internal/dnsmasq/spec.go:29-36 | parsed addresses compare by width, value and zone, any others as text |
| `Dnsmasq.CompareIPCycle` | internal/dnsmasq/spec.go:29-36 | three concrete addresses on which it runs in a circle |
| `Dnsmasq.NormalizeDnsHosts` | internal/dnsmasq/spec.go:20-27 | the in-place loops compute the normal form |
| `Dnsmasq.NormalHostsMeaning` | internal/dnsmasq/spec.go:20-27 | the normal form keeps the multiset of addresses with their hostname sets, makes hostnames strictly increasing, and puts hosts in order of width, value and zone, or of text, wherever that is an order |
| `Dnsmasq.NormalHostsIdempotent` | internal/dnsmasq/spec.go:19-27 | on addresses that compareIP orders, normalising twice is normalising once if no two hosts compare equal, or if the sort leaves sorted lists alone |
| `Dnsmasq.InsertionSortQualifies` | internal/dnsmasq/spec.go:25 | what is asked of the sort, also on ties, is met by an actual sort |
| `Dnsmasq.NormalHostsCanonical` | internal/dnsmasq/spec.go:19-27 | with pairwise distinct addresses, inputs that differ in order of hosts or hostnames have the same normal form |
| `Ordering.SortCompact` | internal/dnsmasq/spec.go:22-23 | sort then compact yields the strictly increasing list of the distinct elements |
| `Ordering.BeforeMeaning` | internal/dnsmasq/spec.go:22 | the order is that of Go's strings: a proper prefix comes first, otherwise the first difference decides |
| `Codec.DnsOnTheWire` | internal/dnsmasq/spec.go:9-17 | an encoded DnsHosts spec has exactly the keys of the wire format, each with its value, and leaves out what is empty |
| `Codec.DhcpOnTheWire` | internal/dnsmasq/spec.go:40-51 | the same for DhcpHosts |
| `Codec.OptionsOnTheWire` | internal/dnsmasq/spec.go:53-62 | the same for DhcpOptions |
| `Codec.DnsHostsRoundTrip` | internal/dnsmasq/unstructured.go:22-36 | parsing an encoded DnsHosts spec returns it, although empty fields are left out |
| `Codec.DhcpHostsRoundTrip` | internal/dnsmasq/unstructured.go:22-40 | the same for DhcpHosts |
| `Codec.DhcpOptionsRoundTrip` | internal/dnsmasq/unstructured.go:22-44 | the same for DhcpOptions |
| `Codec.DnsHostsParsed` | internal/dnsmasq/unstructured.go:46-58 | any tree is parsed exactly as its fields read: absent and null are empty, texts and lists are themselves, and anything else is an error |
| `Codec.DhcpHostsParsed` | internal/dnsmasq/unstructured.go:46-58 | the same for DhcpHosts |
| `Codec.DhcpOptionsParsed` | internal/dnsmasq/unstructured.go:46-58 | the same for DhcpOptions |
| `Codec.UnchangedMeansEqualSpecs` | internal/ensure/plan.go:44-62 | a plan says "unchanged" only if the live tree parses to the desired spec; for live specs the operator wrote, if and only if the typed specs are equal |
| `DeviceBased.BuildDeviceBased` | internal/desired/devicebased.go:26-123 | sorts its inputs in place and computes options, DHCP, DNS and FreeRADIUS output as specified for sorted inputs |
| `DeviceBased.HostnamesForDevice` | internal/desired/devicebased.go:137-152 | the loop over the names of a device computes their variants in order |
| `DeviceBasedProperties.DnsExact` | internal/desired/devicebased.go:73-93 | each network's DNS entries are, as a multiset, one entry per device on that existing network with an address; no such device, no object |
| `DeviceBasedProperties.HostnamesExact` | internal/desired/devicebased.go:137-152 | a device is known under exactly its own and additional names, bare, suffixed or both as configured |
| `DeviceBasedProperties.DhcpExact` | internal/desired/devicebased.go:95-108 | DHCP entries are exactly the DHCP devices of the network, with all their fields, in strictly increasing name order |
| `DeviceBasedProperties.FreeRadiusExact` | internal/desired/devicebased.go:110-134 | FreeRADIUS objects are exactly the eligible devices, each with just its MAC addresses in order and its network's VLAN |
| `DeviceBasedProperties.OptionsExact` | internal/desired/devicebased.go:53-70 | a serving network's options are its DNS server, else the default one, else none, then its router; others have no option |
| `DeviceBasedProperties.GlobalOptionsExact` | internal/desired/devicebased.go:41-71 | without a tag there are exactly the domain name and the search list, each if configured; every other option is tagged with a serving network |
| `DeviceBasedProperties.RoutersExact` | internal/desired/devicebased.go:53-70 | exactly the serving networks have a router option, in strictly increasing name order |
| `DeviceBasedProperties.ListOrderIrrelevant` | internal/desired/devicebased.go:26-33 | listings of the same resources, in any order and with any statuses, give one output |
| `DeviceBasedProperties.StatusesIrrelevant` | internal/desired/devicebased.go:26-123 | the output is that of the resources with statuses and generations stripped |
| `IngressBased.BuildIngressBased` | internal/desired/ingress.go:19-75 | sorts its inputs in place and gathers hostnames per router as specified for sorted inputs |
| `IngressBasedProperties.ClassResolvesToWinner` | internal/desired/ingress.go:20-27 | each class resolves to a greatest-named router claiming it, to none iff nobody claims it, and to the same one in every arrangement iff only one is greatest |
| `IngressBasedProperties.IngressExact` | internal/desired/ingress.go:29-75 | the spec is, as a multiset, exactly one entry per router that some ingress or route resolves to, with its address and hostname set, iff no two of those routers share a name |
| `IngressBasedProperties.HostListMeaning` | internal/desired/ingress.go:38-63 | that hostname list is strictly sorted and holds exactly the hostnames claimed for the router |
| `IngressBasedProperties.ServesHostMeaning` | internal/desired/ingress.go:48-82 | claimed are the non-empty rule hosts of ingresses of a class the router wins, named by the class field or, only without one, by the annotation, and all hostnames of routes to such a gateway |
| `IngressOrder.OrderIrrelevantIff` | internal/desired/ingress.go:19-75 | all arrangements of routers, ingresses and routes give one spec iff routers that tie for a class claimed first for their name have one address |
| `IngressOrder.UniqueNamesTie` | internal/desired/ingress.go:20-36 | which is so when serving routers have unique names |
| `IngressOrder.ListOrderIrrelevant` | internal/desired/ingress.go:19-75 | permuted listings then give the very same spec, although routes may share their sort key |
| `IngressOrder.NamesakeLosesAddress` | internal/desired/ingress.go:31-36 | two concrete routers of one name that both serve: the address of the second is nowhere in the spec |
| `IngressOrder.TiedListingUnsettled` | internal/desired/ingress.go:20-27 | two concrete routers of one name and class: the spec depends on their listing order |
| `LoadBalancerBased.BuildLoadBalancerBased` | internal/desired/loadbalancer.go:13-48 | sorts the services in place and groups them by effective address as specified |
| `LoadBalancerBased.LoadBalancerExact` | internal/desired/loadbalancer.go:13-48 | addresses are distinct and exactly those in use, the first reported one of a LoadBalancer service or else the requested one; an entry's hostnames are strictly sorted and exactly those of the services there |
| `LoadBalancerBased.EachServiceOnce` | internal/desired/loadbalancer.go:19-36 | each eligible service has its hostname in exactly one entry of its address |
| `LoadBalancerBased.ListOrderIrrelevant` | internal/desired/loadbalancer.go:14-16 | permuting the services gives the very same spec |
| `Goals.NetworkNameRoundTrip` | internal/controller/device_controller.go:217-223 | the network is recovered from the name of its resource, for every network name |
| `Goals.SettleIdempotent` | internal/ensure/ensure.go:32-52 | what a run does to one object, done again, changes nothing |
| `Goals.CrashesAbsorbed` | internal/controller/device_controller.go:60-162 | any number of runs cut short anywhere, then one that completes, leave exactly the store one uninterrupted run leaves |
| `Goals.DeletesOnlySwept` | internal/controller/device_controller.go:234-260 | whatever is gone at any stop was managed, of a pruned kind and place, and not wanted |
| `Goals.ConvergedObject` | internal/controller/device_controller.go:103-116 | after a complete run a wanted host object has the wanted spec, its old labels overlaid with the managed ones, and the anchor as owner |
| `Goals.ConvergedAny` | internal/controller/device_controller.go:87-135 | so do the options and FreeRADIUS objects; foreign labels and owners are kept |
| `Goals.ExactLeftovers` | internal/controller/device_controller.go:95-140 | of each kind there remain exactly the wanted names and the previously managed ones in the shared keep-set |
| `Goals.NoLeftoversIff` | internal/controller/device_controller.go:95-140 | nothing stale remains iff no previously managed name is kept without being wanted |
| `Goals.StaleDnsHostsSurvives` | internal/controller/device_controller.go:95-101 | a stale DnsHosts is untouched while DhcpHosts wants its name |
| `DeviceRuns.StaleDnsHostsStays` | internal/controller/device_controller.go:95-101 | a concrete network, device and store for which a complete run leaves a managed DnsHosts that is not wanted |
| `Goals.RadiusLeftovers` | internal/controller/device_controller.go:141-149 | no stale FreeRADIUS object remains; with the feature off none is touched |
| `Goals.FrameKept` | internal/controller/device_controller.go:234-260 | what is neither wanted, nor an anchor, nor managed by this aggregate is untouched at every stop |
| `Goals.SettledPlansUnchanged` | internal/ensure/plan.go:58-62 | over a settled store every plan says "unchanged" |
| `Goals.PlanForetells` | internal/ensure/plan.go:25-64 | a plan says create, update or unchanged exactly as the live run then does to the spec |
| `Goals.PlansOrderIrrelevant` | internal/controller/device_controller.go:103-135 | runs from one store report the same plans in whatever order maps are enumerated |
| `StatusConditions.SetConditionMeaning` | internal/controller/device_controller.go:271-276 | a condition is replaced where it stands or appended; all others keep place and content |
| `StatusConditions.SetConditionExact` | internal/controller/device_controller.go:271-276 | exactly the first condition of the kind is replaced; if there is none the new one is appended |
| `StatusConditions.StatusMeaning` | internal/controller/device_controller.go:262-328 | the two conditions depend only on network presence and verdict; Ready implies NetworkAvailable; other conditions keep their place |
| `StatusConditions.SetTwoCompareEqual` | internal/controller/device_controller.go:362-372 | conditions compare equal to what two updates make of them iff both kinds were there with the same status and reason |
| `StatusConditions.StatusFixpoint` | internal/controller/device_controller.go:320-322 | a device status once written needs no second write, even if the error text changes |
| `StatusConditions.NetworkStatusFixpoint` | internal/controller/device_controller.go:352-354 | the same for networks |
| `DeviceController.DeviceReconciler.EnsureAnchor` | internal/controller/device_controller.go:164-187 | creates the anchor, or gives it its labels and, if it has none, its data; a dry run writes nothing |
| `DeviceController.DeviceReconciler.PlanAndApply` | internal/controller/device_controller.go:206-215 | adds the right plan for one object and, unless dry, settles that object and no other |
| `DeviceController.DeviceReconciler.ApplyEach` | internal/controller/device_controller.go:103-116 | settles every wanted object of a kind, in any order, with one plan each, or stops with each settled or untouched |
| `DeviceController.DeviceReconciler.PruneManaged` | internal/controller/device_controller.go:234-260 | deletes exactly the managed objects of the given kinds whose names are not kept |
| `DeviceController.DeviceReconciler.Drive` | internal/controller/device_controller.go:77-150 | wherever a run stops, every object is old or settled and nothing was deleted before everything wanted was in place; success settles all; a healthy run succeeds iff specs are comparable and kinds served; from a settled store nothing is written |
| `DeviceController.DeviceReconciler.UpdateDeviceStatuses` | internal/controller/device_controller.go:262-328 | every device gets its status in place; exactly those that changed are written, none in a dry run |
| `DeviceController.DeviceReconciler.UpdateNetworkStatuses` | internal/controller/device_controller.go:330-360 | the same for networks |
| `DeviceController.DeviceReconciler.ReconcileNamespace` | internal/controller/device_controller.go:60-162 | all of this for the inputs that the listed devices and networks amount to; on success both lists end name-sorted and refreshed and exactly the changed statuses were written, after a failed options object the devices alone with the error, else none; a healthy pass succeeds iff specs are comparable and kinds served |
| `DeviceController.DeviceReconciler.Reconcile` | internal/controller/device_controller.go:51-58 | one such pass per namespace whatever the request is named; the namespace is released however the pass ends; a busy one is requeued and nothing is touched |
| `DeviceController.DeviceReconciler.CanonicalNetworkRequest` | internal/controller/device_controller.go:396-403 | the request is named after the least network name, or "default" |
| `DeviceController.LeastNameUnique` | internal/controller/device_controller.go:396-418 | every event in a namespace leads to the same request, in whatever order networks are listed |
| `PassResults.SpecsAfterPass` | internal/controller/device_controller.go:85-135 | after a successful live pass every object wanted for the listed devices and networks is there, and its spec, read back and key by key, holds exactly their DNS entries, DHCP entries, options, or MAC addresses and VLAN |
| `PassResults.MetadataAfterPass` | internal/controller/device_controller.go:189-215 | it has its old labels overlaid with exactly the operator's, the network's name among them for host objects, and the anchor in place of the first reference to it or appended to its old owners |
| `PassResults.AnchorsAfterPass` | internal/controller/device_controller.go:164-187 | the anchors are there with exactly the operator's labels, and otherwise as they were, with their data filled in if they had none |
| `PassResults.OthersAfterPass` | internal/controller/device_controller.go:234-260 | of all other objects exactly those are gone that carry both managed labels, in a cleared place, under a name that no device on a network accounts for; the rest is as it was |
| `PassResults.DnsWanted` | internal/controller/device_controller.go:110-116 | a DNS object is wanted iff some device with an address is on that network, and then holds the entries of exactly these devices, in address order |
| `PassResults.DhcpWanted` | internal/controller/device_controller.go:103-109 | a DHCP object is wanted iff some DHCP device is on that network, and then holds exactly their fields in strictly increasing name order |
| `PassResults.OptionsWanted` | internal/controller/device_controller.go:87-93 | the options object holds the global options and those of each serving network, and no other |
| `PassResults.RadiusWanted` | internal/controller/device_controller.go:118-135 | the FreeRADIUS objects are those of exactly the eligible devices, with their MAC addresses and VLAN |
| `PassResults.StatusWritesExact` | internal/controller/device_controller.go:320-358 | a status is written iff it speaks of another generation or a compared condition is new or has another status or reason; what is written is the final status; of devices alone if the options object failed |
| `PassResults.DeviceStatusWritten` | internal/controller/device_controller.go:320-326 | of one listed device: written iff its generation, Ready or NetworkAvailable changed, and then as it ends |
| `PassResults.NetworkStatusWritten` | internal/controller/device_controller.go:352-358 | of one listed network: written iff its generation or Ready changed, and then as it ends |
| `DeviceController.InputsUnique` | internal/controller/device_controller.go:69-77 | what a run wants is determined by the devices and networks, not by their listing order or statuses |
| `DeviceRuns.RetriesAbsorbed` | internal/controller/device_controller.go:60-162 | passes that died at any API call, each with its own listing order and whatever statuses were written before, then one that completes, leave the store of one uninterrupted pass from the original store |
| `DeviceRuns.SecondRunIdle` | internal/controller/device_controller.go:85-150 | after a completed pass another on the same resources, with any statuses, writes no object, plans only "unchanged" and leaves the store as it is wherever it stops |
| `DeviceRuns.SecondPassSilent` | internal/controller/device_controller.go:60-162 | a whole second pass, on the resources as the first left them and in any order, writes no object and no status, and succeeds if the API answers |
| `DeviceRuns.DryPassWritesNothing` | internal/controller/device_controller.go:206-215 | a dry pass leaves the store as it is and writes neither objects nor statuses, wherever it stops |
| `DeviceRuns.DryRunForetells` | internal/controller/device_controller.go:206-215 | a dry and a live run from one store report the same plans, and each names what the live run did |
| `DeviceRuns.ReadyIffPlaced` | internal/controller/device_controller.go:293-318 | after a pass NetworkAvailable says whether the builder placed the device, and so does Ready if it succeeded; after a failed options object nothing is Ready |
| `DeviceRuns.NetworksReady` | internal/controller/device_controller.go:330-360 | after a successful pass every network is Ready |
| `DeviceRuns.SkippedContributesNothing` | internal/desired/devicebased.go:73-80 | a skipped device contributes nothing: the output is that of the others |
| `DeviceRuns.StatusesSettle` | internal/controller/device_controller.go:320-358 | once refreshed, no device and no network has its status written again, in whatever order they are taken |
| `DeviceRuns.WritesAreItsOwn` | internal/controller/device_controller.go:99-116 | no network name makes the device reconciler write an object of another reconciler |
| `AggregateControllers.IngressReconciler.ReconcileIngress` | internal/controller/ingressdns_controller.go:57-98 | anchor and object old or settled wherever it stops, both settled on success; the object encodes what routers, ingresses and enabled routes amount to; nothing is written from a settled store; on success the routers' statuses are refreshed |
| `AggregateControllers.IngressReconciler.UpdateRouterStatuses` | internal/controller/ingressdns_controller.go:125-149 | every router gets its status in place; exactly those with a changed condition are written, none in a dry run |
| `AggregateControllers.RouterStatusesSettle` | internal/controller/ingressdns_controller.go:140-146 | refreshed routers, in any order, are not written again |
| `AggregateControllers.RouterStatusesWritten` | internal/controller/ingressdns_controller.go:125-149 | after a live pass exactly the routers whose Ready is new or has another status or reason have had their final status written, whatever their generation; none if it failed |
| `AggregateControllers.IngressTreeUnique` | internal/controller/ingressdns_controller.go:57-91 | what the object encodes is determined by the listed resources, unless their order can decide between routers |
| `AggregateControllers.ServicesTreeUnique` | internal/controller/loadbalancerdns_controller.go:49-70 | the same for services, always |
| `AggregateControllers.SecondSoloRunIdle` | internal/controller/ingressdns_controller.go:83-95 | after a successful run of either reconciler another that wants the same plans "unchanged" and leaves the store as it is wherever it stops |
| `AggregateControllers.AfterSoloRun` | internal/controller/ingressdns_controller.go:83-95 | after a successful run of either reconciler its object holds the tree, its labels over the old ones and its anchor among the owners; the anchor has exactly the operator's labels; nothing else has changed |
| `AggregateControllers.IngressTreeExact` | internal/controller/ingressdns_controller.go:83-84 | the tree read back holds one entry per serving router, as a multiset, iff serving routers have unique names |
| `AggregateControllers.ServicesTreeExact` | internal/controller/loadbalancerdns_controller.go:63-64 | the tree read back holds one entry per address in use, with exactly the hostnames of the services there |
| `AggregateControllers.IngressReconciler.Reconcile` | internal/controller/ingressdns_controller.go:47-55 | gated on the target namespace, which is released however the pass ends |
| `AggregateControllers.LoadBalancerReconciler.ReconcileLoadBalancer` | internal/controller/loadbalancerdns_controller.go:49-77 | the same for services: old or settled, settled on success, nothing written from a settled store |
| `AggregateControllers.LoadBalancerReconciler.Reconcile` | internal/controller/loadbalancerdns_controller.go:39-47 | gated likewise |
| `Interleaving.StepKeeps` | internal/controller/device_controller.go:60-150 | every API call, start or death of any reconciler keeps: each object old or settled, nothing mislabelled, and nothing unsettled behind |
| `Interleaving.InterleavingConverges` | internal/controller/ingressdns_controller.go:57-98 | whatever the schedule and however often reconcilers die and start over, once all have finished the store is the one settled store |
| `Interleaving.SchedulesAgree` | internal/controller/loadbalancerdns_controller.go:49-77 | any two schedules from a store without mislabelled objects end in the same store |
| `Interleaving.LabelsAgreeThroughout` | internal/labels/labels.go:11-20 | if aggregate labels agree with names at the start they do at every point of every schedule |
| `Schedules.SchedulesAgreeIff` | internal/controller/device_controller.go:234-260 | all complete schedules from a store end in the same store iff nothing in it is mislabelled: no object of another reconciler carries the labels by which the device reconciler sweeps, unless its name is kept |
| `Schedules.ForeignLabelsDecide` | internal/controller/device_controller.go:234-260 | for what devices and networks amount to: iff neither `ingress-based` nor `load-balancer-based` carries the device-based labels |
| `Schedules.MislabelledInterferes` | internal/controller/device_controller.go:240-254 | otherwise there are two complete schedules, one of which loses a wanted object (listed as stale, published, then deleted) and one of which keeps it |
| `Interleaving.NoGapInterleaved` | internal/controller/device_controller.go:137-150 | in every interleaving a step removes only a managed, unwanted object of the device reconciler, after all it wants is in place |
| `Turns.AnyTurnsConverge` | internal/controller/ingressdns_controller.go:83-93 | whole runs in any order, repeated or not, end in the settled store once each reconciler had its turn |
| `Turns.InterleavingsActLikeTurns` | internal/controller/loadbalancerdns_controller.go:63-73 | which is where every interleaving of their API calls ends, crashes and restarts included |
| `Turns.DeviceRunsKeepToTheirOwn` | internal/controller/device_controller.go:99-116 | the condition for it holds for every set of devices and networks |
| `ReconcileGate.Gate.Enter` | internal/controller/reconcile_gate.go:16-26 | enters and claims the key iff it is free; the busy set gains that key and no other |
| `ReconcileGate.Gate.Leave` | internal/controller/reconcile_gate.go:28-32 | releases the key and no other |
| `GateProtocol.StepKeeps` | internal/controller/reconcile_gate.go:16-35 | every statement of every thread keeps the protocol invariant |
| `GateProtocol.OneRunPerKey` | internal/controller/reconcile_gate.go:16-35 | for any number of threads and any schedule the busy set is exactly the keys held, each by one thread, and one thread at most is in the locked section |
| `GateProtocol.LockedSectionUndisturbed` | internal/controller/reconcile_gate.go:17-32 | nothing another thread does changes the busy set during a locked section |
| `GateProtocol.HistoriesAreSerial` | internal/controller/reconcile_gate.go:28-35 | what happened on a key, in any concurrent history, is a series of whole runs one after the other |
| `GateProtocol.StoreIsSerial` | internal/controller/reconcile_gate.go:16-35 | the store after a concurrent history is the store its runs leave when carried out whole, one after the other, if calls on different keys commute or all runs are on one key |
| `GateProtocol.NoOverlap` | internal/controller/reconcile_gate.go:21-32 | between two threads' events on a key the first one has left |
| `Settings.SplitCommaList` | internal/config/flags.go:64-75 | the loop computes the trimmed non-empty pieces |
| `Settings.SplitMeaning` | internal/config/flags.go:64-75 | every entry is clean, that is non-empty, comma-free and trimmed; there is none iff the text is only commas and white space |
| `Settings.PartsExact` | internal/config/flags.go:69 | the pieces have no comma in them, and joined by commas they are the text |
| `Settings.WhiteSpace` | internal/config/flags.go:70 | white space is that of Unicode, by code point |
| `Settings.TrimExact` | internal/config/flags.go:70 | trimming leaves the stretch of the text between white space at either end, and drops nothing else |
| `Settings.SplitUndoesJoinIff` | internal/config/flags.go:16-19 | splitting undoes joining iff all entries are clean |
| `Settings.SplitJoinSplit` | internal/config/flags.go:64-75 | split, join, split is split, for every text |
| `Settings.DerivedSearchExact` | internal/config/domain_search.go:11-34 | the derived list has no duplicate and no empty entry, and holds exactly the stems there are, the domain name's first |
| `Settings.FinalizeIdempotent` | internal/config/flags.go:77-82 | finalizing twice is finalizing once |
| `Settings.Settings.ApplyCsvFlags` | internal/config/flags.go:58-62 | both lists are replaced by the split flags and the configuration is finalized |
| `Settings.ReapplyIff` | internal/config/flags.go:15-62 | binding and re-applying gives a loaded configuration back iff its search entries are all clean or all blank; watch namespaces always survive |
| `Settings.CommaInDomainName` | internal/config/domain_search.go:30 | a domain name with a comma, for which it does not |
| `ReconcileLog.DedupeApplyPlans` | internal/controller/reconcile_log.go:50-65 | the map and order loops compute the deduplicated list |
| `ReconcileLog.DedupedExact` | internal/controller/reconcile_log.go:50-65 | each resource once, in order of first occurrence, with exactly its last plan |
| `ReconcileLog.DedupeIdempotent` | internal/controller/reconcile_log.go:50-65 | deduplicating twice is deduplicating once |
| `ReconcileLog.KeyInjective` | internal/controller/reconcile_log.go:54 | the joined key tells resources apart when group-kind and namespace are slash-free |
| `ReconcileLog.KeysInTheLog` | internal/controller/reconcile_log.go:54 | each planned object is spoken of by kind, API group, namespace and name |
| `ReconcileLog.LogReconcileSummary` | internal/controller/reconcile_log.go:10-48 | the tallies add up to the number of distinct resources; one line per resource created or updated |
| `ReconcileLog.RunPlansDistinct` | internal/controller/reconcile_log.go:50-65 | deduplication drops no plan of a device run |

## Left out

- UIDs, timestamps and resource versions: an owner reference is the same owner when group, kind and name agree.
- More than one source namespace writing to one target: names and labels carry no source namespace.
- Outside writers during a run, stale reads, caches and watches; which events start a run is not modelled.
- API errors of kinds other than not-found and unknown-kind are one refusal; unknown kinds are those the client does not serve.
- JSON byte syntax, case-insensitive field matching and text encoding: the codec works on value trees and characters. A nil slice or map and an empty one are one value.
- Text parsing inside `netip.ParseAddr`: any partial function to width, value and zone.
- The last-sync times of devices, networks and routers.
- Ensure.PlanUnstructured: the plan has no summary text; the verdict and the object it names are modelled.
- Log text and trigger records: they would only add easy members.
- Reading HTTP route objects from their trees, and environment and flag lookup: the model starts from their values.
- Manager wiring, metrics, TLS, health probes, generated code and manifests.
- Interleaving.StepKeeps: the steps apply a reconciler's objects in any order, which is more general than the code's anchors-first order; the statuses are not part of these steps.
- GateProtocol.StoreIsSerial: a call is a function of the store chosen by its number, so that calls of different namespaces commute is an assumption on that function.
- Dnsmasq.NormalizeDnsHosts: the sort of hosts is a function of the list with the contract of `slices.SortFunc`, not its algorithm; the list is normalised in place.

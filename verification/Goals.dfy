/** What a device-based run wants of every object of the store, and what follows from that alone.
    A run is a series of single-object changes; `Settle` is the whole change to one object. */
module Goals {
  import opened Kube
  import opened Ensure
  import opened Ordering
  import opened Homelab
  import opened Codec
  import DeviceBased

  const AGGREGATE := "device-based"
  const ANCHOR_NAME := "homelab-operator-anchor-device-based"
  const ANCHOR_DATA: Tree := map["purpose" := JStr("homelab-operator anchor")]

  /** The inputs of a run that reach the store: where to write, and what. */
  datatype Inputs = Inputs(
    target: string,
    radius: Option<string>,
    options: Tree,
    dhcp: map<string, Tree>,
    dns: map<string, Tree>,
    devices: map<string, Tree>)

  function InputsOf(cfg: Config, out: DeviceBased.Output): Inputs {
    Inputs(
      cfg.dnsmasqNamespace,
      if cfg.enableFreeRadius then Some(cfg.freeRadiusNamespace) else None,
      EncodeDhcpOptions(out.dhcpOptions),
      map n | n in out.dhcpHosts :: EncodeDhcpHosts(out.dhcpHosts[n]),
      map n | n in out.dnsHosts :: EncodeDnsHosts(out.dnsHosts[n]),
      out.freeRadius)
  }

  datatype Goal =
    | Leave
    | Anchor(anchorLabels: Labels)
    | Publish(spec: Tree, labels: Labels, owner: Owner)
    | Sweep(aggregate: string)

  /** The network a resource name stands for; none when there is nothing after the prefix. */
  function NetworkFromResourceName(name: string): string {
    if |name| > |DeviceBased.PREFIX| && name[..|DeviceBased.PREFIX|] == DeviceBased.PREFIX
    then name[|DeviceBased.PREFIX|..] else ""
  }

  lemma NetworkNameRoundTrip(network: string)
    ensures NetworkFromResourceName(DeviceBased.ResourceName(network)) == network
  {
    var name := DeviceBased.ResourceName(network);
    assert name[..|DeviceBased.PREFIX|] == DeviceBased.PREFIX && name[|DeviceBased.PREFIX|..] == network;
  }

  function OwnerIn(ns: string, anchor: string): Owner {
    Owner(ns, OwnerRef("", "v1", "ConfigMap", anchor))
  }

  /** The names no prune of the dnsmasq kinds may remove; shared by both kinds. */
  function Keep(i: Inputs): set<string> {
    {DeviceBased.DHCP_OPTIONS_NAME} + i.dhcp.Keys + i.dns.Keys
  }

  function HostLabels(name: string): Labels {
    Managed(AGGREGATE, NetworkFromResourceName(name))
  }

  function RadiusLabels(name: string): Labels {
    Managed(AGGREGATE, "")
  }

  function HostGoal(i: Inputs, wanted: map<string, Tree>, name: string): Goal {
    if name in wanted then
      Publish(wanted[name], HostLabels(name), OwnerIn(i.target, ANCHOR_NAME))
    else if name in Keep(i) then Leave
    else Sweep(AGGREGATE)
  }

  function GoalOf(i: Inputs, k: Key): Goal {
    match k.kind
    case ConfigMap =>
      if k.name == ANCHOR_NAME && (k.ns == i.target || i.radius == Some(k.ns))
      then Anchor(Managed(AGGREGATE, "")) else Leave
    case DhcpOptions =>
      if k.ns == i.target && k.name == DeviceBased.DHCP_OPTIONS_NAME
      then Publish(i.options, Managed(AGGREGATE, ""), OwnerIn(i.target, ANCHOR_NAME)) else Leave
    case DhcpHosts => if k.ns == i.target then HostGoal(i, i.dhcp, k.name) else Leave
    case DnsHosts => if k.ns == i.target then HostGoal(i, i.dns, k.name) else Leave
    case FreeRadiusDevice =>
      if i.radius != Some(k.ns) then Leave
      else if k.name in i.devices
      then Publish(i.devices[k.name], RadiusLabels(k.name), OwnerIn(k.ns, ANCHOR_NAME))
      else Sweep(AGGREGATE)
    case OtherKind(_) => Leave
  }

  function GoalsOf(i: Inputs): Key -> Goal {
    k => GoalOf(i, k)
  }

  /** The change a run makes to one object, present or not. */
  function Settle(g: Goal, cur: Option<Obj>): Option<Obj> {
    match g
    case Leave => cur
    case Anchor(labels) =>
      if cur.None? then Some(Obj(Fields(ANCHOR_DATA), labels, []))
      else Some(Obj(if cur.value.spec.Missing? then Fields(ANCHOR_DATA) else cur.value.spec, labels, cur.value.owners))
    case Publish(spec, labels, owner) =>
      var live := if cur.Some? then cur.value else BLANK;
      Some(Obj(Fields(spec), live.labels + labels, UpsertOwner(live.owners, owner.ref)))
    case Sweep(aggregate) =>
      if cur.Some? && ManagedAs(cur.value, aggregate) then None else cur
  }

  lemma SettleIdempotent(g: Goal, cur: Option<Obj>)
    ensures Settle(g, Settle(g, cur)) == Settle(g, cur)
  {
    if g.Publish? {
      var live := if cur.Some? then cur.value else BLANK;
      UpsertOwnerIdempotent(live.owners, g.owner.ref);
      assert live.labels + g.labels + g.labels == live.labels + g.labels;
    }
  }

  /** Every object is as it was in `s` or fully settled. */
  ghost predicate Near(goal: Key -> Goal, s: Store, t: Store) {
    forall k {:trigger Lookup(t, k)} :: Lookup(t, k) == Lookup(s, k) || Lookup(t, k) == Settle(goal(k), Lookup(s, k))
  }

  ghost predicate Settled(goal: Key -> Goal, s: Store, t: Store) {
    forall k {:trigger Lookup(t, k)} :: Lookup(t, k) == Settle(goal(k), Lookup(s, k))
  }

  /** Objects in `done` are settled, the others untouched. */
  ghost predicate Progress(goal: Key -> Goal, s: Store, t: Store, done: iset<Key>) {
    forall k {:trigger Lookup(t, k)} :: Lookup(t, k) == if k in done then Settle(goal(k), Lookup(s, k)) else Lookup(s, k)
  }

  /** Nothing is deleted before everything to be written has been written. */
  ghost predicate NoGap(goal: Key -> Goal, s: Store, t: Store) {
    (exists k :: k in s && k !in t) ==>
      forall k {:trigger Lookup(t, k)} :: goal(k).Publish? || goal(k).Anchor? ==> Lookup(t, k) == Settle(goal(k), Lookup(s, k))
  }

  lemma SettledAt(goal: Key -> Goal, s: Store, t: Store, k: Key)
    requires Settled(goal, s, t)
    ensures Lookup(t, k) == Settle(goal(k), Lookup(s, k))
  {
  }

  function LabelsIn(s: Store, k: Key): Labels {
    if k in s then s[k].labels else map[]
  }

  function OwnersIn(s: Store, k: Key): seq<OwnerRef> {
    if k in s then s[k].owners else []
  }

  lemma SettledPublish(goal: Key -> Goal, s: Store, t: Store, k: Key)
    requires Settled(goal, s, t) && goal(k).Publish?
    ensures k in t && t[k].spec == Fields(goal(k).spec)
    ensures t[k].labels == LabelsIn(s, k) + goal(k).labels && t[k].owners == UpsertOwner(OwnersIn(s, k), goal(k).owner.ref)
  {
    SettledAt(goal, s, t, k);
  }

  function AnchorRef(anchor: string): OwnerRef {
    OwnerRef("", "v1", "ConfigMap", anchor)
  }

  predicate ToAnchor(o: OwnerRef, anchor: string) {
    o.group == "" && o.kind == "ConfigMap" && o.name == anchor
  }

  /** The reference to the anchor takes the place of the first one to it, or else comes last; `n` is that place. */
  ghost predicate AnchoredAt(before: seq<OwnerRef>, after: seq<OwnerRef>, anchor: string, n: nat) {
    && n <= |before| && after == (if n < |before| then before[n := AnchorRef(anchor)] else before + [AnchorRef(anchor)])
    && (forall j :: 0 <= j < n ==> !ToAnchor(before[j], anchor)) && (n < |before| ==> ToAnchor(before[n], anchor))
  }

  lemma Anchored(owners: seq<OwnerRef>, anchor: string) returns (n: nat)
    ensures AnchoredAt(owners, UpsertOwner(owners, AnchorRef(anchor)), anchor, n)
  {
    n := UpsertOwnerExact(owners, AnchorRef(anchor));
  }

  /** The settled store is unique. */
  lemma SettledUnique(goal: Key -> Goal, s: Store, t0: Store, t1: Store)
    requires Settled(goal, s, t0) && Settled(goal, s, t1)
    ensures t0 == t1
  {
    StoresEqual(t0, t1);
  }

  lemma NearThenSettled(goal: Key -> Goal, s: Store, t: Store, u: Store)
    requires Near(goal, s, t) && Settled(goal, t, u)
    ensures Settled(goal, s, u)
  {
    forall k ensures Lookup(u, k) == Settle(goal(k), Lookup(s, k)) {
      SettleIdempotent(goal(k), Lookup(s, k));
    }
  }

  /** A settled store is a fixed point. */
  lemma SettledIsFixed(goal: Key -> Goal, s: Store, t: Store)
    requires Settled(goal, s, t)
    ensures Settled(goal, t, t)
  {
    forall k ensures Lookup(t, k) == Settle(goal(k), Lookup(t, k)) {
      SettleIdempotent(goal(k), Lookup(s, k));
    }
  }

  /** Crash and retry absorption: any number of runs cut short anywhere, then one that completes, leave
      exactly the store that one uninterrupted run leaves. */
  lemma {:induction false} CrashesAbsorbed(goal: Key -> Goal, stops: seq<Store>, last: Store, direct: Store)
    requires stops != [] && forall i :: 0 <= i < |stops| - 1 ==> Near(goal, stops[i], stops[i + 1])
    requires Settled(goal, stops[|stops| - 1], last) && Settled(goal, stops[0], direct)
    ensures last == direct
  {
    if |stops| == 1 {
      SettledUnique(goal, stops[0], last, direct);
    } else {
      NearThenSettled(goal, stops[|stops| - 2], stops[|stops| - 1], last);
      CrashesAbsorbed(goal, stops[..|stops| - 1], last, direct);
    }
  }

  /** A run never deletes an object it also wants, and what it deletes is its own. */
  lemma DeletesOnlySwept(i: Inputs, s: Store, t: Store, k: Key)
    requires Near(GoalsOf(i), s, t) && k in s && k !in t
    ensures ManagedAs(s[k], AGGREGATE)
    ensures k.kind == DhcpHosts || k.kind == DnsHosts ==> k.ns == i.target && k.name !in Keep(i)
    ensures k.kind == FreeRadiusDevice ==> i.radius == Some(k.ns) && k.name !in i.devices
    ensures k.kind == DhcpHosts || k.kind == DnsHosts || k.kind == FreeRadiusDevice
  {
    assert Lookup(t, k) == Lookup(s, k) || Lookup(t, k) == Settle(GoalOf(i, k), Lookup(s, k));
  }

  /** The managed names of one kind in one namespace. */
  ghost predicate ManagedName(s: Store, kind: Kind, ns: string, name: string) {
    Key(kind, ns, name) in s && ManagedAs(s[Key(kind, ns, name)], AGGREGATE)
  }

  function Wanted(i: Inputs, kind: Kind): map<string, Tree>
    requires kind == DhcpHosts || kind == DnsHosts
  {
    if kind == DhcpHosts then i.dhcp else i.dns
  }

  /** After a complete run every wanted object has the wanted spec, its old labels overlaid with the
      managed ones, and the anchor among its owners. */
  lemma ConvergedObject(i: Inputs, s: Store, t: Store, kind: Kind, name: string)
    requires Settled(GoalsOf(i), s, t)
    requires kind == DhcpHosts || kind == DnsHosts
    requires name in Wanted(i, kind)
    ensures var k := Key(kind, i.target, name);
            var old' := if k in s then s[k].labels else map[];
            && k in t
            && t[k].spec == Fields(Wanted(i, kind)[name])
            && t[k].labels == old' + Managed(AGGREGATE, NetworkFromResourceName(name))
            && ManagedName(t, kind, i.target, name)
            && OwnerRef("", "v1", "ConfigMap", ANCHOR_NAME) in t[k].owners
  {
    var k := Key(kind, i.target, name);
    assert Lookup(t, k) == Settle(GoalOf(i, k), Lookup(s, k));
  }

  /** Of every other published object too: the options and the FreeRADIUS objects have the wanted spec and
      labels, and no label or owner of somebody else's is lost. */
  lemma ConvergedAny(i: Inputs, s: Store, t: Store, k: Key)
    requires Settled(GoalsOf(i), s, t) && Published(i, k)
    ensures k in t && ManagedAs(t[k], AGGREGATE) && OwnerRef("", "v1", "ConfigMap", ANCHOR_NAME) in t[k].owners
    ensures k.kind == DhcpOptions ==> t[k].spec == Fields(i.options)
    ensures k.kind == FreeRadiusDevice ==> t[k].spec == Fields(i.devices[k.name])
    ensures k in s ==> forall l :: l in s[k].labels && l !in [MANAGED_BY, AGGREGATE_KEY, NETWORK_KEY] ==>
                                     l in t[k].labels && t[k].labels[l] == s[k].labels[l]
    ensures k in s ==> forall o :: o in s[k].owners && !SameOwner(o, OwnerRef("", "v1", "ConfigMap", ANCHOR_NAME)) ==>
                                     o in t[k].owners
  {
    PublishedExact(i, k);
    assert Lookup(t, k) == Settle(GoalOf(i, k), Lookup(s, k));
    if k in s {
      UpsertOwnerKeepsOthers(s[k].owners, OwnerRef("", "v1", "ConfigMap", ANCHOR_NAME));
    }
  }

  /** The exact leftovers: of each kind there remain the wanted names and those previously managed ones
      that the keep-set, shared by both kinds, protects. */
  lemma ExactLeftovers(i: Inputs, s: Store, t: Store, kind: Kind, name: string)
    requires Settled(GoalsOf(i), s, t)
    requires kind == DhcpHosts || kind == DnsHosts
    ensures ManagedName(t, kind, i.target, name) <==>
              name in Wanted(i, kind) || (ManagedName(s, kind, i.target, name) && name in Keep(i))
  {
    var k := Key(kind, i.target, name);
    assert Lookup(t, k) == Settle(GoalOf(i, k), Lookup(s, k));
  }

  /** Hence no stale object is left exactly when nothing previously managed is protected without being
      wanted, that is wanted by the other kind or named like the options object. */
  lemma NoLeftoversIff(i: Inputs, s: Store, t: Store, kind: Kind)
    requires Settled(GoalsOf(i), s, t)
    requires kind == DhcpHosts || kind == DnsHosts
    ensures (forall name :: ManagedName(t, kind, i.target, name) <==> name in Wanted(i, kind))
            <==> forall name :: name in Keep(i) && name !in Wanted(i, kind) ==> !ManagedName(s, kind, i.target, name)
  {
    forall name ensures ManagedName(t, kind, i.target, name) <==>
                          name in Wanted(i, kind) || (ManagedName(s, kind, i.target, name) && name in Keep(i))
    {
      ExactLeftovers(i, s, t, kind, name);
    }
  }

  /** A stale DnsHosts that survives because its name is still wanted as a DhcpHosts. */
  lemma StaleDnsHostsSurvives(i: Inputs, s: Store, t: Store, name: string)
    requires Settled(GoalsOf(i), s, t)
    requires name in i.dhcp && name !in i.dns && ManagedName(s, DnsHosts, i.target, name)
    ensures ManagedName(t, DnsHosts, i.target, name) && t[Key(DnsHosts, i.target, name)] == s[Key(DnsHosts, i.target, name)]
  {
    var k := Key(DnsHosts, i.target, name);
    assert Lookup(t, k) == Settle(GoalOf(i, k), Lookup(s, k));
  }

  /** The FreeRADIUS side has a keep-set of its own, so nothing stale is left there; with the feature off
      nothing of it is touched. */
  lemma RadiusLeftovers(i: Inputs, s: Store, t: Store, ns: string, name: string)
    requires Settled(GoalsOf(i), s, t)
    ensures i.radius == Some(ns) ==> (ManagedName(t, FreeRadiusDevice, ns, name) <==> name in i.devices)
    ensures i.radius != Some(ns) ==>
              Lookup(t, Key(FreeRadiusDevice, ns, name)) == Lookup(s, Key(FreeRadiusDevice, ns, name))
  {
    var k := Key(FreeRadiusDevice, ns, name);
    assert Lookup(t, k) == Settle(GoalOf(i, k), Lookup(s, k));
  }

  /** Frame: an object that is neither wanted, nor an anchor, nor managed by this aggregate is untouched,
      at the end of a run and wherever it is cut short. */
  lemma FrameKept(i: Inputs, s: Store, t: Store, k: Key)
    requires Near(GoalsOf(i), s, t)
    requires GoalOf(i, k).Leave? || (GoalOf(i, k).Sweep? && (k in s ==> !ManagedAs(s[k], AGGREGATE)))
    ensures Lookup(t, k) == Lookup(s, k)
  {
    assert Lookup(t, k) == Lookup(s, k) || Lookup(t, k) == Settle(GoalOf(i, k), Lookup(s, k));
  }

  /** The objects a run plans and applies. */
  predicate Published(i: Inputs, k: Key) {
    match k.kind
    case DhcpOptions => k == OptionsKey(i)
    case DhcpHosts => k.ns == i.target && k.name in i.dhcp
    case DnsHosts => k.ns == i.target && k.name in i.dns
    case FreeRadiusDevice => i.radius == Some(k.ns) && k.name in i.devices
    case _ => false
  }

  lemma PublishedExact(i: Inputs, k: Key)
    ensures Published(i, k) <==> GoalOf(i, k).Publish?
  {
  }

  predicate WellFormed(s: Store, k: Key) {
    k in s ==> !s[k].spec.NotAMap?
  }

  function WantedSpec(goal: Key -> Goal, k: Key): SpecField {
    if goal(k).Publish? then Fields(goal(k).spec) else Missing
  }

  /** The plan for object `k` seen from store `s`. */
  function PlanOf(goal: Key -> Goal, s: Store, k: Key): ApplyPlan {
    var verdict := Verdict(Lookup(s, k), WantedSpec(goal, k));
    ApplyPlan(if verdict.Ok? then verdict.value else Unchanged, GroupKind(k.kind), k.ns, k.name)
  }

  ghost predicate PlanFor(goal: Key -> Goal, s: Store, k: Key, p: ApplyPlan) {
    Verdict(Lookup(s, k), WantedSpec(goal, k)).Ok? && p == PlanOf(goal, s, k)
  }

  /** `plans` holds exactly one plan, the right one, for each object the run applies. */
  ghost predicate PlansComplete(goal: Key -> Goal, i: Inputs, s: Store, plans: seq<ApplyPlan>, keys: seq<Key>) {
    && |keys| == |plans| && NoDup(keys)
    && (forall k :: k in keys <==> Published(i, k))
    && forall j :: 0 <= j < |keys| ==> PlanFor(goal, s, keys[j], plans[j])
  }

  /** Every object to be applied has a spec that can be compared. */
  ghost predicate Comparable(i: Inputs, s: Store) {
    forall k :: Published(i, k) ==> WellFormed(s, k)
  }

  /** Over a settled store every plan says "unchanged". */
  lemma SettledPlansUnchanged(i: Inputs, s: Store, t: Store, k: Key, p: ApplyPlan)
    requires Settled(GoalsOf(i), s, t) && Published(i, k) && PlanFor(GoalsOf(i), t, k, p)
    ensures p.action == Unchanged
  {
    PublishedExact(i, k);
    assert Lookup(t, k) == Settle(GoalOf(i, k), Lookup(s, k));
  }

  /** Fidelity: a plan computed on `s` says what a live run from `s` to `t` does to that object's spec. */
  lemma PlanForetells(i: Inputs, s: Store, t: Store, k: Key, p: ApplyPlan)
    requires Settled(GoalsOf(i), s, t) && Published(i, k) && PlanFor(GoalsOf(i), s, k, p)
    ensures k in t && t[k].spec == WantedSpec(GoalsOf(i), k) && t[k].spec.Fields?
    ensures p.action == Create <==> k !in s
    ensures p.action == Unchanged <==> k in s && !s[k].spec.NotAMap? && ReadAlike(t[k].spec, s[k].spec)
    ensures p.action == Update <==> k in s && !s[k].spec.NotAMap? && !ReadAlike(t[k].spec, s[k].spec)
  {
    PublishedExact(i, k);
    assert Lookup(t, k) == Settle(GoalOf(i, k), Lookup(s, k));
  }

  lemma {:induction false} SameKeysSameMultiset<T>(a: seq<T>, b: seq<T>)
    requires NoDup(a) && NoDup(b) && forall k :: k in a <==> k in b
    ensures multiset(a) == multiset(b)
  {
    forall k ensures multiset(a)[k] == multiset(b)[k] {
      OccursOnce(a, k);
      OccursOnce(b, k);
    }
  }

  lemma {:induction false} OccursOnce<T>(a: seq<T>, k: T)
    requires NoDup(a)
    ensures multiset(a)[k] == if k in a then 1 else 0
  {
    if a != [] {
      var front, last := a[..|a| - 1], a[|a| - 1];
      assert a == front + [last];
      OccursOnce(front, k);
    }
  }

  lemma {:induction false} PlansImage(i: Inputs, s: Store, plans: seq<ApplyPlan>, keys: seq<Key>,
                                      f: Key -> multiset<ApplyPlan>)
    requires |plans| == |keys| && forall j :: 0 <= j < |keys| ==> plans[j] == PlanOf(GoalsOf(i), s, keys[j])
    requires forall k :: f(k) == multiset{PlanOf(GoalsOf(i), s, k)}
    ensures multiset(plans) == Image(keys, f)
  {
    if keys != [] {
      PlansImage(i, s, plans[1..], keys[1..], f);
      assert plans == [plans[0]] + plans[1..];
    }
  }

  /** Two runs from one store, live or dry, enumerating the wanted objects in any orders, report the
      same plans. */
  lemma PlansOrderIrrelevant(i: Inputs, s: Store, p0: seq<ApplyPlan>, k0: seq<Key>, p1: seq<ApplyPlan>, k1: seq<Key>)
    requires PlansComplete(GoalsOf(i), i, s, p0, k0) && PlansComplete(GoalsOf(i), i, s, p1, k1)
    ensures multiset(p0) == multiset(p1)
  {
    var f := k => multiset{PlanOf(GoalsOf(i), s, k)};
    SameKeysSameMultiset(k0, k1);
    PlansImage(i, s, p0, k0, f);
    PlansImage(i, s, p1, k1, f);
    ImagePermutes(k0, k1, f);
  }

  /** One more object settled. */
  lemma ProgressStep(goal: Key -> Goal, s: Store, cur: Store, next: Store, done: iset<Key>, k: Key)
    requires Progress(goal, s, cur, done) && k !in done
    requires next == With(cur, k, Settle(goal(k), Lookup(cur, k)))
    ensures Progress(goal, s, next, done + iset{k})
  {
    forall x ensures Lookup(next, x) ==
                       if x in done + iset{k} then Settle(goal(x), Lookup(s, x)) else Lookup(s, x)
    {
      assert Lookup(cur, x) == if x in done then Settle(goal(x), Lookup(s, x)) else Lookup(s, x);
    }
  }

  /** Objects that settling would not change count as settled. */
  lemma ProgressWidens(goal: Key -> Goal, s: Store, t: Store, done: iset<Key>, more: iset<Key>)
    requires Progress(goal, s, t, done)
    requires forall k :: k in more && k !in done ==> Settle(goal(k), Lookup(s, k)) == Lookup(s, k)
    ensures Progress(goal, s, t, done + more)
  {
    forall k ensures Lookup(t, k) == if k in done + more then Settle(goal(k), Lookup(s, k)) else Lookup(s, k) {
      assert Lookup(t, k) == if k in done then Settle(goal(k), Lookup(s, k)) else Lookup(s, k);
    }
  }

  lemma ProgressIsNear(goal: Key -> Goal, s: Store, t: Store, done: iset<Key>)
    requires Progress(goal, s, t, done)
    ensures Near(goal, s, t)
  {
  }

  /** Before any deletion there is no gap. */
  lemma NoGapEarly(goal: Key -> Goal, s: Store, t: Store, done: iset<Key>)
    requires Progress(goal, s, t, done) && forall k :: k in done ==> goal(k).Publish? || goal(k).Anchor?
    ensures NoGap(goal, s, t)
  {
    forall k | k in s ensures k in t {
      assert Lookup(t, k) == if k in done then Settle(goal(k), Lookup(s, k)) else Lookup(s, k);
    }
  }

  /** Once everything wanted is in place deletions leave no gap. */
  lemma NoGapLate(goal: Key -> Goal, s: Store, t: Store, done: iset<Key>)
    requires Progress(goal, s, t, done) && forall k :: goal(k).Publish? || goal(k).Anchor? ==> k in done
    ensures NoGap(goal, s, t)
  {
    forall k | goal(k).Publish? || goal(k).Anchor? ensures Lookup(t, k) == Settle(goal(k), Lookup(s, k)) {
      assert Lookup(t, k) == if k in done then Settle(goal(k), Lookup(s, k)) else Lookup(s, k);
    }
  }

  lemma ProgressCompletes(goal: Key -> Goal, s: Store, t: Store, done: iset<Key>)
    requires Progress(goal, s, t, done) && forall k :: k in done || goal(k).Leave?
    ensures Settled(goal, s, t)
  {
    forall k ensures Lookup(t, k) == Settle(goal(k), Lookup(s, k)) {
      assert Lookup(t, k) == if k in done then Settle(goal(k), Lookup(s, k)) else Lookup(s, k);
    }
  }

  function AnchorKey(ns: string): Key {
    Key(ConfigMap, ns, ANCHOR_NAME)
  }

  function OptionsKey(i: Inputs): Key {
    Key(DhcpOptions, i.target, DeviceBased.DHCP_OPTIONS_NAME)
  }

  /** Where a run looks for something to prune. */
  predicate Sweepable(i: Inputs, k: Key) {
    (k.ns == i.target && (k.kind == DhcpHosts || k.kind == DnsHosts))
    || (k.kind == FreeRadiusDevice && i.radius == Some(k.ns))
  }

  /** The goals of the host objects. */
  ghost predicate HostsDescribed(goal: Key -> Goal, i: Inputs) {
    && (forall n :: n in i.dhcp ==>
          goal(Key(DhcpHosts, i.target, n)) == Publish(i.dhcp[n], HostLabels(n), OwnerIn(i.target, ANCHOR_NAME)))
    && (forall n :: n in i.dns ==>
          goal(Key(DnsHosts, i.target, n)) == Publish(i.dns[n], HostLabels(n), OwnerIn(i.target, ANCHOR_NAME)))
  }

  /** The goals on the FreeRADIUS side. */
  ghost predicate RadiusDescribed(goal: Key -> Goal, i: Inputs) {
    i.radius.Some? ==>
      && goal(AnchorKey(i.radius.value)) == Anchor(Managed(AGGREGATE, ""))
      && forall n :: n in i.devices ==>
           goal(Key(FreeRadiusDevice, i.radius.value, n)) ==
             Publish(i.devices[n], RadiusLabels(n), OwnerIn(i.radius.value, ANCHOR_NAME))
  }

  ghost predicate OptionsDescribed(goal: Key -> Goal, i: Inputs) {
    && goal(OptionsKey(i)) == Publish(i.options, Managed(AGGREGATE, ""), OwnerIn(i.target, ANCHOR_NAME))
    && goal(AnchorKey(i.target)) == Anchor(Managed(AGGREGATE, ""))
  }

  /** The goals, listed by where they come from. */
  ghost predicate Describes(goal: Key -> Goal, i: Inputs) {
    && OptionsDescribed(goal, i) && HostsDescribed(goal, i) && RadiusDescribed(goal, i)
    && (forall k :: goal(k).Publish? <==> Published(i, k))
    && (forall k :: goal(k).Sweep? ==> Sweepable(i, k))
    && (forall k :: goal(k).Anchor? <==> k == AnchorKey(i.target) || (i.radius.Some? && k == AnchorKey(i.radius.value)))
  }

  /** The names a prune of one kind in one namespace keeps, against the goals there. */
  ghost predicate PrunesTo(goal: Key -> Goal, kind: Kind, ns: string, keep: set<string>) {
    forall k: Key :: k.kind == kind && k.ns == ns ==>
      if k.name in keep then goal(k).Leave? || goal(k).Publish? else goal(k) == Sweep(AGGREGATE)
  }

  ghost predicate PrunesDescribed(goal: Key -> Goal, i: Inputs) {
    && PrunesTo(goal, DhcpHosts, i.target, Keep(i))
    && PrunesTo(goal, DnsHosts, i.target, Keep(i))
    && (i.radius.Some? ==> PrunesTo(goal, FreeRadiusDevice, i.radius.value, i.devices.Keys))
  }

  lemma GoalsDescribed(i: Inputs)
    ensures Describes(GoalsOf(i), i)
  {
    PartsDescribed(i);
    forall k ensures GoalsOf(i)(k).Publish? <==> Published(i, k) {
      PublishedExact(i, k);
    }
  }

  lemma PartsDescribed(i: Inputs)
    ensures OptionsDescribed(GoalsOf(i), i) && HostsDescribed(GoalsOf(i), i) && RadiusDescribed(GoalsOf(i), i)
  {
  }

  lemma PrunesFollow(i: Inputs)
    ensures PrunesDescribed(GoalsOf(i), i)
  {
  }

  /** The objects a run writes: finitely many. */
  function WriteKeys(i: Inputs): set<Key> {
    {OptionsKey(i), AnchorKey(i.target)}
    + (set n | n in i.dhcp :: Key(DhcpHosts, i.target, n))
    + (set n | n in i.dns :: Key(DnsHosts, i.target, n))
    + (if i.radius.None? then {}
       else {AnchorKey(i.radius.value)} + set n | n in i.devices :: Key(FreeRadiusDevice, i.radius.value, n))
  }

  lemma WriteKeysExact(i: Inputs, k: Key)
    ensures k in WriteKeys(i) <==> GoalOf(i, k).Publish? || GoalOf(i, k).Anchor?
  {
    assert k == Key(k.kind, k.ns, k.name);
  }

  /** From every store there is a settled one. */
  lemma SettledExists(i: Inputs, s: Store) returns (t: Store)
    ensures Settled(GoalsOf(i), s, t)
  {
    t := map k | k in s.Keys + WriteKeys(i) && Settle(GoalOf(i, k), Lookup(s, k)).Some? :: Settle(GoalOf(i, k), Lookup(s, k)).value;
    forall k ensures Lookup(t, k) == Settle(GoalOf(i, k), Lookup(s, k)) {
      WriteKeysExact(i, k);
    }
  }
}

/** What a reconcile reports of its plans: internal/controller/reconcile_log.go. */
module ReconcileLog {
  import opened Kube
  import opened Ensure
  import opened Ordering
  import opened Goals

  /** The text that stands for a resource. */
  function ResourceKey(p: ApplyPlan): string {
    p.groupKind + "/" + p.ns + "/" + p.name
  }

  /** The last plan with key `k`. */
  function LastPlan(plans: seq<ApplyPlan>, k: string): Option<ApplyPlan> {
    if plans == [] then None
    else if ResourceKey(plans[|plans| - 1]) == k then Some(plans[|plans| - 1])
    else LastPlan(plans[..|plans| - 1], k)
  }

  /** The keys, each at its first position. */
  function FirstKeys(plans: seq<ApplyPlan>): seq<string> {
    if plans == [] then []
    else
      var front, k := FirstKeys(plans[..|plans| - 1]), ResourceKey(plans[|plans| - 1]);
      if k in front then front else front + [k]
  }

  function LastPlans(plans: seq<ApplyPlan>, keys: seq<string>): seq<ApplyPlan> {
    Collect(keys, k => OnePlan(plans, k))
  }

  function OnePlan(plans: seq<ApplyPlan>, k: string): seq<ApplyPlan> {
    var p := LastPlan(plans, k);
    if p.Some? then [p.value] else []
  }

  function Deduped(plans: seq<ApplyPlan>): seq<ApplyPlan> {
    LastPlans(plans, FirstKeys(plans))
  }

  method DedupeApplyPlans(plans: seq<ApplyPlan>) returns (out: seq<ApplyPlan>)
    ensures out == Deduped(plans)
  {
    var byResource: map<string, ApplyPlan> := map[];
    var order: seq<string> := [];
    for j := 0 to |plans|
      invariant order == FirstKeys(plans[..j])
      invariant forall k :: Find(byResource, k) == LastPlan(plans[..j], k)
      invariant forall k :: k in order <==> k in byResource
    {
      assert plans[..j + 1][..j] == plans[..j];
      var key := ResourceKey(plans[j]);
      if key !in byResource {
        order := order + [key];
      }
      byResource := byResource[key := plans[j]];
    }
    assert plans[..|plans|] == plans;
    out := [];
    ghost var f := k => OnePlan(plans, k);
    for j := 0 to |order|
      invariant out == Collect(order[..j], f)
    {
      CollectStep(order, j, f);
      assert Find(byResource, order[j]) == LastPlan(plans, order[j]);
      out := out + [byResource[order[j]]];
    }
    assert order[..|order|] == order;
  }

  /** The first position of key `k`, or the length of the list. */
  function FirstAt(plans: seq<ApplyPlan>, k: string): (n: nat)
    ensures n <= |plans|
  {
    if plans == [] then 0
    else
      var front := plans[..|plans| - 1];
      if FirstAt(front, k) < |front| then FirstAt(front, k)
      else if ResourceKey(plans[|plans| - 1]) == k then |front|
      else |plans|
  }

  /** Plan `p` is the last one for its resource. */
  ghost predicate IsLast(plans: seq<ApplyPlan>, p: ApplyPlan) {
    exists i :: 0 <= i < |plans| && plans[i] == p && forall j :: i < j < |plans| ==> ResourceKey(plans[j]) != ResourceKey(p)
  }

  lemma {:induction false} LastPlanMeaning(plans: seq<ApplyPlan>, k: string)
    ensures match LastPlan(plans, k)
            case Some(p) => ResourceKey(p) == k && IsLast(plans, p)
            case None => forall p :: p in plans ==> ResourceKey(p) != k
  {
    if plans != [] {
      var front, last := plans[..|plans| - 1], plans[|plans| - 1];
      assert plans == front + [last];
      LastPlanMeaning(front, k);
      if LastPlan(plans, k).Some? && ResourceKey(last) != k {
        var p := LastPlan(front, k).value;
        var i :| 0 <= i < |front| && front[i] == p && forall j :: i < j < |front| ==> ResourceKey(front[j]) != ResourceKey(p);
        assert plans[i] == p && forall j :: i < j < |plans| ==> ResourceKey(plans[j]) != ResourceKey(p);
      }
    }
  }

  lemma LastPlanUnique(plans: seq<ApplyPlan>, p: ApplyPlan)
    requires IsLast(plans, p)
    ensures LastPlan(plans, ResourceKey(p)) == Some(p)
  {
    LastPlanMeaning(plans, ResourceKey(p));
    var i :| 0 <= i < |plans| && plans[i] == p && forall j :: i < j < |plans| ==> ResourceKey(plans[j]) != ResourceKey(p);
    assert plans[i] in plans;
    var q := LastPlan(plans, ResourceKey(p)).value;
    var i' :| 0 <= i' < |plans| && plans[i'] == q && forall j :: i' < j < |plans| ==> ResourceKey(plans[j]) != ResourceKey(q);
  }

  lemma {:induction false} FirstKeysMeaning(plans: seq<ApplyPlan>)
    ensures var keys := FirstKeys(plans);
            && (forall k :: k in keys <==> FirstAt(plans, k) < |plans|)
            && (forall a, b :: 0 <= a < b < |keys| ==> FirstAt(plans, keys[a]) < FirstAt(plans, keys[b]))
            && (forall k :: k in keys <==> LastPlan(plans, k).Some?)
  {
    if plans != [] {
      var front := plans[..|plans| - 1];
      FirstKeysMeaning(front);
      var before, keys := FirstKeys(front), FirstKeys(plans);
      forall a | 0 <= a < |before| ensures FirstAt(plans, keys[a]) == FirstAt(front, before[a]) < |front| {
        assert before[a] in before;
      }
    }
  }

  /** The result is each resource once: its keys appear in the order in which they first occurred, and its
      plans are exactly those that no later plan for the same resource replaces. */
  lemma DedupedExact(plans: seq<ApplyPlan>)
    ensures var out := Deduped(plans);
            && |out| == |FirstKeys(plans)|
            && (forall a :: 0 <= a < |out| ==> ResourceKey(out[a]) == FirstKeys(plans)[a])
            && (forall a, b :: 0 <= a < b < |out| ==>
                  FirstAt(plans, ResourceKey(out[a])) < FirstAt(plans, ResourceKey(out[b])))
            && (forall p :: p in out <==> IsLast(plans, p))
            && DistinctBy(ResourceKey, out)
  {
    FirstKeysMeaning(plans);
    PlansByKey(plans, FirstKeys(plans));
    DedupedMembers(plans);
  }

  lemma DedupedMembers(plans: seq<ApplyPlan>)
    ensures forall p :: p in Deduped(plans) <==> IsLast(plans, p)
  {
    var keys := FirstKeys(plans);
    FirstKeysMeaning(plans);
    CollectMembers(keys, k => OnePlan(plans, k));
    forall p ensures p in Deduped(plans) <==> IsLast(plans, p) {
      if IsLast(plans, p) {
        LastPlanUnique(plans, p);
        assert p in OnePlan(plans, ResourceKey(p));
      } else if k :| k in keys && p in OnePlan(plans, k) {
        LastPlanMeaning(plans, k);
      }
    }
  }

  lemma {:induction false} PlansByKey(plans: seq<ApplyPlan>, keys: seq<string>)
    requires forall k :: k in keys ==> LastPlan(plans, k).Some?
    ensures var out := LastPlans(plans, keys);
            |out| == |keys| && forall a :: 0 <= a < |out| ==> ResourceKey(out[a]) == keys[a]
  {
    if keys != [] {
      var front, last := keys[..|keys| - 1], keys[|keys| - 1];
      assert keys == front + [last];
      PlansByKey(plans, front);
      LastPlanMeaning(plans, last);
    }
  }

  /** Plans for distinct resources are left as they are. */
  lemma {:induction false} DistinctKept(plans: seq<ApplyPlan>)
    requires DistinctBy(ResourceKey, plans)
    ensures Deduped(plans) == plans
  {
    if plans != [] {
      var front, last := plans[..|plans| - 1], plans[|plans| - 1];
      assert plans == front + [last];
      DistinctKept(front);
      var before := FirstKeys(front);
      DedupedExact(front);
      forall k | k in before ensures k != ResourceKey(last) && OnePlan(plans, k) == OnePlan(front, k) {
        var a :| 0 <= a < |before| && before[a] == k;
        assert ResourceKey(plans[a]) == k;
      }
      CollectAgree(before, k => OnePlan(front, k), k => OnePlan(plans, k));
      CollectConcat(before, [ResourceKey(last)], k => OnePlan(plans, k));
      CollectTwo(ResourceKey(last), "", k => OnePlan(plans, k));
    }
  }

  lemma DedupeIdempotent(plans: seq<ApplyPlan>)
    ensures Deduped(Deduped(plans)) == Deduped(plans)
  {
    DedupedExact(plans);
    DistinctKept(Deduped(plans));
  }

  lemma FirstCharacter(a: string, b: string)
    ensures (a + "/" + b)[0] == if a == [] then '/' else a[0]
    ensures a == [] ==> (a + "/" + b)[1..] == b
    ensures a != [] ==> (a + "/" + b)[1..] == a[1..] + "/" + b && a == [a[0]] + a[1..]
  {
  }

  lemma {:induction false} SlashSplits(a: string, b: string, x: string, y: string)
    requires '/' !in a && '/' !in x && a + "/" + b == x + "/" + y
    ensures a == x && b == y
  {
    FirstCharacter(a, b);
    FirstCharacter(x, y);
    if a != [] && x != [] {
      SlashSplits(a[1..], b, x[1..], y);
    }
  }

  predicate SlashFree(p: ApplyPlan) {
    '/' !in p.groupKind && '/' !in p.ns
  }

  /** The joined text tells resources apart as long as neither group-kind nor namespace has a slash in it. */
  lemma KeyInjective(p: ApplyPlan, q: ApplyPlan)
    requires SlashFree(p) && SlashFree(q)
    ensures ResourceKey(p) == ResourceKey(q) <==> p.groupKind == q.groupKind && p.ns == q.ns && p.name == q.name
  {
    if ResourceKey(p) == ResourceKey(q) {
      assert ResourceKey(p) == p.groupKind + "/" + (p.ns + "/" + p.name);
      assert ResourceKey(q) == q.groupKind + "/" + (q.ns + "/" + q.name);
      SlashSplits(p.groupKind, p.ns + "/" + p.name, q.groupKind, q.ns + "/" + q.name);
      SlashSplits(p.ns, p.name, q.ns, q.name);
    }
  }

  function Tally(plans: seq<ApplyPlan>, a: Action): nat {
    if plans == [] then 0 else Tally(plans[..|plans| - 1], a) + if plans[|plans| - 1].action == a then 1 else 0
  }

  lemma TallyStep(plans: seq<ApplyPlan>, j: nat, a: Action)
    requires j < |plans|
    ensures Tally(plans[..j + 1], a) == Tally(plans[..j], a) + if plans[j].action == a then 1 else 0
  {
    assert plans[..j + 1][..j] == plans[..j];
  }

  function Changed(plans: seq<ApplyPlan>): seq<ApplyPlan> {
    Collect(plans, (p: ApplyPlan) => if p.action == Unchanged then [] else [p])
  }

  /** The distinct resources. */
  function Resources(plans: seq<ApplyPlan>): set<string> {
    set p | p in plans :: ResourceKey(p)
  }

  lemma {:induction false} FirstKeysCount(plans: seq<ApplyPlan>)
    ensures |FirstKeys(plans)| == |Resources(plans)|
    ensures forall k :: k in FirstKeys(plans) <==> k in Resources(plans)
  {
    if plans != [] {
      var front, last := plans[..|plans| - 1], plans[|plans| - 1];
      assert plans == front + [last];
      FirstKeysCount(front);
      assert Resources(plans) == Resources(front) + {ResourceKey(last)};
    }
  }

  method CountActions(plans: seq<ApplyPlan>) returns (creates: nat, updates: nat, same: nat)
    ensures creates == Tally(plans, Create) && updates == Tally(plans, Update) && same == Tally(plans, Unchanged)
    ensures creates + updates + same == |plans|
  {
    creates, updates, same := 0, 0, 0;
    for j := 0 to |plans|
      invariant creates == Tally(plans[..j], Create) && updates == Tally(plans[..j], Update)
      invariant same == Tally(plans[..j], Unchanged) && creates + updates + same == j
    {
      TallyStep(plans, j, Create);
      TallyStep(plans, j, Update);
      TallyStep(plans, j, Unchanged);
      match plans[j].action {
        case Create => creates := creates + 1;
        case Update => updates := updates + 1;
        case _ => same := same + 1;
      }
    }
    assert plans[..|plans|] == plans;
  }

  method ChangedPlans(plans: seq<ApplyPlan>) returns (lines: seq<ApplyPlan>)
    ensures lines == Changed(plans) && |lines| == Tally(plans, Create) + Tally(plans, Update)
  {
    lines := [];
    for j := 0 to |plans|
      invariant lines == Changed(plans[..j]) && |lines| == Tally(plans[..j], Create) + Tally(plans[..j], Update)
    {
      TallyStep(plans, j, Create);
      TallyStep(plans, j, Update);
      CollectStep(plans, j, (p: ApplyPlan) => if p.action == Unchanged then [] else [p]);
      if plans[j].action == Unchanged {
        continue;
      }
      lines := lines + [plans[j]];
    }
    assert plans[..|plans|] == plans;
  }

  /** The numbers and the lines of the summary: the three tallies add up to the number of distinct
      resources, and one line is given per resource created or updated. */
  method LogReconcileSummary(all: seq<ApplyPlan>)
    returns (creates: nat, updates: nat, same: nat, lines: seq<ApplyPlan>)
    ensures var plans := Deduped(all);
            creates == Tally(plans, Create) && updates == Tally(plans, Update) && same == Tally(plans, Unchanged)
    ensures creates + updates + same == |Resources(all)|
    ensures lines == Changed(Deduped(all)) && |lines| == creates + updates
  {
    var plans := DedupeApplyPlans(all);
    DedupedExact(all);
    FirstKeysCount(all);
    creates, updates, same := CountActions(plans);
    lines := ChangedPlans(plans);
  }

  /** The plans of a device run are for distinct resources, so the summary drops none of them. */
  lemma RunPlansDistinct(goal: Key -> Goal, i: Inputs, s: Store, plans: seq<ApplyPlan>, keys: seq<Key>)
    requires PlansComplete(goal, i, s, plans, keys)
    requires '/' !in i.target && (i.radius.Some? ==> '/' !in i.radius.value)
    ensures Deduped(plans) == plans
  {
    forall a, b | 0 <= a < |plans| && 0 <= b < |plans| && ResourceKey(plans[a]) == ResourceKey(plans[b]) ensures a == b {
      assert keys[a] in keys && keys[b] in keys;
      PlanNames(goal, i, s, keys[a], plans[a]);
      PlanNames(goal, i, s, keys[b], plans[b]);
      SamePlace(keys[a], keys[b], plans[a], plans[b]);
    }
    DistinctKept(plans);
  }

  lemma SamePlace(k: Key, l: Key, p: ApplyPlan, q: ApplyPlan)
    requires p.groupKind == GroupKind(k.kind) && p.ns == k.ns && p.name == k.name && '/' !in k.ns && !k.kind.OtherKind?
    requires q.groupKind == GroupKind(l.kind) && q.ns == l.ns && q.name == l.name && '/' !in l.ns && !l.kind.OtherKind?
    requires ResourceKey(p) == ResourceKey(q)
    ensures k == l
  {
    GroupKindSlashFree(k.kind);
    GroupKindSlashFree(l.kind);
    KeyInjective(p, q);
    GroupKindsApart(k.kind, l.kind);
  }

  lemma PlanNames(goal: Key -> Goal, i: Inputs, s: Store, k: Key, p: ApplyPlan)
    requires PlanFor(goal, s, k, p) && Published(i, k)
    ensures p.groupKind == GroupKind(k.kind) && p.ns == k.ns && p.name == k.name
    ensures !k.kind.OtherKind? && (k.ns == i.target || i.radius == Some(k.ns))
  {
  }

  /** Under what name a summary speaks of an object of each kind. */
  lemma KeysInTheLog(goal: Key -> Goal, i: Inputs, s: Store, k: Key, p: ApplyPlan)
    requires PlanFor(goal, s, k, p)
    ensures var place := k.ns + "/" + k.name;
            match k.kind
            case DhcpOptions => ResourceKey(p) == "DhcpOptions.dnsmasq.kvaps.cf/" + place
            case DhcpHosts => ResourceKey(p) == "DhcpHosts.dnsmasq.kvaps.cf/" + place
            case DnsHosts => ResourceKey(p) == "DnsHosts.dnsmasq.kvaps.cf/" + place
            case FreeRadiusDevice => ResourceKey(p) == "Device.freeradius.valdron.ca/" + place
            case _ => true
  {
    var group := GroupKind(k.kind);
    assert ResourceKey(p) == (group + "/") + (k.ns + "/" + k.name);
    assert "DhcpOptions.dnsmasq.kvaps.cf" + "/" == "DhcpOptions.dnsmasq.kvaps.cf/";
    assert "DhcpHosts.dnsmasq.kvaps.cf" + "/" == "DhcpHosts.dnsmasq.kvaps.cf/";
    assert "DnsHosts.dnsmasq.kvaps.cf" + "/" == "DnsHosts.dnsmasq.kvaps.cf/";
    assert "Device.freeradius.valdron.ca" + "/" == "Device.freeradius.valdron.ca/";
  }

  lemma GroupKindSlashFree(a: Kind)
    requires !a.OtherKind?
    ensures '/' !in GroupKind(a)
  {
  }

  lemma GroupKindsApart(a: Kind, b: Kind)
    requires !a.OtherKind? && !b.OtherKind? && GroupKind(a) == GroupKind(b)
    ensures a == b
  {
    assert |GroupKind(ConfigMap)| == 10 && |GroupKind(DhcpOptions)| == 28 && |GroupKind(DhcpHosts)| == 26;
    assert |GroupKind(DnsHosts)| == 25 && |GroupKind(FreeRadiusDevice)| == 28;
    assert GroupKind(DhcpOptions)[1] == 'h' && GroupKind(FreeRadiusDevice)[1] == 'e';
  }
}

/** Planning and applying one object: internal/ensure. */
module Ensure {
  import opened Kube

  datatype Action = Create | Update | Unchanged

  datatype ApplyPlan = ApplyPlan(action: Action, groupKind: string, ns: string, name: string)

  datatype Owner = Owner(ns: string, ref: OwnerRef)

  function GroupKind(k: Kind): string {
    match k
    case ConfigMap => "ConfigMap."
    case DhcpOptions => "DhcpOptions.dnsmasq.kvaps.cf"
    case DhcpHosts => "DhcpHosts.dnsmasq.kvaps.cf"
    case DnsHosts => "DnsHosts.dnsmasq.kvaps.cf"
    case FreeRadiusDevice => "Device.freeradius.valdron.ca"
    case OtherKind(name) => name
  }

  /** An absent spec compares as an empty one. */
  function SpecTree(f: SpecField): Tree
    requires !f.NotAMap?
  {
    if f.Missing? then map[] else f.tree
  }

  /** Specs that compare equal: the same, or one is absent and the other empty. */
  predicate ReadAlike(a: SpecField, b: SpecField) {
    a == b || (a.Missing? && b == Fields(map[])) || (b.Missing? && a == Fields(map[]))
  }

  /** The verdict on one object: `Err` when a spec that has to be compared is not a map. */
  function Verdict(cur: Option<Obj>, desired: SpecField): Result<Action> {
    if cur.None? then Ok(Create)
    else if desired.NotAMap? || cur.value.spec.NotAMap? then Err
    else Ok(if SpecTree(desired) == SpecTree(cur.value.spec) then Unchanged else Update)
  }

  method PlanUnstructured(c: Client, k: Key, desired: SpecField) returns (r: Result<ApplyPlan>)
    requires c.Valid()
    modifies c`calls
    ensures r.Ok? ==> r.value.groupKind == GroupKind(k.kind) && r.value.ns == k.ns && r.value.name == k.name
    ensures r.Ok? ==> Verdict(Lookup(c.objects, k), desired) == Ok(r.value.action)
    ensures r.Ok? <==> c.script(old(c.calls)).Done? && Verdict(Lookup(c.objects, k), desired).Ok?
  {
    var plan := ApplyPlan(Unchanged, GroupKind(k.kind), k.ns, k.name);
    var current := c.Get(k);
    match current {
      case NotFound =>
        return Ok(plan.(action := Create));
      case NoMatch =>
        return Ok(plan.(action := Create));
      case Broken =>
        return Err;
      case Found(obj) =>
        if desired.NotAMap? || obj.spec.NotAMap? {
          return Err;
        }
        if SpecTree(desired) == SpecTree(obj.spec) {
          plan := plan.(action := Unchanged);
        } else {
          plan := plan.(action := Update);
        }
        return Ok(plan);
    }
  }

  /** Two references name the same owner when group, kind and name agree, whatever the version. */
  predicate SameOwner(a: OwnerRef, b: OwnerRef) {
    a.group == b.group && a.kind == b.kind && a.name == b.name
  }

  function UpsertOwner(owners: seq<OwnerRef>, ref: OwnerRef): (r: seq<OwnerRef>)
    ensures ref in r
  {
    if owners == [] then [ref]
    else if SameOwner(owners[0], ref) then [ref] + owners[1..]
    else [owners[0]] + UpsertOwner(owners[1..], ref)
  }

  /** Exactly the first reference of the same group, kind and name is replaced; if there is none, the new one
      is appended. */
  lemma {:induction false} UpsertOwnerExact(owners: seq<OwnerRef>, ref: OwnerRef) returns (n: nat)
    ensures n <= |owners|
    ensures forall i :: 0 <= i < n ==>
              owners[i].group != ref.group || owners[i].kind != ref.kind || owners[i].name != ref.name
    ensures n < |owners| ==> owners[n].group == ref.group && owners[n].kind == ref.kind && owners[n].name == ref.name
    ensures UpsertOwner(owners, ref) == if n < |owners| then owners[n := ref] else owners + [ref]
  {
    n := 0;
    if owners != [] && !SameOwner(owners[0], ref) {
      var m := UpsertOwnerExact(owners[1..], ref);
      n := m + 1;
      assert owners == [owners[0]] + owners[1..];
    }
  }

  lemma {:induction false} UpsertOwnerIdempotent(owners: seq<OwnerRef>, ref: OwnerRef)
    ensures UpsertOwner(UpsertOwner(owners, ref), ref) == UpsertOwner(owners, ref)
  {
    if owners != [] && !SameOwner(owners[0], ref) {
      UpsertOwnerIdempotent(owners[1..], ref);
      assert ([owners[0]] + UpsertOwner(owners[1..], ref))[1..] == UpsertOwner(owners[1..], ref);
    }
  }

  /** An upsert keeps every other owner, and keeps their order. */
  lemma {:induction false} UpsertOwnerKeepsOthers(owners: seq<OwnerRef>, ref: OwnerRef)
    ensures forall o :: !SameOwner(o, ref) ==> (o in UpsertOwner(owners, ref) <==> o in owners)
    ensures |owners| <= |UpsertOwner(owners, ref)| <= |owners| + 1
    ensures forall i :: 0 <= i < |owners| && !SameOwner(owners[i], ref) ==> UpsertOwner(owners, ref)[i] == owners[i]
  {
    if owners != [] && !SameOwner(owners[0], ref) {
      UpsertOwnerKeepsOthers(owners[1..], ref);
      assert owners == [owners[0]] + owners[1..];
    } else if owners != [] {
      assert owners == [owners[0]] + owners[1..];
    }
  }

  /** The mutation applied to a live or blank object in namespace `ns`. */
  function Mutated(cur: Obj, ns: string, desired: SpecField, extra: Labels, owner: Option<Owner>): Result<Obj> {
    if desired.NotAMap? then Err
    else
      var spec := if desired.Fields? then desired else cur.spec;
      match owner
      case None => Ok(Obj(spec, cur.labels + extra, cur.owners))
      case Some(w) =>
        if w.ns != "" && w.ns != ns then Err
        else Ok(Obj(spec, cur.labels + extra, UpsertOwner(cur.owners, w.ref)))
  }

  const BLANK := Obj(Missing, map[], [])

  /** Reads `k`, mutates what was found (or `blank`), and writes only if that changed anything. */
  method CreateOrUpdate(c: Client, k: Key, blank: Obj, mutate: Obj -> Result<Obj>) returns (ok: bool)
    requires c.Valid()
    modifies c`calls, c`objects, c`writes
    ensures c.Valid()
    ensures var next := mutate(if k in old(c.objects) then old(c.objects)[k] else blank);
            && (ok ==> next.Ok? && k.kind in c.served && c.objects == old(c.objects)[k := next.value])
            && (!ok ==> c.objects == old(c.objects) || (next.Ok? && c.objects == old(c.objects)[k := next.value]))
            && (c.Healthy() && next.Ok? && k.kind in c.served ==> ok)
            && (k in old(c.objects) && next == Ok(old(c.objects)[k]) ==> c.writes == old(c.writes))
  {
    var current := c.Get(k);
    match current {
      case NoMatch =>
        return false;
      case Broken =>
        return false;
      case NotFound =>
        var created := mutate(blank);
        if created.Err? {
          return false;
        }
        ok := c.Write(k, created.value, true);
      case Found(existing) =>
        var changed := mutate(existing);
        if changed.Err? {
          return false;
        }
        if changed.value == existing {
          assert c.objects == c.objects[k := existing];
          return true;
        }
        ok := c.Write(k, changed.value, false);
    }
  }

  method ApplyUnstructured(c: Client, k: Key, desired: SpecField, dryRun: bool, extra: Labels, owner: Option<Owner>)
    returns (ok: bool)
    requires c.Valid()
    modifies c`calls, c`objects, c`writes
    ensures c.Valid()
    ensures dryRun ==> ok && c.objects == old(c.objects) && c.writes == old(c.writes)
    ensures var next := Mutated(if k in old(c.objects) then old(c.objects)[k] else BLANK, k.ns, desired, extra, owner);
            !dryRun ==>
              && (ok ==> next.Ok? && k.kind in c.served && c.objects == old(c.objects)[k := next.value])
              && (!ok ==> c.objects == old(c.objects) || (next.Ok? && c.objects == old(c.objects)[k := next.value]))
              && (c.Healthy() && next.Ok? && k.kind in c.served ==> ok)
              && (k in old(c.objects) && next == Ok(old(c.objects)[k]) ==> c.writes == old(c.writes))
  {
    if dryRun {
      return true;
    }
    ok := CreateOrUpdate(c, k, BLANK, cur => Mutated(cur, k.ns, desired, extra, owner));
  }
}

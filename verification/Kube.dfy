/** The Kubernetes side of the operator: value trees, objects, the shared object store, and an API
    client whose every call is one atomic step that may fail before or after taking effect. */
module Kube {

  datatype Option<+T> = None | Some(value: T)

  datatype Result<+T> = Ok(value: T) | Err

  /** A decoded JSON value. */
  datatype Json =
    | JNull
    | JBool(b: bool)
    | JNum(n: int)
    | JStr(s: string)
    | JArr(items: seq<Json>)
    | JObj(fields: map<string, Json>)

  type Tree = map<string, Json>

  /** `j` is the list of the texts `xs`. */
  predicate Texts(j: Json, xs: seq<string>) {
    j.JArr? && |j.items| == |xs| && forall i :: 0 <= i < |xs| ==> j.items[i] == JStr(xs[i])
  }

  datatype Kind = ConfigMap | DhcpOptions | DhcpHosts | DnsHosts | FreeRadiusDevice | OtherKind(kindName: string)

  datatype Key = Key(kind: Kind, ns: string, name: string)

  type Labels = map<string, string>

  /** The `spec` field of a live or desired object (`data` for a ConfigMap). */
  datatype SpecField = Missing | Fields(tree: Tree) | NotAMap

  datatype OwnerRef = OwnerRef(group: string, version: string, kind: string, name: string)

  datatype Obj = Obj(spec: SpecField, labels: Labels, owners: seq<OwnerRef>)

  type Store = map<Key, Obj>

  const MANAGED_BY := "app.kubernetes.io/managed-by"
  const MANAGED_BY_VALUE := "homelab-operator"
  const AGGREGATE_KEY := "homelab.valdron.ca/aggregate"
  const NETWORK_KEY := "homelab.valdron.ca/network"

  function Lookup(s: Store, k: Key): Option<Obj> {
    if k in s then Some(s[k]) else None
  }

  /** The store with key `k` set to `o`, or without `k`. */
  function With(s: Store, k: Key, o: Option<Obj>): Store {
    match o
    case Some(obj) => s[k := obj]
    case None => s - {k}
  }

  /** The labels the operator puts on what it manages. */
  function Managed(aggregate: string, network: string): Labels {
    var m := map[MANAGED_BY := MANAGED_BY_VALUE, AGGREGATE_KEY := aggregate];
    if network != "" then m[NETWORK_KEY := network] else m
  }

  predicate HasLabel(l: Labels, key: string, value: string) {
    key in l && l[key] == value
  }

  /** What a list with the operator's label selector matches. */
  predicate ManagedAs(o: Obj, aggregate: string) {
    HasLabel(o.labels, AGGREGATE_KEY, aggregate) && HasLabel(o.labels, MANAGED_BY, MANAGED_BY_VALUE)
  }

  predicate NoDup<T(==)>(s: seq<T>) {
    forall i, j :: 0 <= i < j < |s| ==> s[i] != s[j]
  }

  function Find<T>(m: map<string, T>, name: string): Option<T> {
    if name in m then Some(m[name]) else None
  }

  /** The keys of a map in some order. */
  method MapOrder<T>(m: map<string, T>) returns (names: seq<string>)
    ensures NoDup(names) && forall n :: n in names <==> n in m
  {
    names := [];
    var rest := m.Keys;
    while rest != {}
      invariant NoDup(names)
      invariant forall n :: n in m <==> n in names || n in rest
      invariant forall n :: n in names ==> n !in rest
      decreases |rest|
    {
      var n :| n in rest;
      rest, names := rest - {n}, names + [n];
    }
  }

  /** The values at the given keys, in that order. */
  method ValuesAt<T>(m: map<string, T>, names: seq<string>) returns (values: seq<T>)
    requires forall n :: n in names ==> n in m
    ensures |values| == |names| && forall i :: 0 <= i < |names| ==> values[i] == m[names[i]]
  {
    values := [];
    for j := 0 to |names|
      invariant |values| == j && forall i :: 0 <= i < j ==> values[i] == m[names[i]]
    {
      values := values + [m[names[j]]];
    }
  }

  lemma StoresEqual(s: Store, t: Store)
    requires forall k :: Lookup(s, k) == Lookup(t, k)
    ensures s == t
  {
    forall k
      ensures k in s <==> k in t
      ensures k in s ==> s[k] == t[k]
    {
      assert Lookup(s, k) == Lookup(t, k);
    }
  }

  /** What one API call does: take effect and answer, fail without effect, or take effect while the
      answer is lost. A run that is cut short is a run whose next call is refused. */
  datatype Outcome = Done | Refused | Lost

  datatype Condition = Condition(kind: string, status: string, reason: string, message: string)

  datatype Status = Status(observedGeneration: int, conditions: seq<Condition>)

  /** Whose status is written. */
  datatype Subject = OfDevice | OfNetwork | OfRouter

  datatype StatusWrite = StatusWrite(subject: Subject, name: string, status: Status)

  datatype Fetch = Found(obj: Obj) | NotFound | NoMatch | Broken

  class Client {
    var objects: Store
    var calls: nat
    var writes: nat
    var statusWrites: seq<StatusWrite>
    const served: set<Kind>
    const script: nat -> Outcome

    constructor (objects: Store, served: set<Kind>, script: nat -> Outcome)
      requires forall k :: k in objects ==> k.kind in served
      ensures Valid() && this.objects == objects && calls == 0 && writes == 0 && statusWrites == []
      ensures this.served == served && this.script == script
    {
      this.objects, this.calls, this.writes, this.statusWrites := objects, 0, 0, [];
      this.served := served;
      this.script := script;
    }

    /** No object exists of a kind whose definition is not installed. */
    ghost predicate Valid()
      reads this`objects
    {
      forall k :: k in objects ==> k.kind in served
    }

    ghost predicate Healthy() {
      forall n: nat :: script(n).Done?
    }

    method Get(k: Key) returns (r: Fetch)
      requires Valid()
      modifies this`calls
      ensures script(old(calls)).Done? ==>
                r == if k.kind !in served then NoMatch
                     else if k in objects then Found(objects[k])
                     else NotFound
      ensures !script(old(calls)).Done? ==> r == Broken
    {
      var outcome := script(calls);
      calls := calls + 1;
      if !outcome.Done? {
        return Broken;
      }
      if k.kind !in served {
        return NoMatch;
      }
      r := if k in objects then Found(objects[k]) else NotFound;
    }

    /** Creates or overwrites `k`; `creating` says which of the two the caller asked for. */
    method Write(k: Key, o: Obj, creating: bool) returns (ok: bool)
      requires Valid()
      modifies this`calls, this`objects, this`writes
      ensures Valid()
      ensures var accepted := k.kind in served && (creating <==> k !in old(objects));
              && (ok <==> accepted && script(old(calls)).Done?)
              && objects == if accepted && !script(old(calls)).Refused? then old(objects)[k := o] else old(objects)
    {
      var outcome := script(calls);
      calls, writes := calls + 1, writes + 1;
      if outcome.Refused? || k.kind !in served || creating != (k !in objects) {
        return false;
      }
      objects := objects[k := o];
      ok := outcome.Done?;
    }

    method Delete(k: Key) returns (ok: bool)
      requires Valid()
      modifies this`calls, this`objects, this`writes
      ensures Valid()
      ensures ok <==> k in old(objects) && script(old(calls)).Done?
      ensures objects == if script(old(calls)).Refused? then old(objects) else old(objects) - {k}
    {
      var outcome := script(calls);
      calls, writes := calls + 1, writes + 1;
      if outcome.Refused? || k !in objects {
        return false;
      }
      objects := objects - {k};
      ok := outcome.Done?;
    }

    /** The keys of the managed objects of one kind in one namespace, in an order of the server's choice. */
    method List(kind: Kind, ns: string, aggregate: string) returns (ok: bool, keys: seq<Key>)
      requires Valid()
      modifies this`calls
      ensures ok <==> script(old(calls)).Done? && kind in served
      ensures NoDup(keys)
      ensures ok ==> forall k :: k in keys <==>
                       k in objects && k.kind == kind && k.ns == ns && ManagedAs(objects[k], aggregate)
    {
      var outcome := script(calls);
      calls := calls + 1;
      ok, keys := outcome.Done? && kind in served, [];
      if !ok {
        return;
      }
      var rest := set k | k in objects && k.kind == kind && k.ns == ns && ManagedAs(objects[k], aggregate);
      ghost var all := rest;
      while rest != {}
        invariant NoDup(keys)
        invariant forall k :: k in all <==> k in keys || k in rest
        invariant forall k :: k in keys ==> k !in rest
        decreases |rest|
      {
        var k :| k in rest;
        rest, keys := rest - {k}, keys + [k];
      }
    }

    /** Listing the resources a run starts from. */
    method ListInputs() returns (ok: bool)
      modifies this`calls
      ensures ok <==> script(old(calls)).Done?
    {
      ok := script(calls).Done?;
      calls := calls + 1;
    }

    /** A status write; its error is ignored by every caller. */
    method UpdateStatus(subject: Subject, name: string, status: Status)
      modifies this`calls, this`statusWrites
      ensures statusWrites == old(statusWrites) + [StatusWrite(subject, name, status)]
    {
      calls, statusWrites := calls + 1, statusWrites + [StatusWrite(subject, name, status)];
    }
  }
}

/** Status conditions of devices and networks. */
module StatusConditions {
  import opened Kube
  import opened Homelab

  const READY := "Ready"
  const NETWORK_AVAILABLE := "NetworkAvailable"

  /** Replaces the first condition of the same kind, or appends. */
  function SetCondition(conds: seq<Condition>, c: Condition): seq<Condition> {
    if conds == [] then [c]
    else if conds[0].kind == c.kind then [c] + conds[1..]
    else [conds[0]] + SetCondition(conds[1..], c)
  }

  function ConditionOf(conds: seq<Condition>, kind: string): Option<Condition> {
    if conds == [] then None
    else if conds[0].kind == kind then Some(conds[0])
    else ConditionOf(conds[1..], kind)
  }

  predicate ConditionsEqual(a: seq<Condition>, b: seq<Condition>) {
    |a| == |b|
    && forall i :: 0 <= i < |a| ==> a[i].kind == b[i].kind && a[i].status == b[i].status && a[i].reason == b[i].reason
  }

  function NetworkNames(networks: seq<Network>): set<string> {
    set n | n in networks :: n.name
  }

  /** The conditions after one pass, as the sequence of updates makes them. */
  function DeviceConditions(conds: seq<Condition>, network: string, names: set<string>, ok: bool, errMsg: string): seq<Condition> {
    var missing := SetCondition(conds,
      Condition(NETWORK_AVAILABLE, "False", "NetworkMissing", "Referenced network does not exist"));
    var available :=
      if network == "" then
        SetCondition(missing, Condition(NETWORK_AVAILABLE, "False", "NetworkNotSet", "spec.network is empty"))
      else if network in names then SetCondition(missing, Condition(NETWORK_AVAILABLE, "True", "NetworkFound", ""))
      else missing;
    if ok && network != "" && network in names then
      SetCondition(available, Condition(READY, "True", "Synced", ""))
    else
      SetCondition(available, Condition(READY, "False", "NotSynced", if errMsg == "" then "Device not synced" else errMsg))
  }

  function DeviceStatus(d: Device, names: set<string>, ok: bool, errMsg: string): Status {
    Status(d.generation, DeviceConditions(d.status.conditions, d.spec.network, names, ok, errMsg))
  }

  predicate NeedsWrite(before: Status, after: Status) {
    before.observedGeneration != after.observedGeneration || !ConditionsEqual(before.conditions, after.conditions)
  }

  lemma {:induction false} SetConditionMeaning(conds: seq<Condition>, c: Condition)
    ensures var r := SetCondition(conds, c);
            && ConditionOf(r, c.kind) == Some(c)
            && (forall kind :: kind != c.kind ==> ConditionOf(r, kind) == ConditionOf(conds, kind))
            && |conds| <= |r| <= |conds| + 1
            && (|r| == |conds| <==> ConditionOf(conds, c.kind).Some?)
            && (forall i :: 0 <= i < |conds| && conds[i].kind != c.kind ==> r[i] == conds[i])
            && (forall i :: 0 <= i < |conds| ==> r[i].kind == conds[i].kind)
  {
    if conds != [] && conds[0].kind != c.kind {
      SetConditionMeaning(conds[1..], c);
      var r := SetCondition(conds, c);
      assert r[1..] == SetCondition(conds[1..], c);
      assert forall i :: 0 < i < |conds| ==> r[i] == r[1..][i - 1] && conds[i] == conds[1..][i - 1];
    }
  }

  /** Exactly the first condition of the kind is replaced; if there is none, the new one is appended. */
  lemma {:induction false} SetConditionExact(conds: seq<Condition>, c: Condition) returns (n: nat)
    ensures n <= |conds| && forall i :: 0 <= i < n ==> conds[i].kind != c.kind
    ensures n < |conds| ==> conds[n].kind == c.kind
    ensures SetCondition(conds, c) == if n < |conds| then conds[n := c] else conds + [c]
    ensures ConditionOf(conds, c.kind) == if n < |conds| then Some(conds[n]) else None
  {
    n := 0;
    if conds != [] && conds[0].kind != c.kind {
      var m := SetConditionExact(conds[1..], c);
      n := m + 1;
      assert conds == [conds[0]] + conds[1..];
    }
  }

  /** The condition of a kind is missing in `before`, or has another status or reason than in `after`. */
  predicate Differs(before: seq<Condition>, after: seq<Condition>, kind: string) {
    var b, a := ConditionOf(before, kind), ConditionOf(after, kind);
    b.None? || a.None? || b.value.status != a.value.status || b.value.reason != a.value.reason
  }

  lemma SetComparesEqual(conds: seq<Condition>, c: Condition)
    ensures ConditionsEqual(conds, SetCondition(conds, c)) <==> !Differs(conds, SetCondition(conds, c), c.kind)
  {
    var n := SetConditionExact(conds, c);
    SetConditionMeaning(conds, c);
  }

  lemma EqualBefore(a: seq<Condition>, b: seq<Condition>, c: Condition)
    requires ConditionsEqual(a, SetCondition(b, c)) && |a| == |b|
    requires forall i :: 0 <= i < |a| && a[i].kind == c.kind ==> a[i] == b[i]
    ensures ConditionsEqual(a, b)
  {
    var n := SetConditionExact(b, c);
  }

  lemma SetTwoCompareEqual(conds: seq<Condition>, a: Condition, b: Condition)
    requires a.kind != b.kind
    ensures var after := SetCondition(SetCondition(conds, a), b);
            ConditionsEqual(conds, after) <==> !Differs(conds, after, a.kind) && !Differs(conds, after, b.kind)
  {
    var mid := SetCondition(conds, a);
    var after := SetCondition(mid, b);
    SetComparesEqual(conds, a);
    SetComparesEqual(mid, b);
    SetConditionMeaning(conds, a);
    SetConditionMeaning(mid, b);
    if ConditionsEqual(conds, after) {
      var n := SetConditionExact(conds, a);
      EqualBefore(conds, mid, b);
    }
  }

  /** Setting a condition that is already there, up to its message, changes nothing that is compared. */
  lemma {:induction false} SetConditionStable(conds: seq<Condition>, c: Condition)
    requires ConditionOf(conds, c.kind).Some?
    requires ConditionOf(conds, c.kind).value.status == c.status && ConditionOf(conds, c.kind).value.reason == c.reason
    ensures ConditionsEqual(SetCondition(conds, c), conds)
  {
    if conds[0].kind != c.kind {
      SetConditionStable(conds[1..], c);
      assert SetCondition(conds, c)[1..] == SetCondition(conds[1..], c);
      var r := SetCondition(conds, c);
      assert forall i :: 0 < i < |conds| ==> r[i] == r[1..][i - 1] && conds[i] == conds[1..][i - 1];
    }
  }

  /** A later setting of the same kind overrides an earlier one. */
  lemma {:induction false} SetConditionTwice(conds: seq<Condition>, a: Condition, b: Condition)
    requires a.kind == b.kind
    ensures SetCondition(SetCondition(conds, a), b) == SetCondition(conds, b)
  {
    if conds != [] && conds[0].kind != a.kind {
      SetConditionTwice(conds[1..], a, b);
      assert ([conds[0]] + SetCondition(conds[1..], a))[1..] == SetCondition(conds[1..], a);
    }
  }

  /** The network condition a device ends with depends only on whether its network is set and exists. */
  function AvailableOf(network: string, names: set<string>): Condition {
    if network == "" then Condition(NETWORK_AVAILABLE, "False", "NetworkNotSet", "spec.network is empty")
    else if network in names then Condition(NETWORK_AVAILABLE, "True", "NetworkFound", "")
    else Condition(NETWORK_AVAILABLE, "False", "NetworkMissing", "Referenced network does not exist")
  }

  function ReadyOf(network: string, names: set<string>, ok: bool, errMsg: string): Condition {
    if ok && network != "" && network in names then Condition(READY, "True", "Synced", "")
    else Condition(READY, "False", "NotSynced", if errMsg == "" then "Device not synced" else errMsg)
  }

  /** Whatever conditions a device had, one pass leaves these two, in a list where every other condition
      keeps its place and content. */
  lemma StatusMeaning(d: Device, names: set<string>, ok: bool, errMsg: string)
    ensures var before, after := d.status.conditions, DeviceStatus(d, names, ok, errMsg).conditions;
            && ConditionOf(after, NETWORK_AVAILABLE) == Some(AvailableOf(d.spec.network, names))
            && ConditionOf(after, READY) == Some(ReadyOf(d.spec.network, names, ok, errMsg))
            && (ConditionOf(after, READY).value.status == "True" ==>
                  ConditionOf(after, NETWORK_AVAILABLE).value.status == "True")
            && |before| <= |after| <= |before| + 2
            && (forall i :: 0 <= i < |before| && before[i].kind != READY && before[i].kind != NETWORK_AVAILABLE ==>
                  after[i] == before[i])
            && (forall kind :: kind != READY && kind != NETWORK_AVAILABLE ==>
                  ConditionOf(after, kind) == ConditionOf(before, kind))
  {
    var before := d.status.conditions;
    var missing := Condition(NETWORK_AVAILABLE, "False", "NetworkMissing", "Referenced network does not exist");
    var available := AvailableOf(d.spec.network, names);
    SetConditionTwice(before, missing, available);
    SetConditionMeaning(before, available);
    SetConditionMeaning(SetCondition(before, available), ReadyOf(d.spec.network, names, ok, errMsg));
  }

  /** A second pass over a status that was written needs no write, even if the error text changed. */
  lemma StatusFixpoint(d: Device, names: set<string>, ok: bool, errMsg: string, errMsg': string)
    ensures var once := d.(status := DeviceStatus(d, names, ok, errMsg));
            !NeedsWrite(once.status, DeviceStatus(once, names, ok, errMsg'))
  {
    StatusMeaning(d, names, ok, errMsg);
    ConditionsStable(d.(status := DeviceStatus(d, names, ok, errMsg)), names, ok, errMsg, errMsg');
  }

  lemma ConditionsStable(d: Device, names: set<string>, ok: bool, errMsg: string, errMsg': string)
    requires ConditionOf(d.status.conditions, NETWORK_AVAILABLE) == Some(AvailableOf(d.spec.network, names))
    requires ConditionOf(d.status.conditions, READY) == Some(ReadyOf(d.spec.network, names, ok, errMsg))
    ensures ConditionsEqual(DeviceStatus(d, names, ok, errMsg').conditions, d.status.conditions)
  {
    var conds := d.status.conditions;
    var available := AvailableOf(d.spec.network, names);
    SetConditionTwice(conds, Condition(NETWORK_AVAILABLE, "False", "NetworkMissing", "Referenced network does not exist"), available);
    SetConditionStable(conds, available);
    SetConditionMeaning(conds, available);
    SetConditionStable(SetCondition(conds, available), ReadyOf(d.spec.network, names, ok, errMsg'));
  }

  function NetworkConditions(conds: seq<Condition>, ok: bool, errMsg: string): seq<Condition> {
    SetCondition(conds, if ok then Condition(READY, "True", "Synced", "") else Condition(READY, "False", "NotSynced", errMsg))
  }

  function NetworkStatus(n: Network, ok: bool, errMsg: string): Status {
    Status(n.generation, NetworkConditions(n.status.conditions, ok, errMsg))
  }

  lemma NetworkStatusFixpoint(n: Network, ok: bool, errMsg: string, errMsg': string)
    ensures var once := n.(status := NetworkStatus(n, ok, errMsg));
            !NeedsWrite(once.status, NetworkStatus(once, ok, errMsg'))
  {
    var c := if ok then Condition(READY, "True", "Synced", "") else Condition(READY, "False", "NotSynced", errMsg);
    var c' := if ok then Condition(READY, "True", "Synced", "") else Condition(READY, "False", "NotSynced", errMsg');
    SetConditionMeaning(n.status.conditions, c);
    SetConditionStable(SetCondition(n.status.conditions, c), c');
  }
}

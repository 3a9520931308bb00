/** The three reconcilers as step machines over one store: every API call is a step, any reconciler may
    move next, may die at any step, and may start over. */
module Interleaving {
  import opened Kube
  import opened Goals

  datatype Agent = DeviceAgent | IngressAgent | LoadBalancerAgent

  /** What each reconciler works from during the runs considered. */
  datatype World = World(dev: Inputs, ingress: Tree, loadBalancer: Tree)

  const INGRESS_NAME := "ingress-based"
  const LOAD_BALANCER_NAME := "load-balancer-based"
  const INGRESS_ANCHOR := "homelab-operator-anchor-ingress-based"
  const LOAD_BALANCER_ANCHOR := "homelab-operator-anchor-loadbalancer-based"

  function AggregateOf(a: Agent): string {
    match a
    case DeviceAgent => AGGREGATE
    case IngressAgent => INGRESS_NAME
    case LoadBalancerAgent => LOAD_BALANCER_NAME
  }

  /** Whose object a key is, by name alone. */
  function OwnerOf(w: World, k: Key): Agent {
    if k == Key(DnsHosts, w.dev.target, INGRESS_NAME) || k == Key(ConfigMap, w.dev.target, INGRESS_ANCHOR)
    then IngressAgent
    else if k == Key(DnsHosts, w.dev.target, LOAD_BALANCER_NAME) || k == Key(ConfigMap, w.dev.target, LOAD_BALANCER_ANCHOR)
    then LoadBalancerAgent
    else DeviceAgent
  }

  function GoalAt(w: World, k: Key): Goal {
    match OwnerOf(w, k)
    case DeviceAgent => GoalOf(w.dev, k)
    case IngressAgent =>
      if k.kind == ConfigMap then Anchor(Managed(INGRESS_NAME, ""))
      else Publish(w.ingress, Managed(INGRESS_NAME, ""), OwnerIn(w.dev.target, INGRESS_ANCHOR))
    case LoadBalancerAgent =>
      if k.kind == ConfigMap then Anchor(Managed(LOAD_BALANCER_NAME, ""))
      else Publish(w.loadBalancer, Managed(LOAD_BALANCER_NAME, ""), OwnerIn(w.dev.target, LOAD_BALANCER_ANCHOR))
  }

  function GoalsAt(w: World): Key -> Goal {
    k => GoalAt(w, k)
  }

  predicate IsWrite(g: Goal) {
    g.Publish? || g.Anchor?
  }

  datatype Instr = Apply(k: Key) | Prune(kind: Kind, ns: string)

  datatype Pc =
    | Idle
    | Planned
    | Fetched(seen: Option<Obj>)
    | Deleting(queue: seq<Key>)

  datatype Task = Stopped | Task(todo: seq<Instr>, pc: Pc)

  datatype State = State(store: Store, device: Task, ingress: Task, loadBalancer: Task)

  function TaskOf(st: State, a: Agent): Task {
    match a
    case DeviceAgent => st.device
    case IngressAgent => st.ingress
    case LoadBalancerAgent => st.loadBalancer
  }

  /** The prune calls of a device run. */
  predicate Prunes(w: World, a: Agent, kind: Kind, ns: string) {
    a == DeviceAgent
    && ((ns == w.dev.target && (kind == DhcpHosts || kind == DnsHosts))
        || (kind == FreeRadiusDevice && w.dev.radius == Some(ns)))
  }

  function KeptNames(w: World, kind: Kind): set<string> {
    if kind == FreeRadiusDevice then w.dev.devices.Keys else Keep(w.dev)
  }

  /** A run applies each object it wants once, in any order, and prunes after that. */
  ghost predicate IsProgram(w: World, a: Agent, todo: seq<Instr>) {
    && NoDup(todo)
    && (forall k :: Apply(k) in todo <==> OwnerOf(w, k) == a && IsWrite(GoalAt(w, k)))
    && (forall kind, ns :: Prune(kind, ns) in todo <==> Prunes(w, a, kind, ns))
    && PrunesLast(todo)
  }

  ghost predicate PrunesLast(todo: seq<Instr>) {
    forall i, j :: 0 <= i < j < |todo| && todo[i].Prune? ==> todo[j].Prune?
  }

  ghost predicate Lists(w: World, s: Store, kind: Kind, ns: string, queue: seq<Key>) {
    && NoDup(queue)
    && forall k :: k in queue <==> && k in s && k.kind == kind && k.ns == ns && ManagedAs(s[k], AGGREGATE)
                                   && k.name !in KeptNames(w, kind)
  }

  /** One API call, start, or death of reconciler `a`. */
  ghost predicate Moves(w: World, a: Agent, s: Store, t: Task, s': Store, t': Task) {
    || (s' == s && t' == Stopped)
    || ((t.Stopped? || t.todo == []) && s' == s && t'.Task? && t'.pc == Idle && IsProgram(w, a, t'.todo))
    || (t.Task? && t.todo != [] && match t.todo[0]
        case Apply(k) =>
          var goal := GoalAt(w, k);
          (match t.pc
           case Idle =>
             s' == s && if goal.Publish? then WellFormed(s, k) && t' == t.(pc := Planned)
                        else t' == t.(pc := Fetched(Lookup(s, k)))
           case Planned =>
             s' == s && t' == t.(pc := Fetched(Lookup(s, k)))
           case Fetched(seen) =>
             && s' == (if Settle(goal, seen) == seen then s else With(s, k, Settle(goal, seen)))
             && t' == Task(t.todo[1..], Idle)
           case Deleting(_) => false)
        case Prune(kind, ns) =>
          (match t.pc
           case Idle =>
             s' == s && t'.Task? && t'.todo == t.todo && t'.pc.Deleting? && Lists(w, s, kind, ns, t'.pc.queue)
           case Deleting(queue) =>
             if queue == [] then s' == s && t' == Task(t.todo[1..], Idle)
             else queue[0] in s && s' == s - {queue[0]} && t' == t.(pc := Deleting(queue[1..]))
           case _ => false))
  }

  ghost predicate Next(w: World, st: State, st': State) {
    exists a :: NextBy(w, a, st, st')
  }

  ghost predicate NextBy(w: World, a: Agent, st: State, st': State) {
    && Moves(w, a, st.store, TaskOf(st, a), st'.store, TaskOf(st', a))
    && forall b :: b != a ==> TaskOf(st', b) == TaskOf(st, b)
  }

  /** Every managed object carries the aggregate label of the reconciler its name belongs to. */
  ghost predicate LabelsAgree(w: World, s: Store) {
    forall k, a :: k in s && ManagedAs(s[k], AggregateOf(a)) ==> OwnerOf(w, k) == a
  }

  /** An object of another reconciler that the device reconciler would take for a stale one of its own. */
  ghost predicate Mislabelled(w: World, s: Store, k: Key) {
    && k in s && ManagedAs(s[k], AGGREGATE) && OwnerOf(w, k) != DeviceAgent
    && Prunes(w, DeviceAgent, k.kind, k.ns) && k.name !in KeptNames(w, k.kind)
  }

  ghost predicate NoneMislabelled(w: World, s: Store) {
    forall k :: !Mislabelled(w, s, k)
  }

  /** Only the DNS objects of the other two reconcilers can be mislabelled, and unless the device reconciler
      wants something of the same name they are as soon as they carry its labels. */
  lemma MislabelledMeaning(w: World, s: Store)
    ensures NoneMislabelled(w, s) <==>
              forall name :: (name == INGRESS_NAME || name == LOAD_BALANCER_NAME) && name !in Keep(w.dev) ==>
                !ManagedName(s, DnsHosts, w.dev.target, name)
  {
    forall k ensures Mislabelled(w, s, k) <==>
                       && k == Key(DnsHosts, w.dev.target, k.name) && (k.name == INGRESS_NAME || k.name == LOAD_BALANCER_NAME)
                       && k.name !in Keep(w.dev) && ManagedName(s, DnsHosts, w.dev.target, k.name)
    {
    }
    forall name | (name == INGRESS_NAME || name == LOAD_BALANCER_NAME) && name !in Keep(w.dev)
                  && ManagedName(s, DnsHosts, w.dev.target, name)
      ensures Mislabelled(w, s, Key(DnsHosts, w.dev.target, name))
    {
    }
  }

  lemma AgreeingIsNotMislabelled(w: World, s: Store)
    requires LabelsAgree(w, s)
    ensures NoneMislabelled(w, s)
  {
    assert AggregateOf(DeviceAgent) == AGGREGATE;
  }

  /** Whether reconciler task `t` may still have to deal with object `k`. */
  ghost predicate Pending(w: World, t: Task, k: Key) {
    t.Stopped? || Apply(k) in t.todo
    || (GoalAt(w, k).Sweep? &&
        if t.pc.Deleting? && t.todo != [] then k in t.pc.queue || Prune(k.kind, k.ns) in t.todo[1..]
        else Prune(k.kind, k.ns) in t.todo)
  }

  ghost predicate TaskOk(w: World, a: Agent, s: Store, t: Task) {
    t.Task? ==>
      && NoDup(t.todo) && PrunesLast(t.todo)
      && (forall k :: Apply(k) in t.todo ==> OwnerOf(w, k) == a && IsWrite(GoalAt(w, k)))
      && (forall kind, ns :: Prune(kind, ns) in t.todo ==> Prunes(w, a, kind, ns))
      && (t.pc.Fetched? ==> t.todo != [] && t.todo[0].Apply? && t.pc.seen == Lookup(s, t.todo[0].k))
      && (t.pc.Deleting? ==> t.todo != [] && t.todo[0].Prune? && QueueOk(w, s, t.pc.queue))
  }

  /** What is queued for deletion is there, managed, and unwanted. */
  ghost predicate QueueOk(w: World, s: Store, queue: seq<Key>) {
    NoDup(queue) && forall k :: k in queue ==> k in s && GoalAt(w, k) == Sweep(AGGREGATE) && ManagedAs(s[k], AGGREGATE)
  }

  ghost predicate Invariant(w: World, start: Store, st: State) {
    && NoneMislabelled(w, start)
    && Near(GoalsAt(w), start, st.store)
    && (forall a :: TaskOk(w, a, st.store, TaskOf(st, a)))
    && forall k {:trigger OwnerOf(w, k)} :: !Pending(w, TaskOf(st, OwnerOf(w, k)), k) ==>
         Lookup(st.store, k) == Settle(GoalAt(w, k), Lookup(start, k))
  }

  lemma SweptBelongsToDevice(w: World, k: Key)
    requires GoalAt(w, k).Sweep?
    ensures OwnerOf(w, k) == DeviceAgent && GoalAt(w, k) == Sweep(AGGREGATE)
  {
  }

  /** Reconciler `a` moved, changing at most its own object `k`. */
  ghost predicate Touches(w: World, a: Agent, st: State, st': State, k: Key) {
    && OwnerOf(w, k) == a
    && (forall x {:trigger Lookup(st'.store, x)} :: x != k ==> Lookup(st'.store, x) == Lookup(st.store, x))
    && (forall b :: b != a ==> TaskOf(st', b) == TaskOf(st, b))
  }

  lemma OthersUndisturbed(w: World, a: Agent, st: State, st': State, k: Key, b: Agent)
    requires Touches(w, a, st, st', k) && b != a && TaskOk(w, b, st.store, TaskOf(st, b))
    ensures TaskOk(w, b, st'.store, TaskOf(st', b))
  {
    var t := TaskOf(st, b);
    if t.Task? && t.pc.Fetched? {
      assert Apply(t.todo[0].k) in t.todo;
      assert Lookup(st'.store, t.todo[0].k) == Lookup(st.store, t.todo[0].k);
    }
    if t.Task? && t.pc.Deleting? {
      forall x | x in t.pc.queue ensures x in st'.store && st'.store[x] == st.store[x] {
        assert t.todo[0] in t.todo && Prune(t.todo[0].kind, t.todo[0].ns) in t.todo;
        SweptBelongsToDevice(w, x);
        assert Lookup(st'.store, x) == Lookup(st.store, x);
      }
    }
  }

  /** A move keeps the invariant if it does so as far as its own task and object are concerned. */
  lemma Keeps(w: World, start: Store, a: Agent, st: State, st': State, k: Key)
    requires Invariant(w, start, st) && Touches(w, a, st, st', k)
    requires Lookup(st'.store, k) == Lookup(st.store, k) || Lookup(st'.store, k) == Settle(GoalAt(w, k), Lookup(start, k))
    requires TaskOk(w, a, st'.store, TaskOf(st', a))
    requires forall x {:trigger OwnerOf(w, x)} :: OwnerOf(w, x) == a && !Pending(w, TaskOf(st', a), x) ==>
               Lookup(st'.store, x) == Settle(GoalAt(w, x), Lookup(start, x))
    ensures Invariant(w, start, st')
  {
    forall x ensures Lookup(st'.store, x) == Lookup(start, x)
                     || Lookup(st'.store, x) == Settle(GoalsAt(w)(x), Lookup(start, x))
    {
      assert x != k ==> Lookup(st'.store, x) == Lookup(st.store, x);
      assert Lookup(st.store, x) == Lookup(start, x) || Lookup(st.store, x) == Settle(GoalsAt(w)(x), Lookup(start, x));
    }
    forall b ensures TaskOk(w, b, st'.store, TaskOf(st', b)) {
      if b != a {
        OthersUndisturbed(w, a, st, st', k, b);
      }
    }
    forall x {:trigger OwnerOf(w, x)} | !Pending(w, TaskOf(st', OwnerOf(w, x)), x)
      ensures Lookup(st'.store, x) == Settle(GoalAt(w, x), Lookup(start, x))
    {
      if OwnerOf(w, x) != a {
        assert Lookup(st'.store, x) == Lookup(st.store, x);
      }
    }
  }

  /** A key of the right owner to stand for "no object changed". */
  function SomeKey(w: World, a: Agent): (k: Key)
    ensures OwnerOf(w, k) == a
  {
    match a
    case DeviceAgent => Key(DhcpOptions, w.dev.target, "")
    case IngressAgent => Key(DnsHosts, w.dev.target, INGRESS_NAME)
    case LoadBalancerAgent =>
      assert |INGRESS_NAME| != |LOAD_BALANCER_NAME|;
      Key(DnsHosts, w.dev.target, LOAD_BALANCER_NAME)
  }

  /** A move that changes no object keeps the invariant if the task stays in order and leaves nothing
      unsettled behind. */
  lemma KeepsStill(w: World, start: Store, a: Agent, st: State, st': State)
    requires Invariant(w, start, st) && NextBy(w, a, st, st') && st'.store == st.store
    requires TaskOk(w, a, st.store, TaskOf(st', a))
    requires forall x {:trigger OwnerOf(w, x)} ::
               OwnerOf(w, x) == a && !Pending(w, TaskOf(st', a), x) && Pending(w, TaskOf(st, a), x) ==>
               Lookup(st.store, x) == Settle(GoalAt(w, x), Lookup(start, x))
    ensures Invariant(w, start, st')
  {
    Keeps(w, start, a, st, st', SomeKey(w, a));
  }

  lemma BeginKeeps(w: World, start: Store, a: Agent, st: State, st': State)
    requires Invariant(w, start, st) && NextBy(w, a, st, st') && st'.store == st.store
    requires TaskOf(st', a).Task? && TaskOf(st', a).pc == Idle && IsProgram(w, a, TaskOf(st', a).todo)
    ensures Invariant(w, start, st')
  {
    var todo := TaskOf(st', a).todo;
    forall x {:trigger OwnerOf(w, x)} | OwnerOf(w, x) == a && !Pending(w, TaskOf(st', a), x)
      ensures Lookup(st.store, x) == Settle(GoalAt(w, x), Lookup(start, x))
    {
      assert !IsWrite(GoalAt(w, x)) by { assert Apply(x) !in todo; }
      if GoalAt(w, x).Sweep? {
        assert Prunes(w, a, x.kind, x.ns);
      }
      assert Lookup(st.store, x) == Lookup(start, x) || Lookup(st.store, x) == Settle(GoalsAt(w)(x), Lookup(start, x));
    }
    KeepsStill(w, start, a, st, st');
  }

  lemma HeadOnce(todo: seq<Instr>)
    requires NoDup(todo) && todo != []
    ensures NoDup(todo[1..])
    ensures forall x :: x in todo[1..] <==> x in todo && x != todo[0]
  {
    assert todo == [todo[0]] + todo[1..];
    forall x | x in todo[1..] ensures x != todo[0] {
      var i :| 0 <= i < |todo[1..]| && todo[1..][i] == x;
      assert todo[i + 1] == x;
    }
  }

  lemma SettledLabels(w: World, k: Key, cur: Option<Obj>, b: Agent)
    requires IsWrite(GoalAt(w, k)) && ManagedAs(Settle(GoalAt(w, k), cur).value, AggregateOf(b))
    ensures b == OwnerOf(w, k)
  {
    var labels := Settle(GoalAt(w, k), cur).value.labels;
    assert labels[AGGREGATE_KEY] == AggregateOf(OwnerOf(w, k));
    AggregatesDiffer();
  }

  lemma AggregatesDiffer()
    ensures forall a, b :: AggregateOf(a) == AggregateOf(b) ==> a == b
  {
    assert |AGGREGATE| == 12 && |INGRESS_NAME| == 13 && |LOAD_BALANCER_NAME| == 19;
  }

  /** Settling objects keeps labels in agreement with names, and mislabels none. */
  lemma LabelsStay(w: World, s: Store, t: Store)
    requires Near(GoalsAt(w), s, t)
    ensures LabelsAgree(w, s) ==> LabelsAgree(w, t)
    ensures NoneMislabelled(w, s) ==> NoneMislabelled(w, t)
  {
    forall k, a | k in t && ManagedAs(t[k], AggregateOf(a)) && OwnerOf(w, k) != a ensures k in s && ManagedAs(s[k], AggregateOf(a)) {
      assert Lookup(t, k) == Lookup(s, k) || Lookup(t, k) == Settle(GoalsAt(w)(k), Lookup(s, k));
      if IsWrite(GoalAt(w, k)) && Lookup(t, k) != Lookup(s, k) {
        SettledLabels(w, k, Lookup(s, k), a);
      }
    }
    forall k | Mislabelled(w, t, k) ensures Mislabelled(w, s, k) {
      assert AggregateOf(DeviceAgent) == AGGREGATE;
    }
  }

  lemma WriteKeeps(w: World, start: Store, a: Agent, st: State, st': State, k: Key, seen: Option<Obj>, todo: seq<Instr>)
    requires Invariant(w, start, st) && NextBy(w, a, st, st')
    requires TaskOf(st, a) == Task(todo, Fetched(seen)) && todo != [] && todo[0] == Apply(k)
    requires st'.store == With(st.store, k, Settle(GoalAt(w, k), seen)) && TaskOf(st', a) == Task(todo[1..], Idle)
    ensures Invariant(w, start, st')
  {
    var goal := GoalAt(w, k);
    assert Apply(k) in todo;
    HeadOnce(todo);
    assert seen == Lookup(st.store, k);
    assert Lookup(st.store, k) == Lookup(start, k) || Lookup(st.store, k) == Settle(GoalsAt(w)(k), Lookup(start, k));
    SettleIdempotent(goal, Lookup(start, k));
    assert Lookup(st'.store, k) == Settle(goal, Lookup(start, k));
    assert Touches(w, a, st, st', k);
    forall x {:trigger OwnerOf(w, x)} | OwnerOf(w, x) == a && !Pending(w, TaskOf(st', a), x)
      ensures Lookup(st'.store, x) == Settle(GoalAt(w, x), Lookup(start, x))
    {
      if x != k {
        assert Lookup(st'.store, x) == Lookup(st.store, x);
        assert !Pending(w, TaskOf(st, a), x);
      }
    }
    Keeps(w, start, a, st, st', k);
  }

  lemma ListKeeps(w: World, start: Store, a: Agent, st: State, st': State, kind: Kind, ns: string, todo: seq<Instr>, queue: seq<Key>)
    requires Invariant(w, start, st) && NextBy(w, a, st, st') && st'.store == st.store
    requires TaskOf(st, a) == Task(todo, Idle) && todo != [] && todo[0] == Prune(kind, ns)
    requires TaskOf(st', a) == Task(todo, Deleting(queue)) && Lists(w, st.store, kind, ns, queue)
    ensures Invariant(w, start, st')
  {
    assert Prune(kind, ns) in todo;
    HeadOnce(todo);
    LabelsStay(w, start, st.store);
    forall x | x in queue ensures GoalAt(w, x) == Sweep(AGGREGATE) {
      assert !Mislabelled(w, st.store, x);
    }
    forall x {:trigger OwnerOf(w, x)} |
      OwnerOf(w, x) == a && !Pending(w, TaskOf(st', a), x) && Pending(w, TaskOf(st, a), x)
      ensures Lookup(st.store, x) == Settle(GoalAt(w, x), Lookup(start, x))
    {
      SweptBelongsToDevice(w, x);
      assert x.kind == kind && x.ns == ns && x !in queue;
      assert Lookup(st.store, x) == Lookup(start, x) || Lookup(st.store, x) == Settle(GoalsAt(w)(x), Lookup(start, x));
    }
    KeepsStill(w, start, a, st, st');
  }

  lemma DeleteKeeps(w: World, start: Store, a: Agent, st: State, st': State, todo: seq<Instr>, queue: seq<Key>)
    requires Invariant(w, start, st) && NextBy(w, a, st, st') && queue != []
    requires TaskOf(st, a) == Task(todo, Deleting(queue)) && todo != [] && todo[0].Prune?
    requires st'.store == st.store - {queue[0]} && TaskOf(st', a) == Task(todo, Deleting(queue[1..]))
    ensures Invariant(w, start, st')
  {
    var k := queue[0];
    assert Prune(todo[0].kind, todo[0].ns) in todo;
    assert k in queue && queue == [k] + queue[1..];
    SweptBelongsToDevice(w, k);
    assert Lookup(st.store, k) == Lookup(start, k) || Lookup(st.store, k) == Settle(GoalsAt(w)(k), Lookup(start, k));
    forall x | x in queue[1..] ensures x != k && x in queue {
      var i :| 0 <= i < |queue[1..]| && queue[1..][i] == x;
      assert queue[i + 1] == x;
    }
    assert Touches(w, a, st, st', k);
    forall x {:trigger OwnerOf(w, x)} | OwnerOf(w, x) == a && !Pending(w, TaskOf(st', a), x)
      ensures Lookup(st'.store, x) == Settle(GoalAt(w, x), Lookup(start, x))
    {
      if x != k {
        assert Lookup(st'.store, x) == Lookup(st.store, x);
        assert !Pending(w, TaskOf(st, a), x);
      }
    }
    Keeps(w, start, a, st, st', k);
  }

  lemma EndPruneKeeps(w: World, start: Store, a: Agent, st: State, st': State, todo: seq<Instr>)
    requires Invariant(w, start, st) && NextBy(w, a, st, st') && st'.store == st.store
    requires TaskOf(st, a) == Task(todo, Deleting([])) && todo != [] && todo[0].Prune?
    requires TaskOf(st', a) == Task(todo[1..], Idle)
    ensures Invariant(w, start, st')
  {
    HeadOnce(todo);
    KeepsStill(w, start, a, st, st');
  }

  /** Every step keeps the invariant. */
  lemma StepKeeps(w: World, start: Store, st: State, st': State)
    requires Invariant(w, start, st) && Next(w, st, st')
    ensures Invariant(w, start, st')
  {
    var a :| NextBy(w, a, st, st');
    var t, t' := TaskOf(st, a), TaskOf(st', a);
    if st'.store == st.store && t'.Stopped? {
      KeepsStill(w, start, a, st, st');
    } else if st'.store == st.store && (t.Stopped? || t.todo == []) {
      BeginKeeps(w, start, a, st, st');
    } else if t.todo[0].Apply? {
      assert Apply(t.todo[0].k) in t.todo;
      if t.pc.Fetched? {
        WriteKeeps(w, start, a, st, st', t.todo[0].k, t.pc.seen, t.todo);
      } else {
        KeepsStill(w, start, a, st, st');
      }
    } else if t.pc == Idle {
      ListKeeps(w, start, a, st, st', t.todo[0].kind, t.todo[0].ns, t.todo, t'.pc.queue);
    } else if t.pc.queue == [] {
      EndPruneKeeps(w, start, a, st, st', t.todo);
    } else {
      DeleteKeeps(w, start, a, st, st', t.todo, t.pc.queue);
    }
  }

  /** An execution: any reconciler moves at each step. */
  ghost predicate Execution(w: World, states: seq<State>) {
    && states != []
    && states[0].device == states[0].ingress == states[0].loadBalancer == Stopped
    && forall i :: 0 <= i < |states| - 1 ==> Next(w, states[i], states[i + 1])
  }

  lemma {:induction false} ExecutionKeeps(w: World, states: seq<State>)
    requires Execution(w, states) && NoneMislabelled(w, states[0].store)
    ensures Invariant(w, states[0].store, states[|states| - 1])
  {
    if |states| > 1 {
      var front := states[..|states| - 1];
      assert forall i :: 0 <= i < |front| - 1 ==> Next(w, front[i], front[i + 1]);
      ExecutionKeeps(w, front);
      StepKeeps(w, states[0].store, states[|states| - 2], states[|states| - 1]);
    }
  }

  /** All three reconcilers have finished their last run. */
  predicate Complete(st: State) {
    && st.device.Task? && st.device.todo == []
    && st.ingress.Task? && st.ingress.todo == []
    && st.loadBalancer.Task? && st.loadBalancer.todo == []
  }

  /** Non-interference and crash absorption together: whatever the schedule, however often reconcilers die
      and start over, once all have finished the store is the one settled store. */
  lemma InterleavingConverges(w: World, states: seq<State>)
    requires Execution(w, states) && Complete(states[|states| - 1]) && NoneMislabelled(w, states[0].store)
    ensures Settled(GoalsAt(w), states[0].store, states[|states| - 1].store)
  {
    var start, last := states[0].store, states[|states| - 1];
    ExecutionKeeps(w, states);
    forall k ensures Lookup(last.store, k) == Settle(GoalsAt(w)(k), Lookup(start, k)) {
      assert TaskOf(last, OwnerOf(w, k)).todo == [];
      assert !Pending(w, TaskOf(last, OwnerOf(w, k)), k) by {
        assert last.device.pc.Deleting? ==> TaskOk(w, DeviceAgent, last.store, TaskOf(last, DeviceAgent));
      }
    }
  }

  /** So any two schedules, sequential ones in either order among them, end in the same store. */
  lemma SchedulesAgree(w: World, a: seq<State>, b: seq<State>)
    requires Execution(w, a) && Complete(a[|a| - 1]) && Execution(w, b) && Complete(b[|b| - 1])
    requires a[0].store == b[0].store && NoneMislabelled(w, a[0].store)
    ensures a[|a| - 1].store == b[|b| - 1].store
  {
    InterleavingConverges(w, a);
    InterleavingConverges(w, b);
    SettledUnique(GoalsAt(w), a[0].store, a[|a| - 1].store, b[|b| - 1].store);
  }

  /** At every point of every schedule labels agree with names if they did at the start. */
  lemma LabelsAgreeThroughout(w: World, states: seq<State>)
    requires Execution(w, states) && LabelsAgree(w, states[0].store)
    ensures LabelsAgree(w, states[|states| - 1].store)
  {
    AgreeingIsNotMislabelled(w, states[0].store);
    ExecutionKeeps(w, states);
    LabelsStay(w, states[0].store, states[|states| - 1].store);
  }

  /** No gap, in every interleaving: whatever a step removes is managed, swept, and the device
      reconciler's; and by then that run has every object it wants in place. */
  lemma NoGapInterleaved(w: World, states: seq<State>, st': State, k: Key)
    requires Execution(w, states) && Next(w, states[|states| - 1], st') && NoneMislabelled(w, states[0].store)
    requires k in states[|states| - 1].store && k !in st'.store
    ensures OwnerOf(w, k) == DeviceAgent && GoalAt(w, k) == Sweep(AGGREGATE)
    ensures ManagedAs(states[|states| - 1].store[k], AGGREGATE)
    ensures forall x :: OwnerOf(w, x) == DeviceAgent && IsWrite(GoalAt(w, x)) ==>
                          Lookup(st'.store, x) == Settle(GoalAt(w, x), Lookup(states[0].store, x))
  {
    var st := states[|states| - 1];
    ExecutionKeeps(w, states);
    var a :| NextBy(w, a, st, st');
    var t := TaskOf(st, a);
    assert t.Task? && t.todo != [] && TaskOk(w, a, st.store, t);
    assert t.todo[0] in t.todo;
    if t.todo[0].Prune? {
      assert k in t.pc.queue;
      assert Prune(t.todo[0].kind, t.todo[0].ns) in t.todo;
      SweptBelongsToDevice(w, k);
      forall x | OwnerOf(w, x) == DeviceAgent && IsWrite(GoalAt(w, x))
        ensures Lookup(st'.store, x) == Settle(GoalAt(w, x), Lookup(states[0].store, x))
      {
        assert !Pending(w, t, x);
      }
    }
  }
}

/** When the schedule of the three reconcilers matters: schedules built step by step on the machine. */
module Schedules {
  import opened Kube
  import opened Dnsmasq
  import opened Homelab
  import opened Goals
  import opened Interleaving
  import DeviceController
  import DeviceRuns

  /** Some moves lead from `st` to `st'`. */
  ghost predicate Leads(w: World, st: State, st': State) {
    exists path :: Path(w, path) && path[0] == st && path[|path| - 1] == st'
  }

  ghost predicate Path(w: World, path: seq<State>) {
    path != [] && forall i :: 0 <= i < |path| - 1 ==> Next(w, path[i], path[i + 1])
  }

  lemma LeadsOn(w: World, a: State, b: State, c: State)
    requires Leads(w, a, b) && Leads(w, b, c)
    ensures Leads(w, a, c)
  {
    var p :| Path(w, p) && p[0] == a && p[|p| - 1] == b;
    var q :| Path(w, q) && q[0] == b && q[|q| - 1] == c;
    var r := p + q[1..];
    forall i | 0 <= i < |r| - 1 ensures Next(w, r[i], r[i + 1]) {
      if i < |p| - 1 {
        assert Next(w, p[i], p[i + 1]);
      } else {
        assert Next(w, q[i - |p| + 1], q[i - |p| + 2]);
      }
    }
    assert Path(w, r) && r[0] == a && r[|r| - 1] == c;
  }

  /** The state after reconciler `a` moved. */
  function Put(st: State, a: Agent, s: Store, t: Task): State {
    match a
    case DeviceAgent => st.(store := s, device := t)
    case IngressAgent => st.(store := s, ingress := t)
    case LoadBalancerAgent => st.(store := s, loadBalancer := t)
  }

  lemma OneMove(w: World, a: Agent, st: State, s: Store, t: Task)
    requires Moves(w, a, st.store, TaskOf(st, a), s, t)
    ensures Leads(w, st, Put(st, a, s, t))
  {
    var st' := Put(st, a, s, t);
    assert NextBy(w, a, st, st');
    var path := [st, st'];
    assert Path(w, path) && path[0] == st && path[|path| - 1] == st';
  }

  /** Every spec that is going to be compared can be. */
  ghost predicate AllComparable(w: World, s: Store) {
    forall k :: GoalAt(w, k).Publish? ==> WellFormed(s, k)
  }

  function Settling(w: World, s: Store, k: Key): Store {
    With(s, k, Settle(GoalAt(w, k), Lookup(s, k)))
  }

  lemma WriteOne(w: World, a: Agent, st: State, k: Key, rest: seq<Instr>)
    requires TaskOf(st, a) == Task([Apply(k)] + rest, Fetched(Lookup(st.store, k)))
    requires IsWrite(GoalAt(w, k)) && AllComparable(w, st.store)
    ensures Leads(w, st, Put(st, a, Settling(w, st.store, k), Task(rest, Idle)))
  {
    var seen, todo := Lookup(st.store, k), [Apply(k)] + rest;
    assert todo[0] == Apply(k) && todo[1..] == rest;
    assert Settle(GoalAt(w, k), seen) == seen ==> Settling(w, st.store, k) == st.store;
    OneMove(w, a, st, Settling(w, st.store, k), Task(rest, Idle));
  }

  lemma ApplyOne(w: World, a: Agent, st: State, k: Key, rest: seq<Instr>)
    requires TaskOf(st, a) == Task([Apply(k)] + rest, Idle) && IsWrite(GoalAt(w, k)) && AllComparable(w, st.store)
    ensures Leads(w, st, Put(st, a, Settling(w, st.store, k), Task(rest, Idle)))
  {
    var s, todo, seen := st.store, [Apply(k)] + rest, Lookup(st.store, k);
    assert todo[0] == Apply(k) && todo[1..] == rest;
    var fetched := Put(st, a, s, Task(todo, Fetched(seen)));
    if GoalAt(w, k).Publish? {
      var planned := Put(st, a, s, Task(todo, Planned));
      OneMove(w, a, st, s, Task(todo, Planned));
      OneMove(w, a, planned, s, Task(todo, Fetched(seen)));
      LeadsOn(w, st, planned, fetched);
    } else {
      OneMove(w, a, st, s, Task(todo, Fetched(seen)));
    }
    WriteOne(w, a, fetched, k, rest);
    LeadsOn(w, st, fetched, Put(st, a, Settling(w, s, k), Task(rest, Idle)));
  }

  function Applies(keys: seq<Key>): (r: seq<Instr>)
    ensures |r| == |keys| && forall i :: 0 <= i < |keys| ==> r[i] == Apply(keys[i])
  {
    seq(|keys|, i requires 0 <= i < |keys| => Apply(keys[i]))
  }

  lemma SettlingKeeps(w: World, s: Store, k: Key)
    requires IsWrite(GoalAt(w, k))
    ensures k in Settling(w, s, k) && forall x :: x != k ==> Lookup(Settling(w, s, k), x) == Lookup(s, x)
    ensures AllComparable(w, s) ==> AllComparable(w, Settling(w, s, k))
  {
  }

  function Written(w: World, s: Store, keys: seq<Key>): Store
    decreases |keys|
  {
    if keys == [] then s else Written(w, Settling(w, s, keys[0]), keys[1..])
  }

  lemma {:induction false} WrittenMeaning(w: World, s: Store, keys: seq<Key>)
    requires forall k :: k in keys ==> IsWrite(GoalAt(w, k))
    ensures forall k :: k !in keys ==> Lookup(Written(w, s, keys), k) == Lookup(s, k)
    ensures forall k :: k in s || k in keys ==> k in Written(w, s, keys)
    ensures AllComparable(w, s) ==> AllComparable(w, Written(w, s, keys))
    decreases |keys|
  {
    if keys != [] {
      assert keys[0] in keys && keys == [keys[0]] + keys[1..];
      SettlingKeeps(w, s, keys[0]);
      WrittenMeaning(w, Settling(w, s, keys[0]), keys[1..]);
    }
  }

  lemma {:induction false} ApplyAll(w: World, a: Agent, st: State, keys: seq<Key>, rest: seq<Instr>)
    requires TaskOf(st, a) == Task(Applies(keys) + rest, Idle) && AllComparable(w, st.store)
    requires forall k :: k in keys ==> IsWrite(GoalAt(w, k))
    ensures Leads(w, st, Put(st, a, Written(w, st.store, keys), Task(rest, Idle)))
    decreases |keys|
  {
    if keys == [] {
      assert Applies(keys) + rest == rest;
      OneState(w, st);
      assert Put(st, a, st.store, Task(rest, Idle)) == st;
    } else {
      var k, more := keys[0], Applies(keys[1..]) + rest;
      assert keys[0] in keys;
      assert Applies(keys) + rest == [Apply(k)] + more;
      ApplyOne(w, a, st, k, more);
      var next := Put(st, a, Settling(w, st.store, k), Task(more, Idle));
      SettlingKeeps(w, st.store, k);
      ApplyAll(w, a, next, keys[1..], rest);
      LeadsOn(w, st, next, Put(st, a, Written(w, st.store, keys), Task(rest, Idle)));
    }
  }

  lemma OneState(w: World, st: State)
    ensures Leads(w, st, st)
  {
    assert Path(w, [st]) && [st][0] == st;
  }

  lemma {:induction false} InSomeOrder<T>(s: set<T>) returns (q: seq<T>)
    ensures NoDup(q) && forall x :: x in q <==> x in s
    decreases s
  {
    q := [];
    if s != {} {
      var x :| x in s;
      q := InSomeOrder(s - {x});
      q := q + [x];
    }
  }

  lemma QueueShrinks(queue: seq<Key>)
    requires NoDup(queue) && queue != []
    ensures NoDup(queue[1..]) && forall x :: x in queue[1..] <==> x in queue && x != queue[0]
  {
    assert queue == [queue[0]] + queue[1..];
    forall x | x in queue[1..] ensures x != queue[0] {
      var i :| 0 <= i < |queue[1..]| && queue[1..][i] == x;
      assert queue[i + 1] == x;
    }
  }

  /** Deleting the queued objects one by one. */
  lemma {:induction false} DeleteAll(w: World, st: State, todo: seq<Instr>, queue: seq<Key>) returns (s: Store)
    requires st.device == Task(todo, Deleting(queue)) && todo != [] && todo[0].Prune?
    requires NoDup(queue) && forall k :: k in queue ==> k in st.store
    ensures Leads(w, st, Put(st, DeviceAgent, s, Task(todo, Deleting([]))))
    ensures forall k :: Lookup(s, k) == if k in queue then None else Lookup(st.store, k)
    decreases |queue|
  {
    s := st.store;
    if queue == [] {
      OneState(w, st);
    } else {
      assert queue[0] in queue;
      QueueShrinks(queue);
      var next := Put(st, DeviceAgent, st.store - {queue[0]}, Task(todo, Deleting(queue[1..])));
      OneMove(w, DeviceAgent, st, next.store, next.device);
      s := DeleteAll(w, next, todo, queue[1..]);
      LeadsOn(w, st, next, Put(st, DeviceAgent, s, Task(todo, Deleting([]))));
    }
  }

  /** `t` is `s` with some objects removed. */
  ghost predicate Shrunk(s: Store, t: Store) {
    forall k {:trigger Lookup(t, k)} :: Lookup(t, k) == Lookup(s, k) || Lookup(t, k) == None
  }

  lemma ListedQueue(w: World, s: Store, kind: Kind, ns: string) returns (queue: seq<Key>)
    ensures Lists(w, s, kind, ns, queue)
  {
    queue := InSomeOrder(set k | k in s && k.kind == kind && k.ns == ns && ManagedAs(s[k], AGGREGATE)
                               && k.name !in KeptNames(w, kind));
  }

  lemma PruneOne(w: World, st: State, kind: Kind, ns: string, rest: seq<Instr>) returns (s: Store)
    requires st.device == Task([Prune(kind, ns)] + rest, Idle)
    ensures Leads(w, st, Put(st, DeviceAgent, s, Task(rest, Idle))) && Shrunk(st.store, s)
    ensures forall k: Key :: k.kind != kind ==> Lookup(s, k) == Lookup(st.store, k)
  {
    var todo := [Prune(kind, ns)] + rest;
    assert todo[0] == Prune(kind, ns) && todo[1..] == rest;
    var queue := ListedQueue(w, st.store, kind, ns);
    var listed := Put(st, DeviceAgent, st.store, Task(todo, Deleting(queue)));
    OneMove(w, DeviceAgent, st, st.store, Task(todo, Deleting(queue)));
    s := DeleteAll(w, listed, todo, queue);
    var emptied := Put(st, DeviceAgent, s, Task(todo, Deleting([])));
    OneMove(w, DeviceAgent, emptied, s, Task(rest, Idle));
    LeadsOn(w, st, listed, emptied);
    LeadsOn(w, st, emptied, Put(st, DeviceAgent, s, Task(rest, Idle)));
  }

  lemma {:induction false} PruneAll(w: World, st: State, prunes: seq<Instr>) returns (s: Store)
    requires st.device == Task(prunes, Idle) && forall p :: p in prunes ==> p.Prune?
    ensures Leads(w, st, Put(st, DeviceAgent, s, Task([], Idle))) && Shrunk(st.store, s)
    decreases |prunes|
  {
    s := st.store;
    if prunes == [] {
      OneState(w, st);
    } else {
      var p := prunes[0];
      assert p in prunes && prunes == [p] + prunes[1..];
      var s1 := PruneOne(w, st, p.kind, p.ns, prunes[1..]);
      var next := Put(st, DeviceAgent, s1, Task(prunes[1..], Idle));
      s := PruneAll(w, next, prunes[1..]);
      LeadsOn(w, st, next, Put(st, DeviceAgent, s, Task([], Idle)));
    }
  }

  /** The prunes of the device reconciler, in its order. */
  function DevicePrunes(w: World): seq<Instr> {
    [Prune(DhcpHosts, w.dev.target)] + DnsPrunes(w)
  }

  lemma OnlyPrunes(w: World)
    ensures forall p :: p in DevicePrunes(w) ==> p.Prune?
    ensures forall p :: p in DnsPrunes(w)[1..] ==> p.Prune?
  {
  }

  /** Those from DnsHosts on. */
  function DnsPrunes(w: World): seq<Instr> {
    [Prune(DnsHosts, w.dev.target)] + RadiusPrunes(w)
  }

  function RadiusPrunes(w: World): seq<Instr> {
    if w.dev.radius.Some? then [Prune(FreeRadiusDevice, w.dev.radius.value)] else []
  }

  /** The objects reconciler `a` applies, in some order. */
  lemma KeysOf(w: World, a: Agent) returns (keys: seq<Key>)
    ensures NoDup(keys) && forall k :: k in keys <==> OwnerOf(w, k) == a && IsWrite(GoalAt(w, k))
  {
    var others := {Key(DnsHosts, w.dev.target, INGRESS_NAME), Key(ConfigMap, w.dev.target, INGRESS_ANCHOR),
                   Key(DnsHosts, w.dev.target, LOAD_BALANCER_NAME), Key(ConfigMap, w.dev.target, LOAD_BALANCER_ANCHOR)};
    var all := WriteKeys(w.dev) + others;
    forall k | IsWrite(GoalAt(w, k)) ensures k in all {
      WriteKeysExact(w.dev, k);
    }
    keys := InSomeOrder(set k | k in all && OwnerOf(w, k) == a && IsWrite(GoalAt(w, k)));
  }

  /** Every reconciler has a program, with its prunes in its order. */
  lemma ProgramExists(w: World, a: Agent) returns (keys: seq<Key>)
    ensures forall k :: k in keys <==> OwnerOf(w, k) == a && IsWrite(GoalAt(w, k))
    ensures IsProgram(w, a, Applies(keys) + if a.DeviceAgent? then DevicePrunes(w) else [])
  {
    keys := KeysOf(w, a);
    var applies, prunes := Applies(keys), if a.DeviceAgent? then DevicePrunes(w) else [];
    forall k ensures Apply(k) in applies <==> k in keys {
      if k in keys {
        var i :| 0 <= i < |keys| && keys[i] == k;
        assert applies[i] == Apply(k);
      }
    }
    forall kind, ns ensures Prune(kind, ns) in prunes <==> Prunes(w, a, kind, ns) {
      if Prunes(w, a, kind, ns) {
        assert prunes[0] in prunes && prunes[1] in prunes;
        assert w.dev.radius.Some? ==> prunes[2] in prunes;
      }
    }
    ProgramParts(w, a, keys, prunes);
  }

  lemma ProgramParts(w: World, a: Agent, keys: seq<Key>, prunes: seq<Instr>)
    requires NoDup(keys) && NoDup(prunes) && forall p :: p in prunes ==> p.Prune?
    requires forall k :: Apply(k) in Applies(keys) <==> OwnerOf(w, k) == a && IsWrite(GoalAt(w, k))
    requires forall kind, ns :: Prune(kind, ns) in prunes <==> Prunes(w, a, kind, ns)
    ensures IsProgram(w, a, Applies(keys) + prunes)
  {
    var applies, todo := Applies(keys), Applies(keys) + prunes;
    assert forall x :: x in todo <==> x in applies || x in prunes;
    assert forall x :: x in applies ==> x.Apply?;
    forall i, j | 0 <= i < j < |todo| ensures todo[i] != todo[j] && (todo[i].Prune? ==> todo[j].Prune?) {
      assert i < |applies| ==> todo[i] == applies[i];
      assert i >= |applies| ==> todo[i] in prunes;
      assert j >= |applies| ==> todo[j] in prunes;
    }
  }

  /** One reconciler running undisturbed from start to end: the device reconciler, */
  lemma RunDevice(w: World, st: State) returns (s: Store)
    requires st.device.Stopped? && AllComparable(w, st.store)
    ensures Leads(w, st, Put(st, DeviceAgent, s, Task([], Idle))) && AllComparable(w, s)
  {
    var keys := ProgramExists(w, DeviceAgent);
    Begin(w, DeviceAgent, st, keys, DevicePrunes(w));
    WrittenMeaning(w, st.store, keys);
    var written := Put(st, DeviceAgent, Written(w, st.store, keys), Task(DevicePrunes(w), Idle));
    OnlyPrunes(w);
    s := PruneAll(w, written, DevicePrunes(w));
    LeadsOn(w, st, written, Put(written, DeviceAgent, s, Task([], Idle)));
    ShrunkComparable(w, written.store, s);
  }

  lemma ShrunkComparable(w: World, s: Store, t: Store)
    requires AllComparable(w, s) && Shrunk(s, t)
    ensures AllComparable(w, t)
  {
    forall k | GoalAt(w, k).Publish? ensures WellFormed(t, k) {
      assert Lookup(t, k) == Lookup(s, k) || Lookup(t, k) == None;
    }
  }

  /** or another one, which removes nothing. */
  lemma RunOther(w: World, a: Agent, st: State) returns (s: Store)
    requires !a.DeviceAgent? && TaskOf(st, a).Stopped? && AllComparable(w, st.store)
    ensures Leads(w, st, Put(st, a, s, Task([], Idle))) && AllComparable(w, s)
    ensures forall k :: k in st.store || (OwnerOf(w, k) == a && IsWrite(GoalAt(w, k))) ==> k in s
  {
    var keys := ProgramExists(w, a);
    s := Written(w, st.store, keys);
    Begin(w, a, st, keys, []);
    WrittenMeaning(w, st.store, keys);
  }

  /** A reconciler starting and applying its objects. */
  lemma Begin(w: World, a: Agent, st: State, keys: seq<Key>, prunes: seq<Instr>)
    requires TaskOf(st, a).Stopped? && AllComparable(w, st.store) && IsProgram(w, a, Applies(keys) + prunes)
    requires forall k :: k in keys ==> IsWrite(GoalAt(w, k))
    ensures Leads(w, st, Put(st, a, Written(w, st.store, keys), Task(prunes, Idle)))
  {
    var begun := Put(st, a, st.store, Task(Applies(keys) + prunes, Idle));
    OneMove(w, a, st, st.store, Task(Applies(keys) + prunes, Idle));
    ApplyAll(w, a, begun, keys, prunes);
    LeadsOn(w, st, begun, Put(st, a, Written(w, st.store, keys), Task(prunes, Idle)));
  }

  /** Two schedules: an execution from `s` in which all three reconcilers finish. */
  ghost predicate Finishes(w: World, s: Store, states: seq<State>) {
    Execution(w, states) && states[0].store == s && Complete(states[|states| - 1])
  }

  function Idling(s: Store): State {
    State(s, Stopped, Stopped, Stopped)
  }

  lemma FinishingPath(w: World, s: Store, end: State) returns (states: seq<State>)
    requires Leads(w, Idling(s), end) && Complete(end)
    ensures Finishes(w, s, states) && states[|states| - 1] == end
  {
    states :| Path(w, states) && states[0] == Idling(s) && states[|states| - 1] == end;
  }

  /** The other two reconcilers run, whatever the device reconciler is in the middle of: every object of
      theirs is there in the end. */
  lemma OthersRun(w: World, st: State) returns (s: Store)
    requires st.ingress.Stopped? && st.loadBalancer.Stopped? && AllComparable(w, st.store)
    ensures Leads(w, st, State(s, st.device, Task([], Idle), Task([], Idle))) && AllComparable(w, s)
    ensures forall k :: k in st.store || (OwnerOf(w, k) != DeviceAgent && IsWrite(GoalAt(w, k))) ==> k in s
  {
    var s1 := RunOther(w, IngressAgent, st);
    var mid := Put(st, IngressAgent, s1, Task([], Idle));
    s := RunOther(w, LoadBalancerAgent, mid);
    LeadsOn(w, st, mid, Put(mid, LoadBalancerAgent, s, Task([], Idle)));
  }

  lemma ForeignIsWanted(w: World, k: Key)
    requires OwnerOf(w, k) != DeviceAgent
    ensures IsWrite(GoalAt(w, k))
  {
  }

  /** The device reconciler first, then the others: their objects are there. */
  lemma DeviceFirst(w: World, s: Store, k: Key) returns (states: seq<State>)
    requires AllComparable(w, s) && OwnerOf(w, k) != DeviceAgent
    ensures Finishes(w, s, states) && k in states[|states| - 1].store
  {
    ForeignIsWanted(w, k);
    var s1 := RunDevice(w, Idling(s));
    var mid := Put(Idling(s), DeviceAgent, s1, Task([], Idle));
    var s2 := OthersRun(w, mid);
    LeadsOn(w, Idling(s), mid, State(s2, Task([], Idle), Task([], Idle), Task([], Idle)));
    states := FinishingPath(w, s, State(s2, Task([], Idle), Task([], Idle), Task([], Idle)));
  }

  /** The device reconciler applies its objects, in whatever order `keys`, and prunes DhcpHosts. */
  lemma UpToDnsHosts(w: World, s: Store, keys: seq<Key>, k: Key) returns (s2: Store)
    requires AllComparable(w, s) && Mislabelled(w, s, k)
    requires IsProgram(w, DeviceAgent, Applies(keys) + DevicePrunes(w))
    requires forall x :: x in keys <==> OwnerOf(w, x) == DeviceAgent && IsWrite(GoalAt(w, x))
    ensures Leads(w, Idling(s), State(s2, Task(DnsPrunes(w), Idle), Stopped, Stopped))
    ensures AllComparable(w, s2) && Mislabelled(w, s2, k)
  {
    var s1 := Written(w, s, keys);
    Begin(w, DeviceAgent, Idling(s), keys, DevicePrunes(w));
    WrittenMeaning(w, s, keys);
    var applied := State(s1, Task(DevicePrunes(w), Idle), Stopped, Stopped);
    s2 := PruneOne(w, applied, DhcpHosts, w.dev.target, DnsPrunes(w));
    LeadsOn(w, Idling(s), applied, State(s2, Task(DnsPrunes(w), Idle), Stopped, Stopped));
    ShrunkComparable(w, s1, s2);
    MislabelledIsForeign(w, s, k);
    assert Lookup(s2, k) == Lookup(s1, k) == Lookup(s, k);
    StillMislabelled(w, s, s2, k);
  }

  lemma MislabelledIsForeign(w: World, s: Store, k: Key)
    requires Mislabelled(w, s, k)
    ensures OwnerOf(w, k) != DeviceAgent && k.kind == DnsHosts && k.ns == w.dev.target
  {
  }

  lemma StillMislabelled(w: World, s: Store, t: Store, k: Key)
    requires Mislabelled(w, s, k) && Lookup(t, k) == Lookup(s, k)
    ensures Mislabelled(w, t, k)
  {
  }

  /** Then it lists DnsHosts; then the others run; then it deletes what it had listed. */
  lemma StaleList(w: World, s: Store, keys: seq<Key>, k: Key) returns (states: seq<State>)
    requires AllComparable(w, s) && Mislabelled(w, s, k)
    requires IsProgram(w, DeviceAgent, Applies(keys) + DevicePrunes(w))
    requires forall x :: x in keys <==> OwnerOf(w, x) == DeviceAgent && IsWrite(GoalAt(w, x))
    ensures Finishes(w, s, states) && k !in states[|states| - 1].store
  {
    var start, prunes := Idling(s), DnsPrunes(w);
    var s1 := UpToDnsHosts(w, s, keys, k);
    var pruning := State(s1, Task(prunes, Idle), Stopped, Stopped);
    var queue := ListedQueue(w, s1, DnsHosts, w.dev.target);
    var listed := State(s1, Task(prunes, Deleting(queue)), Stopped, Stopped);
    OneMove(w, DeviceAgent, pruning, s1, Task(prunes, Deleting(queue)));
    LeadsOn(w, start, pruning, listed);
    states := StaleDeletion(w, s, listed, prunes, queue, k);
  }

  lemma StaleDeletion(w: World, s: Store, listed: State, prunes: seq<Instr>, queue: seq<Key>, k: Key)
    returns (states: seq<State>)
    requires Leads(w, Idling(s), listed) && AllComparable(w, listed.store)
    requires listed == State(listed.store, Task(prunes, Deleting(queue)), Stopped, Stopped) && prunes == DnsPrunes(w)
    requires NoDup(queue) && k in queue && forall x :: x in queue ==> x in listed.store
    ensures Finishes(w, s, states) && k !in states[|states| - 1].store
  {
    var s2 := OthersRun(w, listed);
    var others := State(s2, Task(prunes, Deleting(queue)), Task([], Idle), Task([], Idle));
    LeadsOn(w, Idling(s), listed, others);
    states := DeletionEnds(w, s, others, prunes, queue, k);
  }

  lemma DeletionEnds(w: World, s: Store, st: State, prunes: seq<Instr>, queue: seq<Key>, k: Key) returns (states: seq<State>)
    requires Leads(w, Idling(s), st) && st.device == Task(prunes, Deleting(queue)) && prunes == DnsPrunes(w)
    requires st.ingress == st.loadBalancer == Task([], Idle)
    requires NoDup(queue) && k in queue && forall x :: x in queue ==> x in st.store
    ensures Finishes(w, s, states) && k !in states[|states| - 1].store
  {
    var s1 := DeleteAll(w, st, prunes, queue);
    var emptied := Put(st, DeviceAgent, s1, Task(prunes, Deleting([])));
    LeadsOn(w, Idling(s), st, emptied);
    var pruned := Put(st, DeviceAgent, s1, Task(prunes[1..], Idle));
    OneMove(w, DeviceAgent, emptied, s1, Task(prunes[1..], Idle));
    LeadsOn(w, Idling(s), emptied, pruned);
    var s2 := PruneAll(w, pruned, prunes[1..]);
    LeadsOn(w, Idling(s), pruned, Put(pruned, DeviceAgent, s2, Task([], Idle)));
    assert Lookup(s1, k) == None && Lookup(s2, k) == None;
    states := FinishingPath(w, s, Put(pruned, DeviceAgent, s2, Task([], Idle)));
  }

  /** Some schedule from `s` ends in `t`. */
  ghost predicate EndsIn(w: World, s: Store, t: Store) {
    exists states: seq<State> :: Finishes(w, s, states) && states[|states| - 1].store == t
  }

  /** All schedules from `s` end in one store. */
  ghost predicate SchedulesAgreeFrom(w: World, s: Store) {
    forall t, u :: EndsIn(w, s, t) && EndsIn(w, s, u) ==> t == u
  }

  /** A mislabelled object makes the outcome depend on the schedule, and in the worst case is missing once all
      reconcilers have finished although one of them wants it. */
  lemma MislabelledInterferes(w: World, s: Store, k: Key) returns (lost: seq<State>, kept: seq<State>)
    requires AllComparable(w, s) && Mislabelled(w, s, k)
    ensures IsWrite(GoalAt(w, k))
    ensures Finishes(w, s, lost) && k !in lost[|lost| - 1].store
    ensures Finishes(w, s, kept) && k in kept[|kept| - 1].store
  {
    ForeignIsWanted(w, k);
    var keys := ProgramExists(w, DeviceAgent);
    lost := StaleList(w, s, keys, k);
    kept := DeviceFirst(w, s, k);
  }

  lemma CleanSchedulesAgree(w: World, s: Store)
    requires NoneMislabelled(w, s)
    ensures SchedulesAgreeFrom(w, s)
  {
    forall t, u | EndsIn(w, s, t) && EndsIn(w, s, u) ensures t == u {
      CleanEndsAgree(w, s, t, u);
    }
  }

  lemma CleanEndsAgree(w: World, s: Store, t: Store, u: Store)
    requires NoneMislabelled(w, s) && EndsIn(w, s, t) && EndsIn(w, s, u)
    ensures t == u
  {
    var a: seq<State> :| Finishes(w, s, a) && a[|a| - 1].store == t;
    var b: seq<State> :| Finishes(w, s, b) && b[|b| - 1].store == u;
    SchedulesAgree(w, a, b);
  }

  lemma MislabelledEnds(w: World, s: Store, k: Key) returns (lost: Store, kept: Store)
    requires AllComparable(w, s) && Mislabelled(w, s, k)
    ensures EndsIn(w, s, lost) && EndsIn(w, s, kept) && k !in lost && k in kept
  {
    var a, b := MislabelledInterferes(w, s, k);
    lost, kept := a[|a| - 1].store, b[|b| - 1].store;
  }

  /** The exact condition: all schedules from a store agree if and only if nothing in it is mislabelled. */
  lemma SchedulesAgreeIff(w: World, s: Store)
    requires AllComparable(w, s)
    ensures SchedulesAgreeFrom(w, s) <==> NoneMislabelled(w, s)
  {
    if NoneMislabelled(w, s) {
      CleanSchedulesAgree(w, s);
    } else {
      var k :| Mislabelled(w, s, k);
      var lost, kept := MislabelledEnds(w, s, k);
    }
  }

  lemma ForeignLabels(lib: Lib, cfg: Config, devices: seq<Device>, networks: seq<Network>, w: World, s: Store)
    requires DeviceController.InputsFor(lib, cfg, devices, networks, w.dev)
    ensures NoneMislabelled(w, s) <==>
              !ManagedName(s, DnsHosts, w.dev.target, INGRESS_NAME)
              && !ManagedName(s, DnsHosts, w.dev.target, LOAD_BALANCER_NAME)
  {
    DeviceRuns.KeptNamesApart(lib, cfg, devices, networks, w);
    MislabelledMeaning(w, s);
  }

  /** For what devices and networks amount to: all schedules agree if and only if neither the ingress-based nor
      the load-balancer-based DNS object carries the device-based labels. */
  lemma ForeignLabelsDecide(lib: Lib, cfg: Config, devices: seq<Device>, networks: seq<Network>, w: World, s: Store)
    requires DeviceController.InputsFor(lib, cfg, devices, networks, w.dev) && AllComparable(w, s)
    ensures SchedulesAgreeFrom(w, s) <==>
              !ManagedName(s, DnsHosts, w.dev.target, INGRESS_NAME)
              && !ManagedName(s, DnsHosts, w.dev.target, LOAD_BALANCER_NAME)
  {
    SchedulesAgreeIff(w, s);
    ForeignLabels(lib, cfg, devices, networks, w, s);
  }
}

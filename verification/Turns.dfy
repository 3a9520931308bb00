/** Whole runs of the three reconcilers taking turns on one store. */
module Turns {
  import opened Kube
  import opened Goals
  import opened Interleaving
  import opened AggregateControllers
  import opened Dnsmasq
  import opened Homelab
  import DeviceController
  import DeviceRuns

  function TreeOf(w: World, a: Agent): Tree
    requires !a.DeviceAgent?
  {
    if a.IngressAgent? then w.ingress else w.loadBalancer
  }

  /** What a complete run of each reconciler settles, as their methods promise. */
  function AgentGoals(w: World, a: Agent): Key -> Goal {
    if a.DeviceAgent? then GoalsOf(w.dev) else SoloGoals(a, w.dev.target, Some(TreeOf(w, a)))
  }

  /** The device reconciler writes nothing under the names of the other two. */
  ghost predicate KeepsToItsOwn(w: World) {
    forall k {:trigger OwnerOf(w, k)} :: IsWrite(GoalOf(w.dev, k)) ==> OwnerOf(w, k) == DeviceAgent
  }

  /** Whatever the devices and networks are called. */
  lemma DeviceRunsKeepToTheirOwn(lib: Lib, cfg: Config, devices: seq<Device>, networks: seq<Network>, w: World)
    requires DeviceController.InputsFor(lib, cfg, devices, networks, w.dev)
    ensures KeepsToItsOwn(w)
  {
    forall k {:trigger OwnerOf(w, k)} | IsWrite(GoalOf(w.dev, k)) ensures OwnerOf(w, k) == DeviceAgent {
      DeviceRuns.WritesAreItsOwn(lib, cfg, devices, networks, w, k);
    }
  }

  lemma SoloIsItsShare(w: World, a: Agent, k: Key)
    requires !a.DeviceAgent?
    ensures AgentGoals(w, a)(k) == if OwnerOf(w, k) == a then GoalAt(w, k) else Leave
  {
    assert |INGRESS_NAME| == 13 && |LOAD_BALANCER_NAME| == 19;
    assert INGRESS_ANCHOR[24] == 'i' && LOAD_BALANCER_ANCHOR[24] == 'l';
  }

  /** One object through one run: settled if it is the reconciler's, left alone if it is not. */
  lemma OneObject(w: World, a: Agent, s: Store, k: Key)
    requires NoneMislabelled(w, s) && KeepsToItsOwn(w)
    ensures Settle(AgentGoals(w, a)(k), Lookup(s, k)) ==
              if OwnerOf(w, k) == a then Settle(GoalAt(w, k), Lookup(s, k)) else Lookup(s, k)
  {
    if a.DeviceAgent? {
      assert OwnerOf(w, k) != a ==> GoalOf(w.dev, k).Leave? || GoalOf(w.dev, k) == Sweep(AGGREGATE);
      assert !Mislabelled(w, s, k);
    } else {
      SoloIsItsShare(w, a, k);
    }
  }

  /** A whole run mislabels nothing. */
  lemma NoneBecomesMislabelled(w: World, a: Agent, s: Store, t: Store)
    requires NoneMislabelled(w, s) && KeepsToItsOwn(w) && Settled(AgentGoals(w, a), s, t)
    ensures NoneMislabelled(w, t)
  {
    forall k ensures Lookup(t, k) == Lookup(s, k) || Lookup(t, k) == Settle(GoalsAt(w)(k), Lookup(s, k)) {
      OneObject(w, a, s, k);
      assert Lookup(t, k) == Settle(AgentGoals(w, a)(k), Lookup(s, k));
    }
    LabelsStay(w, s, t);
  }

  /** Reconciler `order[j]` takes the store from `stores[j]` to `stores[j + 1]`. */
  ghost predicate Turn(w: World, order: seq<Agent>, stores: seq<Store>, j: nat)
    requires |stores| == |order| + 1 && j < |order|
  {
    Settled(AgentGoals(w, order[j]), stores[j], stores[j + 1])
  }

  /** After any number of turns each object is settled if its reconciler has had one, and untouched if not. */
  lemma {:induction false} AfterTurns(w: World, order: seq<Agent>, stores: seq<Store>)
    requires |stores| == |order| + 1 && forall j: nat :: j < |order| ==> Turn(w, order, stores, j)
    requires NoneMislabelled(w, stores[0]) && KeepsToItsOwn(w)
    ensures NoneMislabelled(w, stores[|order|])
    ensures forall k {:trigger Lookup(stores[|order|], k)} ::
              Lookup(stores[|order|], k) ==
                if OwnerOf(w, k) in order then Settle(GoalAt(w, k), Lookup(stores[0], k)) else Lookup(stores[0], k)
  {
    if order != [] {
      var n := |order| - 1;
      var front, last, before := order[..n], order[n], stores[..n + 1];
      forall j: nat | j < n ensures Turn(w, front, before, j) {
        assert Turn(w, order, stores, j);
      }
      AfterTurns(w, front, before);
      assert Turn(w, order, stores, n);
      NoneBecomesMislabelled(w, last, stores[n], stores[n + 1]);
      forall k ensures Lookup(stores[n + 1], k) ==
                         if OwnerOf(w, k) in order then Settle(GoalAt(w, k), Lookup(stores[0], k)) else Lookup(stores[0], k)
      {
        OneObject(w, last, stores[n], k);
        assert Lookup(before[n], k) == Lookup(stores[n], k);
        SettleIdempotent(GoalAt(w, k), Lookup(stores[0], k));
        assert order == front + [last];
      }
    }
  }

  /** Turns in any order, repeated or not, end in the one settled store once each reconciler has had one. */
  lemma AnyTurnsConverge(w: World, order: seq<Agent>, stores: seq<Store>)
    requires |stores| == |order| + 1 && forall j: nat :: j < |order| ==> Turn(w, order, stores, j)
    requires NoneMislabelled(w, stores[0]) && KeepsToItsOwn(w)
    requires DeviceAgent in order && IngressAgent in order && LoadBalancerAgent in order
    ensures Settled(GoalsAt(w), stores[0], stores[|order|])
  {
    AfterTurns(w, order, stores);
    forall k ensures Lookup(stores[|order|], k) == Settle(GoalsAt(w)(k), Lookup(stores[0], k)) {
      assert OwnerOf(w, k) in order;
    }
  }

  /** And that is where every interleaving of their API calls ends, crashes and restarts included. */
  lemma InterleavingsActLikeTurns(w: World, states: seq<State>, order: seq<Agent>, stores: seq<Store>)
    requires Execution(w, states) && Complete(states[|states| - 1])
    requires |stores| == |order| + 1 && forall j: nat :: j < |order| ==> Turn(w, order, stores, j)
    requires KeepsToItsOwn(w) && stores[0] == states[0].store && NoneMislabelled(w, stores[0])
    requires DeviceAgent in order && IngressAgent in order && LoadBalancerAgent in order
    ensures states[|states| - 1].store == stores[|order|]
  {
    InterleavingConverges(w, states);
    AnyTurnsConverge(w, order, stores);
    SettledUnique(GoalsAt(w), stores[0], states[|states| - 1].store, stores[|order|]);
  }
}

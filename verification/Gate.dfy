/** The gate that lets one reconcile per key run at a time: internal/controller/reconcile_gate.go. */
module ReconcileGate {

  /** The mutex-guarded set of busy keys. */
  class Gate {
    var keys: set<string>

    constructor ()
      ensures keys == {}
    {
      keys := {};
    }

    /** The locked section at the start of `run`. */
    method Enter(key: string) returns (entered: bool)
      modifies this
      ensures entered <==> key !in old(keys)
      ensures keys == old(keys) + {key}
    {
      if key in keys {
        return false;
      }
      keys := keys + {key};
      entered := true;
    }

    /** The deferred locked section. */
    method Leave(key: string)
      modifies this
      ensures keys == old(keys) - {key}
    {
      keys := keys - {key};
    }
  }
}

/** Any number of threads going through one gate, one statement at a time: lock, look, claim, unlock, run,
    and the deferred lock, release, unlock that every way out of the run goes through. */
module GateProtocol {
  import opened Kube
  import opened Ordering

  type Thread = nat

  datatype Pc =
    | Outside
    | Entering(key: string)
    | Looking(key: string)
    | Bouncing(key: string)
    | Claiming(key: string)
    | Claimed(key: string)
    | Inside(key: string)
    | Leaving(key: string)
    | Releasing(key: string)
    | Released(key: string)

  /** What a thread does with key `key`; `call` stands for one API call of its run. */
  datatype Event =
    | Entered(t: Thread, key: string)
    | Acted(t: Thread, key: string, call: nat)
    | Left(t: Thread, key: string)

  datatype State = State(lock: Option<Thread>, keys: set<string>, pcs: map<Thread, Pc>, history: seq<Event>)

  function PcOf(st: State, t: Thread): Pc {
    if t in st.pcs then st.pcs[t] else Outside
  }

  function Goto(st: State, t: Thread, pc: Pc): State {
    st.(pcs := st.pcs[t := pc])
  }

  /** The program points between lock and unlock. */
  predicate Locked(pc: Pc) {
    pc.Looking? || pc.Bouncing? || pc.Claiming? || pc.Claimed? || pc.Releasing? || pc.Released?
  }

  /** The program points at which the thread has the key in the busy set. */
  predicate Holds(pc: Pc, key: string) {
    (pc.Claimed? || pc.Inside? || pc.Leaving? || pc.Releasing?) && pc.key == key
  }

  ghost predicate Step(st: State, st': State, t: Thread) {
    match PcOf(st, t)
    case Outside => exists key :: st' == Goto(st, t, Entering(key))
    case Entering(key) => st.lock == None && st' == Goto(st, t, Looking(key)).(lock := Some(t))
    case Looking(key) => st' == Goto(st, t, if key in st.keys then Bouncing(key) else Claiming(key))
    case Bouncing(_) => st' == Goto(st, t, Outside).(lock := None)
    case Claiming(key) =>
      st' == Goto(st, t, Claimed(key)).(keys := st.keys + {key}, history := st.history + [Entered(t, key)])
    case Claimed(key) => st' == Goto(st, t, Inside(key)).(lock := None)
    case Inside(key) =>
      || (exists call :: st' == st.(history := st.history + [Acted(t, key, call)]))
      || st' == Goto(st, t, Leaving(key))
    case Leaving(key) => st.lock == None && st' == Goto(st, t, Releasing(key)).(lock := Some(t))
    case Releasing(key) =>
      st' == Goto(st, t, Released(key)).(keys := st.keys - {key}, history := st.history + [Left(t, key)])
    case Released(_) => st' == Goto(st, t, Outside).(lock := None)
  }

  /** Whose run on `key` is open after `history`. */
  function Owner(history: seq<Event>, key: string): Option<Thread> {
    if history == [] then None
    else
      var e := history[|history| - 1];
      if e.key != key || e.Acted? then Owner(history[..|history| - 1], key)
      else if e.Entered? then Some(e.t)
      else None
  }

  /** Event `e` belongs to the run that is open on its key, or opens one when none is. */
  ghost predicate Fits(history: seq<Event>, e: Event) {
    Owner(history, e.key) == if e.Entered? then None else Some(e.t)
  }

  ghost predicate Serial(history: seq<Event>) {
    forall i :: 0 <= i < |history| ==> Fits(history[..i], history[i])
  }

  /** The part of the invariant that speaks of the history. */
  ghost predicate HistoryMatches(st: State) {
    && Serial(st.history)
    && (forall t: Thread, key :: Holds(PcOf(st, t), key) <==> Owner(st.history, key) == Some(t))
    && (forall key :: key in st.keys <==> Owner(st.history, key).Some?)
  }

  ghost predicate Invariant(st: State) {
    && (forall t: Thread :: Locked(PcOf(st, t)) <==> st.lock == Some(t))
    && (forall t: Thread :: PcOf(st, t).Claiming? ==> PcOf(st, t).key !in st.keys)
    && HistoryMatches(st)
  }

  lemma Appended(history: seq<Event>, e: Event)
    requires Serial(history) && Fits(history, e)
    ensures Serial(history + [e])
    ensures forall key :: Owner(history + [e], key) ==
                            if e.key != key || e.Acted? then Owner(history, key)
                            else if e.Entered? then Some(e.t) else None
  {
    var h := history + [e];
    assert h[..|h| - 1] == history;
    forall i | 0 <= i < |h| ensures Fits(h[..i], h[i]) {
      if i < |history| {
        assert h[..i] == history[..i] && Fits(history[..i], history[i]);
      }
    }
  }

  lemma ClaimKeeps(st: State, st': State, t: Thread, key: string)
    requires Invariant(st) && PcOf(st, t) == Claiming(key)
    requires st' == Goto(st, t, Claimed(key)).(keys := st.keys + {key}, history := st.history + [Entered(t, key)])
    ensures HistoryMatches(st')
  {
    assert forall u :: u != t ==> PcOf(st', u) == PcOf(st, u);
    Appended(st.history, Entered(t, key));
  }

  lemma ReleaseKeeps(st: State, st': State, t: Thread, key: string)
    requires Invariant(st) && PcOf(st, t) == Releasing(key)
    requires st' == Goto(st, t, Released(key)).(keys := st.keys - {key}, history := st.history + [Left(t, key)])
    ensures HistoryMatches(st')
  {
    assert forall u :: u != t ==> PcOf(st', u) == PcOf(st, u);
    assert Holds(PcOf(st, t), key);
    Appended(st.history, Left(t, key));
  }

  lemma ActKeeps(st: State, st': State, t: Thread, key: string, call: nat)
    requires Invariant(st) && PcOf(st, t) == Inside(key)
    requires st' == st.(history := st.history + [Acted(t, key, call)])
    ensures HistoryMatches(st')
  {
    assert forall u :: PcOf(st', u) == PcOf(st, u);
    assert Holds(PcOf(st, t), key);
    Appended(st.history, Acted(t, key, call));
  }

  lemma SilentKeeps(st: State, st': State, t: Thread)
    requires Invariant(st) && st'.history == st.history && st'.keys == st.keys
    requires forall u: Thread :: u != t ==> PcOf(st', u) == PcOf(st, u)
    requires forall key :: Holds(PcOf(st', t), key) <==> Holds(PcOf(st, t), key)
    ensures HistoryMatches(st')
  {
    forall u: Thread, key ensures Holds(PcOf(st', u), key) <==> Owner(st'.history, key) == Some(u) {
      assert Holds(PcOf(st', u), key) <==> Holds(PcOf(st, u), key);
    }
  }

  lemma HistoryKept(st: State, st': State, t: Thread)
    requires Invariant(st) && Step(st, st', t)
    ensures HistoryMatches(st')
  {
    match PcOf(st, t) {
      case Claiming(key) => ClaimKeeps(st, st', t, key);
      case Releasing(key) => ReleaseKeeps(st, st', t, key);
      case Inside(key) =>
        if call :| st' == st.(history := st.history + [Acted(t, key, call)]) {
          ActKeeps(st, st', t, key, call);
        } else {
          SilentKeeps(st, st', t);
        }
      case _ => SilentKeeps(st, st', t);
    }
  }

  /** Every step of every thread keeps the invariant. */
  lemma StepKeeps(st: State, st': State, t: Thread)
    requires Invariant(st) && Step(st, st', t)
    ensures Invariant(st')
  {
    HistoryKept(st, st', t);
    forall u: Thread ensures Locked(PcOf(st', u)) <==> st'.lock == Some(u)
      ensures PcOf(st', u).Claiming? ==> PcOf(st', u).key !in st'.keys
    {
      assert u != t ==> PcOf(st', u) == PcOf(st, u);
      assert Locked(PcOf(st, t)) <==> st.lock == Some(t);
      assert Locked(PcOf(st, u)) <==> st.lock == Some(u);
    }
  }

  ghost predicate Next(st: State, st': State) {
    exists t :: Step(st, st', t)
  }

  lemma NextKeeps(st: State, st': State)
    requires Invariant(st) && Next(st, st')
    ensures Invariant(st')
  {
    var t :| Step(st, st', t);
    StepKeeps(st, st', t);
  }

  /** A schedule: any thread moves at each step, from an idle gate. */
  ghost predicate Execution(states: seq<State>) {
    && states != []
    && states[0] == State(None, {}, map[], [])
    && forall i :: 0 <= i < |states| - 1 ==> Next(states[i], states[i + 1])
  }

  lemma {:induction false} ExecutionKeeps(states: seq<State>)
    requires Execution(states)
    ensures Invariant(states[|states| - 1])
  {
    if |states| > 1 {
      var front := states[..|states| - 1];
      assert forall i :: 0 <= i < |front| - 1 ==> Next(front[i], front[i + 1]);
      ExecutionKeeps(front);
      NextKeeps(states[|states| - 2], states[|states| - 1]);
    }
  }

  /** Mutual exclusion per key, for any number of threads and any schedule: the busy set is exactly the set
      of keys held, each by one thread; and a thread that is out, however it got out, holds none. */
  lemma OneRunPerKey(states: seq<State>)
    requires Execution(states)
    ensures var st := states[|states| - 1];
            && (forall key :: key in st.keys <==> exists t: Thread :: Holds(PcOf(st, t), key))
            && (forall t: Thread, u: Thread, key :: Holds(PcOf(st, t), key) && Holds(PcOf(st, u), key) ==> t == u)
            && (forall t: Thread, u: Thread :: Locked(PcOf(st, t)) && Locked(PcOf(st, u)) ==> t == u)
            && Serial(st.history)
  {
    ExecutionKeeps(states);
    var st := states[|states| - 1];
    forall key ensures key in st.keys <==> exists t: Thread :: Holds(PcOf(st, t), key) {
      if key in st.keys {
        assert Holds(PcOf(st, Owner(st.history, key).value), key);
      }
      if t: Thread :| Holds(PcOf(st, t), key) {
        assert Owner(st.history, key) == Some(t);
      }
    }
    forall t: Thread, u: Thread, key | Holds(PcOf(st, t), key) && Holds(PcOf(st, u), key) ensures t == u {
      assert Owner(st.history, key) == Some(t) && Owner(st.history, key) == Some(u);
    }
    forall t: Thread, u: Thread | Locked(PcOf(st, t)) && Locked(PcOf(st, u)) ensures t == u {
      assert st.lock == Some(t) && st.lock == Some(u);
    }
  }

  /** Why `Gate.Enter` and `Gate.Leave` can be taken as single steps: while one thread is between lock and
      unlock, no step of another changes the busy set, the lock, or where the first thread is. */
  lemma LockedSectionUndisturbed(st: State, st': State, t: Thread, u: Thread)
    requires Invariant(st) && Locked(PcOf(st, t)) && u != t && Step(st, st', u)
    ensures st'.keys == st.keys && st'.lock == st.lock && PcOf(st', t) == PcOf(st, t)
  {
    assert st.lock == Some(t);
    assert !Locked(PcOf(st, u));
  }

  /** One run: a thread enters, makes its calls, and leaves unless it is still going. */
  datatype RunTrace = RunTrace(t: Thread, calls: seq<nat>, left: bool)

  function Project(history: seq<Event>, key: string): seq<Event> {
    if history == [] then []
    else
      var e := history[|history| - 1];
      Project(history[..|history| - 1], key) + if e.key == key then [e] else []
  }

  function Calls(t: Thread, key: string, calls: seq<nat>): seq<Event> {
    if calls == [] then [] else Calls(t, key, calls[..|calls| - 1]) + [Acted(t, key, calls[|calls| - 1])]
  }

  function RunEvents(run: RunTrace, key: string): seq<Event> {
    [Entered(run.t, key)] + Calls(run.t, key, run.calls) + if run.left then [Left(run.t, key)] else []
  }

  /** Runs one after the other. */
  function OneByOne(runs: seq<RunTrace>, key: string): seq<Event> {
    if runs == [] then [] else OneByOne(runs[..|runs| - 1], key) + RunEvents(runs[|runs| - 1], key)
  }

  /** All runs but the last have left. */
  predicate Sequential(runs: seq<RunTrace>) {
    forall i :: 0 <= i < |runs| - 1 ==> runs[i].left
  }

  function OpenRun(runs: seq<RunTrace>): Option<Thread> {
    if runs != [] && !runs[|runs| - 1].left then Some(runs[|runs| - 1].t) else None
  }

  lemma LastRunReplaced(runs: seq<RunTrace>, run: RunTrace, key: string)
    requires runs != []
    ensures OneByOne(runs[..|runs| - 1] + [run], key) == OneByOne(runs[..|runs| - 1], key) + RunEvents(run, key)
  {
    var r := runs[..|runs| - 1] + [run];
    assert r[..|r| - 1] == runs[..|runs| - 1];
  }

  /** A fitting event opens a run after the others, or continues or ends the open one. */
  lemma OneMoreEvent(runs: seq<RunTrace>, e: Event) returns (more: seq<RunTrace>)
    requires Sequential(runs) && OpenRun(runs) == if e.Entered? then None else Some(e.t)
    ensures Sequential(more) && OpenRun(more) == if e.Left? then None else Some(e.t)
    ensures OneByOne(more, e.key) == OneByOne(runs, e.key) + [e]
  {
    if e.Entered? {
      more := runs + [RunTrace(e.t, [], false)];
      assert more[..|more| - 1] == runs;
    } else {
      var last := runs[|runs| - 1];
      var next := if e.Acted? then last.(calls := last.calls + [e.call]) else last.(left := true);
      RunGrows(last, next, e);
      more := runs[..|runs| - 1] + [next];
      LastRunReplaced(runs, next, e.key);
    }
  }

  /** Any concurrent history is, key by key, a series of whole runs: what happened on a key is what would
      have happened had its runs been started one after the other. */
  lemma {:induction false} HistoriesAreSerial(history: seq<Event>, key: string) returns (runs: seq<RunTrace>)
    requires Serial(history)
    ensures Project(history, key) == OneByOne(runs, key) && Sequential(runs)
    ensures OpenRun(runs) == Owner(history, key)
  {
    if history == [] {
      return [];
    }
    var front, e := history[..|history| - 1], history[|history| - 1];
    assert forall i :: 0 <= i < |front| ==> front[..i] == history[..i] && Fits(history[..i], history[i]);
    runs := HistoriesAreSerial(front, key);
    assert Fits(history[..|history| - 1], history[|history| - 1]);
    if e.key == key {
      runs := OneMoreEvent(runs, e);
    }
  }

  lemma RunGrows(run: RunTrace, next: RunTrace, e: Event)
    requires !run.left && e.t == run.t && !e.Entered?
    requires next == if e.Acted? then run.(calls := run.calls + [e.call]) else run.(left := true)
    ensures RunEvents(next, e.key) == RunEvents(run, e.key) + [e]
  {
    if e.Acted? {
      assert next.calls[..|next.calls| - 1] == run.calls;
    }
  }

  /** The store that a history of API calls leaves, whatever each call does to it. */
  function Replay(effect: (nat, Store) -> Store, history: seq<Event>, s: Store): Store {
    if history == [] then s
    else
      var e, t := history[|history| - 1], Replay(effect, history[..|history| - 1], s);
      if e.Acted? then effect(e.call, t) else t
  }

  lemma {:induction false} ReplayConcat(effect: (nat, Store) -> Store, a: seq<Event>, b: seq<Event>, s: Store)
    ensures Replay(effect, a + b, s) == Replay(effect, b, Replay(effect, a, s))
  {
    if b == [] {
      assert a + b == a;
    } else {
      assert (a + b)[..|a + b| - 1] == a + b[..|b| - 1];
      ReplayConcat(effect, a, b[..|b| - 1], s);
    }
  }

  ghost predicate Commute(effect: (nat, Store) -> Store, e: Event, f: Event) {
    e.Acted? && f.Acted? ==> forall s :: effect(e.call, effect(f.call, s)) == effect(f.call, effect(e.call, s))
  }

  /** Calls on different keys do not disturb each other. Of a history on one key this is always true. */
  ghost predicate KeysApart(effect: (nat, Store) -> Store, history: seq<Event>) {
    forall e, f :: e in history && f in history && e.key != f.key ==> Commute(effect, e, f)
  }

  function Others(history: seq<Event>, key: string): seq<Event> {
    if history == [] then []
    else
      var e := history[|history| - 1];
      Others(history[..|history| - 1], key) + if e.key != key then [e] else []
  }

  lemma {:induction false} OthersMembers(history: seq<Event>, key: string)
    ensures forall e :: e in Others(history, key) <==> e in history && e.key != key
  {
    if history != [] {
      var front, e := history[..|history| - 1], history[|history| - 1];
      assert history == front + [e];
      OthersMembers(front, key);
    }
  }

  lemma {:induction false} OthersProject(history: seq<Event>, key: string, k: string)
    requires k != key
    ensures Project(Others(history, key), k) == Project(history, k)
  {
    if history != [] {
      var front, e := history[..|history| - 1], history[|history| - 1];
      var before := Others(front, key);
      OthersProject(front, key, k);
      if e.key != key {
        assert Others(history, key) == before + [e] && (before + [e])[..|before|] == before;
      } else {
        assert Others(history, key) == before && Project(history, k) == Project(front, k);
      }
    }
  }

  lemma {:induction false} MovesFirst(effect: (nat, Store) -> Store, e: Event, rest: seq<Event>, s: Store)
    requires forall f :: f in rest ==> Commute(effect, e, f)
    ensures Replay(effect, rest + [e], s) == Replay(effect, [e] + rest, s)
  {
    if rest == [] {
      assert rest + [e] == [e] + rest;
    } else {
      var front, f := rest[..|rest| - 1], rest[|rest| - 1];
      assert rest == front + [f] && f in rest;
      MovesFirst(effect, e, front, s);
      assert (rest + [e])[..|rest|] == rest && (front + [e])[..|front|] == front;
      assert ([e] + rest)[..|rest|] == [e] + front;
    }
  }

  lemma JoinsItsKey(effect: (nat, Store) -> Store, mine: seq<Event>, others: seq<Event>, e: Event, s: Store)
    requires forall f :: f in others ==> Commute(effect, e, f)
    ensures Replay(effect, mine + others + [e], s) == Replay(effect, mine + [e] + others, s)
  {
    MovesFirst(effect, e, others, Replay(effect, mine, s));
    ReplayConcat(effect, mine, others + [e], s);
    ReplayConcat(effect, mine, [e] + others, s);
    assert mine + others + [e] == mine + (others + [e]) && mine + [e] + others == mine + ([e] + others);
  }

  /** The calls on one key can be taken first. */
  lemma {:induction false} KeyFirst(effect: (nat, Store) -> Store, history: seq<Event>, key: string, s: Store)
    requires KeysApart(effect, history)
    ensures Replay(effect, history, s) == Replay(effect, Project(history, key) + Others(history, key), s)
  {
    if history != [] {
      var front, e := history[..|history| - 1], history[|history| - 1];
      var mine, others := Project(front, key), Others(front, key);
      assert history == front + [e];
      KeyFirst(effect, front, key, s);
      ReplayConcat(effect, front, [e], s);
      ReplayConcat(effect, mine + others, [e], s);
      if e.key == key {
        assert Project(history, key) == mine + [e] && Others(history, key) == others;
        OthersMembers(front, key);
        JoinsItsKey(effect, mine, others, e, s);
      } else {
        assert Project(history, key) == mine && Others(history, key) == others + [e];
        assert mine + others + [e] == mine + (others + [e]);
      }
    }
  }

  function ByKey(history: seq<Event>, keys: seq<string>): seq<Event> {
    if keys == [] then [] else Project(history, keys[0]) + ByKey(history, keys[1..])
  }

  lemma {:induction false} ByKeyOf(a: seq<Event>, b: seq<Event>, keys: seq<string>)
    requires forall k :: k in keys ==> Project(a, k) == Project(b, k)
    ensures ByKey(a, keys) == ByKey(b, keys)
  {
    if keys != [] {
      assert keys[0] in keys;
      ByKeyOf(a, b, keys[1..]);
    }
  }

  lemma {:induction false} KeyByKey(effect: (nat, Store) -> Store, history: seq<Event>, keys: seq<string>, s: Store)
    requires KeysApart(effect, history) && NoDup(keys) && forall e :: e in history ==> e.key in keys
    ensures Replay(effect, history, s) == Replay(effect, ByKey(history, keys), s)
    decreases |keys|
  {
    if keys == [] {
      NoMembers(history);
    } else {
      var k, others := keys[0], Others(history, keys[0]);
      OthersMembers(history, k);
      assert keys == [k] + keys[1..];
      forall x | x in keys[1..] ensures x != k {
        var i :| 0 <= i < |keys[1..]| && keys[1..][i] == x;
        assert keys[i + 1] == x;
      }
      KeyFirst(effect, history, k, s);
      ReplayConcat(effect, Project(history, k), others, s);
      KeyByKey(effect, others, keys[1..], Replay(effect, Project(history, k), s));
      forall x | x in keys[1..] ensures Project(others, x) == Project(history, x) {
        OthersProject(history, k, x);
      }
      ByKeyOf(others, history, keys[1..]);
      ReplayConcat(effect, Project(history, k), ByKey(history, keys[1..]), s);
    }
  }

  /** All runs, key by key, each run whole. */
  function AllRuns(keys: seq<string>, runs: seq<seq<RunTrace>>): seq<Event>
    requires |keys| == |runs|
  {
    if keys == [] then [] else OneByOne(runs[0], keys[0]) + AllRuns(keys[1..], runs[1..])
  }

  lemma {:induction false} RunsByKey(history: seq<Event>, keys: seq<string>) returns (runs: seq<seq<RunTrace>>)
    requires Serial(history)
    ensures |runs| == |keys| && ByKey(history, keys) == AllRuns(keys, runs)
    ensures forall i :: 0 <= i < |keys| ==> Sequential(runs[i]) && Project(history, keys[i]) == OneByOne(runs[i], keys[i])
    decreases |keys|
  {
    runs := [];
    if keys != [] {
      var first := HistoriesAreSerial(history, keys[0]);
      var rest := RunsByKey(history, keys[1..]);
      runs := [first] + rest;
      assert runs[1..] == rest;
      forall i | 0 <= i < |keys| ensures Sequential(runs[i]) && Project(history, keys[i]) == OneByOne(runs[i], keys[i]) {
        if i > 0 {
          assert keys[i] == keys[1..][i - 1] && runs[i] == rest[i - 1];
        }
      }
    }
  }

  /** Serialisability of the store: whatever the calls do, a concurrent history leaves the store that its runs
      leave when each is carried out whole, one after the other, provided that calls on different keys commute;
      with all runs on one key, as with one source namespace, without proviso. */
  lemma StoreIsSerial(effect: (nat, Store) -> Store, history: seq<Event>, keys: seq<string>, s: Store)
    returns (runs: seq<seq<RunTrace>>)
    requires Serial(history) && NoDup(keys) && forall e :: e in history ==> e.key in keys
    requires KeysApart(effect, history) || |keys| == 1
    ensures |runs| == |keys| && forall i :: 0 <= i < |keys| ==> Sequential(runs[i])
    ensures Replay(effect, history, s) == Replay(effect, AllRuns(keys, runs), s)
  {
    runs := RunsByKey(history, keys);
    KeyByKey(effect, history, keys, s);
  }

  /** In particular no other thread does anything on a key between one thread entering and leaving. */
  lemma NoOverlap(history: seq<Event>, i: nat, j: nat)
    requires Serial(history) && i < j < |history| && history[i].Entered?
    requires history[j].key == history[i].key && history[j].t != history[i].t
    ensures exists m :: i < m < j && history[m] == Left(history[i].t, history[i].key)
  {
    var key, t := history[i].key, history[i].t;
    if forall m :: i < m < j ==> history[m] != Left(t, key) {
      StillOpen(history, i, j);
    }
  }

  lemma {:induction false} StillOpen(history: seq<Event>, i: nat, j: nat)
    requires Serial(history) && i < j <= |history| && history[i].Entered?
    requires forall m :: i < m < j ==> history[m] != Left(history[i].t, history[i].key)
    ensures Owner(history[..j], history[i].key) == Some(history[i].t)
  {
    assert history[..j][..j - 1] == history[..j - 1] && history[..j][j - 1] == history[j - 1];
    if j > i + 1 {
      StillOpen(history, i, j - 1);
      assert Fits(history[..j - 1], history[j - 1]);
    }
  }
}

/**
 The lifecycle protocol of one watcher, as a labelled transition system.

 A State holds the five fields guarded by the mutex, the sync waiters spawned so far, the
 informer of the private object cache, the part of onCRDChange that runs after its critical
 section, the Prometheus gauge and counters, and the history of critical sections. Each Action
 is one critical section or one operation performed outside the lock, so a run of actions is
 one interleaving of reconcilers, the CRD event handler, the waiters and the readers.
 */
module Protocol {
  import opened Common
  import opened Crds

  /** How far a sync waiter goroutine has come. */
  datatype Phase =
    | Waiting                                    // in WaitForSync, or back from it and not yet at the lock
    | Removing                                   // its sync failed: RemoveInformer is owed
    | Listing(promoted: bool)                    // requeueAll is owed
    | Adding(promoted: bool, left: seq<Key>)     // these queue.Add calls are owed
    | Finished

  /**
   `generation` is the value captured when the waiter was spawned, and `created` says that the
   source it waits for has created its informer, which it does on a goroutine of its own.
   */
  datatype Waiter = Waiter(generation: nat, cancelled: bool, phase: Phase, created: bool)

  /** What the current onCRDChange call still has to do after its critical section. */
  datatype Tail =
    | Idle
    | RemoveOwed(wasReady: bool)
    | GaugeOwed
    | CountOwed
    | ListOwed(appeared: bool)
    | AddOwed(appeared: bool, rest: seq<Key>)

  /** The history: one event per critical section that changes or closes something. */
  datatype Event =
    | Appeared
    | TornDown(ready: bool)
    | Invalidated(ready: bool)
    | Registered(id: nat)
    | Promoted(id: nat)
    | SyncFailed(id: nat)
    | StaleExit(id: nat)

  /** The gauge of the watcher and its transition counters. */
  datatype Metrics = Metrics(gauge: nat, activated: nat, deactivated: nat, invalidated: nat, syncFailed: nat)

  datatype State = State(
    modulus: nat,            // of the generation word; 0 stands for an ideal unbounded counter
    crdExists: bool,
    watching: bool,
    active: bool,
    generation: nat,
    cancel: Option<nat>,     // the waiter whose context cancelSyncWaiter cancels
    waiters: seq<Waiter>,    // every waiter ever spawned; its index is its identity
    informer: bool,
    tail: Tail,
    metrics: Metrics,
    log: seq<Event>)

  datatype Action =
    | Ensure(startOk: bool)
    | Invalidate
    | CrdEvent(crd: Crd)
    | TailRemove(removed: bool)
    | TailGauge
    | TailCount
    | TailList(parents: seq<Key>)
    | TailAdd
    | Create(id: nat)                            // the source of waiter `id` creates the informer
    | Decide(id: nat, synced: bool)
    | WaiterRemove(id: nat, removed: bool)
    | WaiterList(id: nat, parents: seq<Key>)
    | WaiterAdd(id: nat)

  /** The state right after Start. */
  function Init(modulus: nat): State {
    State(modulus, false, false, false, 0, None, [], false, Idle, Metrics(0, 0, 0, 0, 0), [])
  }

  function Bump(generation: nat, modulus: nat): nat {
    if modulus == 0 then generation + 1 else (generation + 1) % modulus
  }

  /** Calling the stored cancel function cancels the context of the waiter it belongs to. */
  function CancelWaiter(waiters: seq<Waiter>, cancel: Option<nat>): seq<Waiter> {
    if cancel.Some? && cancel.value < |waiters|
    then waiters[cancel.value := waiters[cancel.value].(cancelled := true)]
    else waiters
  }

  predicate Enabled(s: State, a: Action) {
    match a
    case Ensure(_) => true
    case Invalidate => true
    case CrdEvent(_) => s.tail.Idle?
    case TailRemove(_) => s.tail.RemoveOwed?
    case TailGauge => s.tail.GaugeOwed?
    case TailCount => s.tail.CountOwed?
    case TailList(_) => s.tail.ListOwed?
    case TailAdd => s.tail.AddOwed? && s.tail.rest != []
    case Create(id) => id < |s.waiters| && !s.waiters[id].created
    case Decide(id, synced) =>
      && id < |s.waiters| && s.waiters[id].phase.Waiting?
      && (synced ==> s.waiters[id].created || s.waiters[id].cancelled)
    case WaiterRemove(id, _) => id < |s.waiters| && s.waiters[id].phase.Removing?
    case WaiterList(id, _) => id < |s.waiters| && s.waiters[id].phase.Listing?
    case WaiterAdd(id) => id < |s.waiters| && s.waiters[id].phase.Adding? && s.waiters[id].phase.left != []
  }

  predicate Registers(s: State, startOk: bool) {
    !s.active && s.crdExists && !s.watching && startOk
  }

  function DoEnsure(s: State, startOk: bool): State {
    if !Registers(s, startOk) then s
    else s.(
      watching := true,
      cancel := Some(|s.waiters|),
      waiters := CancelWaiter(s.waiters, s.cancel) + [Waiter(s.generation, false, Waiting, false)],
      log := s.log + [Registered(|s.waiters|)])
  }

  function DoInvalidate(s: State): State {
    s.(
      watching := false,
      active := false,
      crdExists := false,
      generation := Bump(s.generation, s.modulus),
      waiters := CancelWaiter(s.waiters, s.cancel),
      cancel := None,
      metrics := s.metrics.(gauge := 0, invalidated := s.metrics.invalidated + 1),
      log := s.log + [Invalidated(s.active)])
  }

  function DoCrdEvent(s: State, crd: Crd): State {
    if IsRemoved(crd) then
      s.(
        watching := false,
        active := false,
        crdExists := false,
        generation := Bump(s.generation, s.modulus),
        waiters := CancelWaiter(s.waiters, s.cancel),
        cancel := None,
        tail := if s.watching then RemoveOwed(s.active) else if s.active then GaugeOwed else Idle,
        log := s.log + [TornDown(s.active)])
    else
      s.(
        crdExists := true,
        tail := if s.crdExists then Idle else ListOwed(true),
        log := s.log + [Appeared])
  }

  function SetPhase(s: State, id: nat, phase: Phase): State
    requires id < |s.waiters|
  {
    s.(waiters := s.waiters[id := s.waiters[id].(phase := phase)])
  }

  function DoDecide(s: State, id: nat, synced: bool): State
    requires id < |s.waiters|
  {
    if s.waiters[id].generation != s.generation then
      SetPhase(s, id, Finished).(log := s.log + [StaleExit(id)])
    else if synced then
      SetPhase(s, id, Listing(true)).(
      active := true,
      cancel := None,
      metrics := s.metrics.(gauge := 1, activated := s.metrics.activated + 1),
      log := s.log + [Promoted(id)])
    else
      SetPhase(s, id, Removing).(
      watching := false,
      cancel := None,
      metrics := s.metrics.(syncFailed := s.metrics.syncFailed + 1),
      log := s.log + [SyncFailed(id)])
  }

  function DoCreate(s: State, id: nat): State
    requires id < |s.waiters|
  {
    s.(waiters := s.waiters[id := s.waiters[id].(created := true)], informer := true)
  }

  function AfterListing(promoted: bool, parents: seq<Key>): Phase {
    if parents == [] then Finished else Adding(promoted, parents)
  }

  function TailAfterListing(appeared: bool, parents: seq<Key>): Tail {
    if parents == [] then Idle else AddOwed(appeared, parents)
  }

  function Apply(s: State, a: Action): State
    requires Enabled(s, a)
  {
    match a
    case Ensure(startOk) => DoEnsure(s, startOk)
    case Invalidate => DoInvalidate(s)
    case CrdEvent(crd) => DoCrdEvent(s, crd)
    case TailRemove(removed) =>
      s.(informer := s.informer && !removed, tail := if s.tail.wasReady then GaugeOwed else Idle)
    case TailGauge => s.(metrics := s.metrics.(gauge := 0), tail := CountOwed)
    case TailCount => s.(metrics := s.metrics.(deactivated := s.metrics.deactivated + 1), tail := ListOwed(false))
    case TailList(parents) => s.(tail := TailAfterListing(s.tail.appeared, parents))
    case TailAdd => s.(tail := TailAfterListing(s.tail.appeared, s.tail.rest[1..]))
    case Create(id) => DoCreate(s, id)
    case Decide(id, synced) => DoDecide(s, id, synced)
    case WaiterRemove(id, removed) => SetPhase(s, id, Listing(false)).(informer := s.informer && !removed)
    case WaiterList(id, parents) => SetPhase(s, id, AfterListing(s.waiters[id].phase.promoted, parents))
    case WaiterAdd(id) =>
      SetPhase(s, id, AfterListing(s.waiters[id].phase.promoted, s.waiters[id].phase.left[1..]))
  }

  /** The request an action puts on the controller's work queue. */
  function Added(s: State, a: Action): Option<Key>
    requires Enabled(s, a)
  {
    match a
    case TailAdd => Some(s.tail.rest[0])
    case WaiterAdd(id) => Some(s.waiters[id].phase.left[0])
    case _ => None
  }

  /** `run` can be taken from `s`, action by action. */
  predicate Valid(s: State, run: seq<Action>)
    decreases |run|
  {
    run == [] || (Enabled(s, run[0]) && Valid(Apply(s, run[0]), run[1..]))
  }

  function Exec(s: State, run: seq<Action>): State
    requires Valid(s, run)
    decreases |run|
  {
    if run == [] then s else Exec(Apply(s, run[0]), run[1..])
  }

  /** Reachable from Start with an ideal generation counter. */
  ghost predicate Reachable(s: State) {
    exists run :: Valid(Init(0), run) && Exec(Init(0), run) == s
  }

  lemma {:induction false} ExecAppend(s: State, run: seq<Action>, more: seq<Action>)
    requires Valid(s, run)
    ensures Valid(s, run + more) <==> Valid(Exec(s, run), more)
    ensures Valid(Exec(s, run), more) ==> Exec(s, run + more) == Exec(Exec(s, run), more)
    decreases |run|
  {
    if run == [] {
      assert run + more == more;
    } else {
      assert (run + more)[1..] == run[1..] + more;
      ExecAppend(Apply(s, run[0]), run[1..], more);
    }
  }

  lemma ExecOne(s: State, a: Action, more: seq<Action>)
    requires Enabled(s, a) && Valid(Apply(s, a), more)
    ensures Valid(s, [a] + more) && Exec(s, [a] + more) == Exec(Apply(s, a), more)
  {
    assert ([a] + more)[1..] == more;
  }

  /** Only the goroutine of waiter `id` takes these. */
  predicate WaiterAction(a: Action, id: nat) {
    (a.Decide? || a.WaiterRemove? || a.WaiterList? || a.WaiterAdd?) && a.id == id
  }

  /** The others can cancel a waiter's context; how far it has come is its own business. */
  lemma PhaseBelongsToWaiter(s: State, a: Action, id: nat)
    requires Enabled(s, a) && id < |s.waiters| && !WaiterAction(a, id)
    ensures id < |Apply(s, a).waiters|
    ensures Apply(s, a).waiters[id].phase == s.waiters[id].phase
    ensures Apply(s, a).waiters[id].generation == s.waiters[id].generation
  {
    match a
    case Decide(other, _) => assert other != id;
    case WaiterRemove(other, _) => assert other != id;
    case WaiterList(other, _) => assert other != id;
    case WaiterAdd(other) => assert other != id;
    case _ =>
  }
}

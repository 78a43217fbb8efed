/**
 The Watcher object: its mutex-guarded fields, one method for each critical section and for
 each operation performed outside the lock, and the calls that are made of several of them.

 The mutex is modelled by the granularity of the methods: nothing runs inside one. What other
 goroutines do between two sections of a call is a parameter of the call, a schedule of
 arbitrary protocol actions, so a contract that holds for all schedules holds for all
 interleavings. Every method is proved against the transition system of module Protocol.
 */
module Watchers {
  import opened Common
  import opened Crds
  import opened Protocol
  import Generation
  import History = ProtocolHistory

  newtype Word = x: int | 0 <= x < 0x1_0000_0000_0000_0000

  const LARGEST: Word := 0xFFFF_FFFF_FFFF_FFFF

  datatype Reason = Ready | NotStarted | CRDNotFound | Syncing | Pending

  datatype WatcherStatus = WatcherStatus(available: bool, reason: Reason)

  datatype ReadError = NotFound | ResourceNotCached | CacheInvalidated | Other(message: string)

  /** The answer of the private cache to a Get while its informer is there. */
  datatype GetAnswer = Got(content: string) | GetNotFound | GetBroken(message: string)

  datatype ListAnswer = Listed(items: seq<string>, remaining: Option<nat>) | ListFailed(message: string)

  /** NotFound and other cache errors are passed on as they are. */
  function ErrorOf(answer: GetAnswer): Option<ReadError> {
    match answer
    case Got(_) => None
    case GetNotFound => Some(NotFound)
    case GetBroken(message) => Some(Other(message))
  }

  function ContentOf(answer: GetAnswer): string {
    if answer.Got? then answer.content else ""
  }

  /** The three-way return of TryGet: (true, nil) comes with the content, (false, nil) with neither. */
  datatype TryResult = TryResult(available: bool, error: Option<ReadError>, content: string)

  /** A list object handed to TryList, filled or cleared in place. */
  class ObjectList {
    var items: seq<string>
    var remaining: Option<nat>

    constructor ()
      ensures items == [] && remaining.None?
    {
      items, remaining := [], None;
    }

    /** clearList: no items and no remaining item count. */
    method Clear()
      modifies this
      ensures items == [] && remaining.None?
    {
      items := [];
      remaining := None;
    }
  }

  /** After the first `n` actions of `run` the watch is active. */
  predicate ActiveAt(s: State, run: seq<Action>, n: nat) {
    n <= |run| && Valid(s, run[..n]) && Exec(s, run[..n]).active
  }

  predicate InactiveAt(s: State, run: seq<Action>, n: nat) {
    n <= |run| && Valid(s, run[..n]) && !Exec(s, run[..n]).active
  }

  /** Only the CRD event handler takes these; its calls are delivered one at a time. */
  predicate HandlerAction(a: Action) {
    a.CrdEvent? || a.TailRemove? || a.TailGauge? || a.TailCount? || a.TailList? || a.TailAdd?
  }

  /** `run` goes on from `before` without another CRD event. */
  ghost predicate NoEventSince(before: seq<Action>, run: seq<Action>) {
    before <= run && forall i :: |before| <= i < |run| ==> !run[i].CrdEvent?
  }

  lemma TailBelongsToHandler(s: State, a: Action)
    requires Enabled(s, a) && !HandlerAction(a)
    ensures Apply(s, a).tail == s.tail
  {
  }

  lemma {:induction false} TailStaysDuring(s: State, run: seq<Action>)
    requires Valid(s, run) && forall a :: a in run ==> !HandlerAction(a)
    ensures Exec(s, run).tail == s.tail
    decreases |run|
  {
    if run != [] {
      assert run[0] in run;
      TailBelongsToHandler(s, run[0]);
      TailStaysDuring(Apply(s, run[0]), run[1..]);
    }
  }

  lemma {:induction false} PhaseStaysDuring(s: State, run: seq<Action>, id: nat)
    requires Valid(s, run) && id < |s.waiters| && forall a :: a in run ==> !WaiterAction(a, id)
    ensures id < |Exec(s, run).waiters| && Exec(s, run).waiters[id].phase == s.waiters[id].phase
    decreases |run|
  {
    if run != [] {
      assert run[0] in run;
      PhaseBelongsToWaiter(s, run[0], id);
      PhaseStaysDuring(Apply(s, run[0]), run[1..], id);
    }
  }

  /** Running one more action, or a run of further actions, after a run. */
  lemma Extend(s: State, run: seq<Action>, more: seq<Action>)
    requires Valid(s, run) && Valid(Exec(s, run), more)
    ensures Valid(s, run + more) && Exec(s, run + more) == Exec(Exec(s, run), more)
  {
    ExecAppend(s, run, more);
  }

  lemma Single(s: State, a: Action)
    requires Enabled(s, a)
    ensures Valid(s, [a]) && Exec(s, [a]) == Apply(s, a)
  {
    assert [a][1..] == [];
  }

  // ----- what a waiter adds along a run

  function AddedNow(s: State, a: Action, id: nat): seq<Key>
    requires Enabled(s, a)
  {
    if a == WaiterAdd(id) then [s.waiters[id].phase.left[0]] else []
  }

  /** The requests waiter `id` puts on the queue along `run`, in order. */
  function AddedBy(s: State, run: seq<Action>, id: nat): seq<Key>
    requires Valid(s, run)
    decreases |run|
  {
    if run == [] then [] else AddedNow(s, run[0], id) + AddedBy(Apply(s, run[0]), run[1..], id)
  }

  lemma {:induction false} AddedByAppend(s: State, run: seq<Action>, more: seq<Action>, id: nat)
    requires Valid(s, run) && Valid(Exec(s, run), more)
    ensures Valid(s, run + more)
    ensures AddedBy(s, run + more, id) == AddedBy(s, run, id) + AddedBy(Exec(s, run), more, id)
    decreases |run|
  {
    if run == [] {
      assert run + more == more;
    } else {
      assert (run + more)[0] == run[0] && (run + more)[1..] == run[1..] + more;
      AddedByAppend(Apply(s, run[0]), run[1..], more, id);
    }
  }

  lemma {:induction false} OthersAddNothing(s: State, run: seq<Action>, id: nat)
    requires Valid(s, run) && forall a :: a in run ==> !WaiterAction(a, id)
    ensures AddedBy(s, run, id) == []
    decreases |run|
  {
    if run != [] {
      assert run[0] in run;
      OthersAddNothing(Apply(s, run[0]), run[1..], id);
    }
  }

  lemma ActAdds(s: State, run: seq<Action>, a: Action, id: nat)
    requires Valid(s, run) && Enabled(Exec(s, run), a)
    ensures Valid(s, run + [a])
    ensures AddedBy(s, run + [a], id) == AddedBy(s, run, id) + AddedNow(Exec(s, run), a, id)
  {
    Single(Exec(s, run), a);
    AddedByAppend(s, run, [a], id);
    assert [a][1..] == [];
  }

  lemma DecidingAddsNothing(s: State, id: nat, synced: bool)
    requires Enabled(s, Decide(id, synced))
    ensures Valid(s, [Decide(id, synced)]) && Exec(s, [Decide(id, synced)]) == DoDecide(s, id, synced)
    ensures AddedBy(s, [Decide(id, synced)], id) == []
  {
    Single(s, Decide(id, synced));
    assert [Decide(id, synced)][1..] == [];
  }

  /** None of these actions belongs to the goroutine of waiter `id`. */
  ghost predicate Leaves(run: seq<Action>, id: nat) {
    forall a :: a in run ==> !WaiterAction(a, id)
  }

  /** `run` goes on from `before`, in which waiter `id` adds `keys` and calls no RemoveInformer. */
  ghost predicate Extends(start: State, before: seq<Action>, run: seq<Action>, id: nat, keys: seq<Key>) {
    && Valid(start, before) && Valid(start, run)
    && AddedBy(start, run, id) == AddedBy(start, before, id) + keys
    && forall a: Action :: a.WaiterRemove? && a.id == id ==> (a in run <==> a in before)
  }

  lemma ExtendsOn(start: State, before: seq<Action>, mid: seq<Action>, run: seq<Action>, id: nat, keys: seq<Key>,
                  more: seq<Key>)
    requires Extends(start, before, mid, id, keys) && Extends(start, mid, run, id, more)
    ensures Extends(start, before, run, id, keys + more)
  {
    assert AddedBy(start, before, id) + keys + more == AddedBy(start, before, id) + (keys + more);
  }

  lemma ActExtends(start: State, run: seq<Action>, a: Action, id: nat)
    requires Valid(start, run) && Enabled(Exec(start, run), a) && !a.WaiterRemove?
    ensures Extends(start, run, run + [a], id, AddedNow(Exec(start, run), a, id))
  {
    ActAdds(start, run, a, id);
  }

  // ----- a call of TryGet or TryList

  /**
   What the other goroutines do before the section of Ensure, between it and the read, and before
   the section of handleCacheInvalidated; whether Ensure found the watch active, and whether the
   read then missed the informer.
   */
  datatype Call = Call(before: seq<Action>, between: seq<Action>, late: seq<Action>, ensured: bool, missed: bool)

  /** Everything up to the read. */
  function AtRead(c: Call, startOk: bool): seq<Action> {
    c.before + [Action.Ensure(startOk)] + c.between
  }

  function CallRun(c: Call, startOk: bool): seq<Action> {
    if c.missed then AtRead(c, startOk) + c.late + [Invalidate] else AtRead(c, startOk)
  }

  ghost predicate Drawn(run: seq<Action>, schedule: seq<Action>) {
    forall a :: a in run ==> a in schedule
  }

  /** From `s` the call went as `c` says, with the other goroutines on these schedules. */
  ghost predicate Took(c: Call, s: State, startOk: bool, before: seq<Action>, between: seq<Action>, late: seq<Action>) {
    && Drawn(c.before, before) && Drawn(c.between, between) && Drawn(c.late, late)
    && (!c.ensured ==> c.between == []) && (!c.missed ==> c.late == [])
    && Valid(s, c.before) && (c.ensured <==> Exec(s, c.before).active)
    && Valid(s, AtRead(c, startOk)) && (c.missed <==> c.ensured && !Exec(s, AtRead(c, startOk)).informer)
    && Valid(s, CallRun(c, startOk))
  }

  function CallResult(c: Call, answer: GetAnswer): TryResult {
    if c.ensured && !c.missed then TryResult(true, ErrorOf(answer), ContentOf(answer)) else TryResult(false, None, "")
  }

  /** When the result is true of the watch: at the section of Ensure, or after that of handleCacheInvalidated. */
  function Instant(c: Call, startOk: bool): nat {
    if c.missed then |CallRun(c, startOk)| else |c.before|
  }

  lemma CallsAreLinearisable(c: Call, s: State, startOk: bool, before: seq<Action>, between: seq<Action>,
                             late: seq<Action>)
    requires Took(c, s, startOk, before, between, late)
    ensures if c.ensured && !c.missed then ActiveAt(s, CallRun(c, startOk), Instant(c, startOk))
            else InactiveAt(s, CallRun(c, startOk), Instant(c, startOk))
  {
    var run := CallRun(c, startOk);
    if c.missed {
      var almost := AtRead(c, startOk) + c.late;
      ValidPrefix(s, almost, [Invalidate]);
      ExecAppend(s, almost, [Invalidate]);
      Single(Exec(s, almost), Invalidate);
      assert run[..|run|] == run;
    } else {
      assert run[..|c.before|] == c.before;
    }
  }

  lemma {:induction false} ValidPrefix(s: State, run: seq<Action>, more: seq<Action>)
    requires Valid(s, run + more)
    ensures Valid(s, run)
    decreases |run|
  {
    if run != [] {
      assert (run + more)[1..] == run[1..] + more;
      ValidPrefix(Apply(s, run[0]), run[1..], more);
    }
  }

  class Watcher {
    const crdName: string
    const conditionType: string
    var started: bool

    // guarded by the mutex
    var watching: bool
    var active: bool
    var crdExists: bool
    var generation: Word
    var cancelSyncWaiter: Option<nat>

    // what lives around the watcher: goroutines, private cache, outstanding handler work, metrics, history
    var waiters: seq<Waiter>
    var informer: bool
    var tail: Tail
    var metrics: Metrics
    var log: seq<Event>

    constructor (crdName: string, conditionType: string)
      ensures this.crdName == crdName && this.conditionType == conditionType
      ensures !started && View() == Init(Generation.WORD)
    {
      this.crdName, this.conditionType, started := crdName, conditionType, false;
      watching, active, crdExists, generation, cancelSyncWaiter := false, false, false, 0, None;
      waiters, informer, tail := [], false, Idle;
      metrics, log := Metrics(0, 0, 0, 0, 0), [];
    }

    function View(): State
      reads this
    {
      State(Generation.WORD, crdExists, watching, active, generation as nat, cancelSyncWaiter, waiters, informer,
            tail, metrics, log)
    }

    /** A second Start is refused, and a failed one leaves the watcher not started. */
    method Start(crdSourceStarts: bool) returns (ok: bool)
      modifies this`started
      ensures ok == (!old(started) && crdSourceStarts)
      ensures started == (old(started) || crdSourceStarts)
    {
      if started {
        return false;
      }
      if !crdSourceStarts {
        return false;
      }
      started := true;
      ok := true;
    }

    method Ensure(startOk: bool) returns (available: bool)
      requires started
      modifies this
      ensures started && View() == DoEnsure(old(View()), startOk)
      ensures available == old(active) == active
    {
      if active {
        return true;
      }
      if !crdExists {
        return false;
      }
      if !watching {
        if !startOk {
          return false;
        }
        watching := true;
        if cancelSyncWaiter.Some? {
          Cancel(cancelSyncWaiter.value);
        }
        cancelSyncWaiter := Some(|waiters|);
        log := log + [Registered(|waiters|)];
        waiters := waiters + [Waiter(generation as nat, false, Waiting, false)];
      }
      return false;
    }

    /** The effect of a stored cancel function on the waiter it was made for. */
    method Cancel(id: nat)
      modifies this`waiters
      ensures waiters == CancelWaiter(old(waiters), Some(id))
    {
      if id < |waiters| {
        waiters := waiters[id := waiters[id].(cancelled := true)];
      }
    }

    /** Cancel the waiter in flight, if there is one, and forget its cancel function. */
    method CancelInFlight()
      modifies this`waiters, this`cancelSyncWaiter
      ensures waiters == CancelWaiter(old(waiters), old(cancelSyncWaiter)) && cancelSyncWaiter.None?
    {
      if cancelSyncWaiter.Some? {
        Cancel(cancelSyncWaiter.value);
        cancelSyncWaiter := None;
      }
    }

    method NextGeneration()
      modifies this`generation
      ensures generation as nat == Bump(old(generation) as nat, Generation.WORD)
    {
      generation := if generation == LARGEST then 0 else generation + 1;
    }

    method HandleCacheInvalidated()
      modifies this
      ensures started == old(started) && View() == DoInvalidate(old(View()))
    {
      log := log + [Invalidated(active)];
      watching := false;
      active := false;
      crdExists := false;
      NextGeneration();
      CancelInFlight();
      metrics := metrics.(gauge := 0, invalidated := metrics.invalidated + 1);
    }

    /** The critical section of onCRDChange; the booleans are its local copies of the flags. */
    method CrdSection(crd: Crd) returns (wasWatching: bool, wasReady: bool, alreadyKnown: bool)
      requires tail.Idle?
      modifies this
      ensures started == old(started) && View() == DoCrdEvent(old(View()), crd)
      ensures (wasWatching, wasReady, alreadyKnown) == (old(watching), old(active), old(crdExists))
      ensures crdExists <==> Installed(crd)
      ensures !Installed(crd) ==> !watching && !active && cancelSyncWaiter.None?
      ensures Installed(crd) ==> watching == old(watching) && active == old(active)
    {
      RemovedIffNotInstalled(crd);
      wasWatching, wasReady, alreadyKnown := watching, active, crdExists;
      if IsRemoved(crd) {
        log := log + [TornDown(active)];
        watching := false;
        active := false;
        crdExists := false;
        NextGeneration();
        CancelInFlight();
        tail := if wasWatching then RemoveOwed(wasReady) else if wasReady then GaugeOwed else Idle;
      } else {
        log := log + [Appeared];
        crdExists := true;
        tail := if alreadyKnown then Idle else ListOwed(true);
      }
    }

    /** The critical section of waitForSyncAndRequeue, after WaitForSync returned. */
    method DecideSection(id: nat, synced: bool) returns (stale: bool)
      requires Enabled(View(), Decide(id, synced))
      modifies this
      ensures started == old(started) && View() == DoDecide(old(View()), id, synced)
      ensures stale == (old(waiters)[id].generation != old(generation) as nat)
    {
      stale := waiters[id].generation != generation as nat;
      if stale {
        waiters := waiters[id := waiters[id].(phase := Finished)];
        log := log + [StaleExit(id)];
      } else if synced {
        active := true;
        cancelSyncWaiter := None;
        metrics := metrics.(gauge := 1, activated := metrics.activated + 1);
        waiters := waiters[id := waiters[id].(phase := Listing(true))];
        log := log + [Promoted(id)];
      } else {
        watching := false;
        cancelSyncWaiter := None;
        metrics := metrics.(syncFailed := metrics.syncFailed + 1);
        waiters := waiters[id := waiters[id].(phase := Removing)];
        log := log + [SyncFailed(id)];
      }
    }

    /** The goroutine of the source that waiter `id` waits for creates the informer. */
    method CreateInformer(id: nat)
      requires Enabled(View(), Create(id))
      modifies this
      ensures started == old(started) && View() == DoCreate(old(View()), id)
    {
      waiters := waiters[id := waiters[id].(created := true)];
      informer := true;
    }

    /** One action of any actor. */
    method Do(a: Action)
      requires Enabled(View(), a) && (a.Ensure? ==> started)
      modifies this
      ensures started == old(started) && View() == Apply(old(View()), a)
    {
      match a
      case Ensure(startOk) => var _ := Ensure(startOk);
      case Invalidate => HandleCacheInvalidated();
      case CrdEvent(crd) => var _, _, _ := CrdSection(crd);
      case Create(id) => CreateInformer(id);
      case Decide(id, synced) => var _ := DecideSection(id, synced);
      case TailRemove(removed) =>
        informer := informer && !removed;
        tail := if tail.wasReady then GaugeOwed else Idle;
      case TailGauge =>
        metrics := metrics.(gauge := 0);
        tail := CountOwed;
      case TailCount =>
        metrics := metrics.(deactivated := metrics.deactivated + 1);
        tail := ListOwed(false);
      case TailList(parents) => tail := TailAfterListing(tail.appeared, parents);
      case TailAdd => tail := TailAfterListing(tail.appeared, tail.rest[1..]);
      case WaiterRemove(id, removed) =>
        informer := informer && !removed;
        waiters := waiters[id := waiters[id].(phase := Listing(false))];
      case WaiterList(id, parents) =>
        waiters := waiters[id := waiters[id].(phase := AfterListing(waiters[id].phase.promoted, parents))];
      case WaiterAdd(id) =>
        var phase := waiters[id].phase;
        waiters := waiters[id := waiters[id].(phase := AfterListing(phase.promoted, phase.left[1..]))];
    }

    /**
     The other goroutines take the actions of `schedule` that are possible when their turn comes;
     Ensure is not before Start has returned.
     */
    method Others(schedule: seq<Action>) returns (ghost run: seq<Action>)
      modifies this
      ensures started == old(started) && Valid(old(View()), run) && View() == Exec(old(View()), run)
      ensures forall a :: a in run ==> a in schedule
    {
      run := [];
      for i := 0 to |schedule|
        invariant started == old(started) && Valid(old(View()), run) && View() == Exec(old(View()), run)
        invariant forall a :: a in run ==> a in schedule
      {
        if Enabled(View(), schedule[i]) && (schedule[i].Ensure? ==> started) {
          Single(View(), schedule[i]);
          Extend(old(View()), run, [schedule[i]]);
          Do(schedule[i]);
          run := run + [schedule[i]];
        }
      }
    }

    /**
     onCRDChange as one call, with other goroutines running after each of its steps. It
     returns the complete parent list exactly when an active watch was torn down or the CRD
     was not known before, whatever happened meanwhile; and afterwards the CRD is known exactly
     when it is installed and no reader has invalidated the watch meanwhile.
     */
    method OnCRDChange(crd: Crd, removed: bool, parents: seq<Key>, schedule: nat -> seq<Action>)
      returns (requests: seq<Key>, ghost run: seq<Action>)
      requires tail.Idle?
      requires forall n, a :: a in schedule(n) ==> !HandlerAction(a)
      modifies this
      ensures started == old(started) && Valid(old(View()), run) && View() == Exec(old(View()), run)
      ensures requests == if (if Installed(crd) then !old(crdExists) else old(active)) then parents else []
      ensures tail == TailAfterListing(Installed(crd), requests)
      ensures TailRemove(removed) in run <==> !Installed(crd) && old(watching)
      ensures crdExists <==> Installed(crd) && Invalidate !in run
    {
      RemovedIffNotInstalled(crd);
      ghost var start := View();
      Single(start, CrdEvent(crd));
      var wasWatching, wasReady, alreadyKnown := CrdSection(crd);
      run := [CrdEvent(crd)];
      run := Pause(start, run, schedule(0));
      if IsRemoved(crd) {
        run := CarryOutRemoval(start, run, wasWatching, wasReady, removed, schedule);
        if !wasReady {
          History.CrdFlagTellsLastEvent(start, run, 0);
          return [], run;
        }
      } else {
        if alreadyKnown {
          History.CrdFlagTellsLastEvent(start, run, 0);
          return [], run;
        }
      }
      run := Act(start, run, TailList(parents));
      History.CrdFlagTellsLastEvent(start, run, 0);
      requests := parents;
    }

    /**
     waitForSyncAndRequeue from the return of WaitForSync to its end, with other goroutines
     running between any two of its steps. The requests that a waiter which is not stale puts on
     the queue are the complete parent list, in order and once, whether its sync succeeded or
     failed; only after a failure it removes the informer first. A stale waiter does nothing more.
     */
    method WaitForSyncAndRequeue(id: nat, synced: bool, removed: bool, parents: seq<Key>, schedule: nat -> seq<Action>)
      returns (added: seq<Key>, ghost run: seq<Action>)
      requires Enabled(View(), Decide(id, synced))
      requires forall n :: Leaves(schedule(n), id)
      modifies this
      ensures started == old(started) && Valid(old(View()), run) && View() == Exec(old(View()), run)
      ensures added == AddedBy(old(View()), run, id)
      ensures added == if old(waiters)[id].generation != old(generation) as nat then [] else parents
      ensures id < |waiters| && waiters[id].phase.Finished?
      ensures WaiterRemove(id, removed) in run <==> old(waiters)[id].generation == old(generation) as nat && !synced
    {
      ghost var start := View();
      DecidingAddsNothing(start, id, synced);
      var stale := DecideSection(id, synced);
      run := [Decide(id, synced)];
      if stale {
        return [], run;
      }
      if !synced {
        run := CleanUp(start, run, id, removed, schedule(0));
      }
      added, run := Requeue(start, run, id, parents, schedule);
    }

    /** RemoveInformer after a failed sync. */
    method CleanUp(ghost start: State, ghost before: seq<Action>, id: nat, removed: bool, schedule: seq<Action>)
      returns (ghost run: seq<Action>)
      requires Valid(start, before) && View() == Exec(start, before)
      requires id < |waiters| && waiters[id].phase.Removing?
      requires Leaves(schedule, id)
      modifies this
      ensures started == old(started) && Valid(start, run) && View() == Exec(start, run)
      ensures WaiterRemove(id, removed) in run
      ensures id < |waiters| && waiters[id].phase == Listing(false)
      ensures AddedBy(start, run, id) == AddedBy(start, before, id)
    {
      run := Yield(start, before, schedule, id);
      ActAdds(start, run, WaiterRemove(id, removed), id);
      run := Act(start, run, WaiterRemove(id, removed));
    }

    /** requeueAll and the queue.Add loop at the end of waitForSyncAndRequeue. */
    method Requeue(ghost start: State, ghost before: seq<Action>, id: nat, parents: seq<Key>,
                   schedule: nat -> seq<Action>)
      returns (added: seq<Key>, ghost run: seq<Action>)
      requires Valid(start, before) && View() == Exec(start, before)
      requires id < |waiters| && waiters[id].phase.Listing?
      requires forall n :: Leaves(schedule(n), id)
      modifies this
      ensures started == old(started) && Extends(start, before, run, id, parents) && View() == Exec(start, run)
      ensures added == parents && id < |waiters| && waiters[id].phase.Finished?
    {
      ghost var promoted := waiters[id].phase.promoted;
      assert parents[..0] == [] && parents[0..] == parents;
      ghost var mid := Yield(start, before, schedule(1), id);
      ActExtends(start, mid, WaiterList(id, parents), id);
      ghost var listed := Act(start, mid, WaiterList(id, parents));
      ExtendsOn(start, before, mid, listed, id, [], []);
      added, run := AddAll(start, before, listed, id, promoted, parents, schedule);
      assert parents[..|parents|] == parents && parents[|parents|..] == [];
    }

    /** After `run`, which goes on from `before`, waiter `id` has added the first `i` of the parents. */
    ghost predicate Adding(start: State, before: seq<Action>, run: seq<Action>, id: nat, promoted: bool,
                           parents: seq<Key>, i: nat)
      reads this
    {
      && i <= |parents| && Extends(start, before, run, id, parents[..i]) && View() == Exec(start, run)
      && id < |waiters| && waiters[id].phase == AfterListing(promoted, parents[i..])
    }

    method AddAll(ghost start: State, ghost before: seq<Action>, ghost listed: seq<Action>, id: nat,
                  ghost promoted: bool, parents: seq<Key>, schedule: nat -> seq<Action>)
      returns (added: seq<Key>, ghost run: seq<Action>)
      requires Adding(start, before, listed, id, promoted, parents, 0)
      requires forall n :: Leaves(schedule(n), id)
      modifies this
      ensures started == old(started) && Adding(start, before, run, id, promoted, parents, |parents|)
      ensures added == parents
    {
      run := listed;
      added := [];
      for i := 0 to |parents|
        invariant started == old(started) && Adding(start, before, run, id, promoted, parents, i)
        invariant added == parents[..i]
      {
        run := AddNext(start, before, run, id, promoted, parents, i, schedule(2 + i));
        added := added + [parents[i]];
      }
    }

    /** One queue.Add of that loop, for parent `i`. */
    method AddNext(ghost start: State, ghost before: seq<Action>, ghost soFar: seq<Action>, id: nat,
                   ghost promoted: bool, ghost parents: seq<Key>, ghost i: nat, schedule: seq<Action>)
      returns (ghost run: seq<Action>)
      requires i < |parents| && Adding(start, before, soFar, id, promoted, parents, i) && Leaves(schedule, id)
      modifies this
      ensures started == old(started) && Adding(start, before, run, id, promoted, parents, i + 1)
    {
      assert parents[i..][1..] == parents[i + 1..] && parents[..i] + [parents[i]] == parents[..i + 1];
      ghost var mid := Yield(start, soFar, schedule, id);
      ExtendsOn(start, before, soFar, mid, id, parents[..i], []);
      ActExtends(start, mid, WaiterAdd(id), id);
      run := Act(start, mid, WaiterAdd(id));
      ExtendsOn(start, before, mid, run, id, parents[..i], [parents[i]]);
    }

    /** Goroutines other than waiter `id` get a turn. */
    method Yield(ghost start: State, ghost before: seq<Action>, schedule: seq<Action>, id: nat)
      returns (ghost run: seq<Action>)
      requires Valid(start, before) && View() == Exec(start, before) && id < |waiters|
      requires Leaves(schedule, id)
      modifies this
      ensures started == old(started) && Extends(start, before, run, id, []) && View() == Exec(start, run)
      ensures id < |waiters| && waiters[id].phase == old(waiters)[id].phase
    {
      ghost var s := View();
      ghost var more := Others(schedule);
      Extend(start, before, more);
      PhaseStaysDuring(s, more, id);
      OthersAddNothing(s, more, id);
      AddedByAppend(start, before, more, id);
      run := before + more;
    }

    /** What onCRDChange does for a removed CRD between its critical section and the requeue. */
    method CarryOutRemoval(ghost start: State, ghost before: seq<Action>, wasWatching: bool, wasReady: bool,
                           removed: bool, schedule: nat -> seq<Action>)
      returns (ghost run: seq<Action>)
      requires Valid(start, before) && View() == Exec(start, before)
      requires tail == if wasWatching then RemoveOwed(wasReady) else if wasReady then GaugeOwed else Idle
      requires forall n, a :: a in schedule(n) ==> !HandlerAction(a)
      modifies this
      ensures started == old(started) && Valid(start, run) && View() == Exec(start, run)
      ensures tail == if wasReady then ListOwed(false) else Idle
      ensures TailRemove(removed) in run <==> wasWatching || TailRemove(removed) in before
      ensures NoEventSince(before, run)
    {
      run := before;
      if wasWatching {
        run := Act(start, run, TailRemove(removed));
        run := Pause(start, run, schedule(1));
      }
      if wasReady {
        run := ResetMetrics(start, run, schedule(2), schedule(3));
      }
    }

    /** The gauge goes to zero, and the deactivation is counted. */
    method ResetMetrics(ghost start: State, ghost before: seq<Action>, first: seq<Action>, second: seq<Action>)
      returns (ghost run: seq<Action>)
      requires Valid(start, before) && View() == Exec(start, before) && tail.GaugeOwed?
      requires (forall a :: a in first ==> !HandlerAction(a)) && forall a :: a in second ==> !HandlerAction(a)
      modifies this
      ensures started == old(started) && Valid(start, run) && View() == Exec(start, run) && tail == ListOwed(false)
      ensures forall a: Action :: a.TailRemove? ==> (a in run <==> a in before)
      ensures NoEventSince(before, run)
    {
      run := Act(start, before, TailGauge);
      run := Pause(start, run, first);
      run := Act(start, run, TailCount);
      run := Pause(start, run, second);
    }

    /** This goroutine takes `a`. */
    method Act(ghost start: State, ghost before: seq<Action>, a: Action) returns (ghost run: seq<Action>)
      requires Valid(start, before) && View() == Exec(start, before)
      requires Enabled(View(), a) && (a.Ensure? ==> started)
      modifies this
      ensures started == old(started) && run == before + [a] && Valid(start, run) && View() == Exec(start, run)
      ensures View() == Apply(old(View()), a)
    {
      Single(View(), a);
      Extend(start, before, [a]);
      Do(a);
      run := before + [a];
    }

    /** Other goroutines, none of them the CRD event handler, get a turn. */
    method Pause(ghost start: State, ghost before: seq<Action>, schedule: seq<Action>) returns (ghost run: seq<Action>)
      requires Valid(start, before) && View() == Exec(start, before)
      requires forall a :: a in schedule ==> !HandlerAction(a)
      modifies this
      ensures started == old(started) && Valid(start, run) && View() == Exec(start, run) && tail == old(tail)
      ensures forall a :: HandlerAction(a) ==> (a in run <==> a in before)
      ensures NoEventSince(before, run)
    {
      ghost var s := View();
      ghost var more := Others(schedule);
      Extend(start, before, more);
      TailStaysDuring(s, more);
      run := before + more;
      assert forall i :: |before| <= i < |run| ==> run[i] in more;
    }

    /**
     Ensure, once the lock is free, and then the other goroutines get a turn if it says that the
     watch is active.
     */
    method EnsureLate(startOk: bool, before: seq<Action>, between: seq<Action>)
      returns (available: bool, ghost o1: seq<Action>, ghost o2: seq<Action>)
      requires started
      modifies this
      ensures started && Drawn(o1, before) && Drawn(o2, between)
      ensures Valid(old(View()), o1) && available == Exec(old(View()), o1).active
      ensures var run := o1 + [Action.Ensure(startOk)] + o2;
              Valid(old(View()), run) && View() == Exec(old(View()), run)
      ensures !available ==> o2 == []
    {
      ghost var start := View();
      o1 := Others(before);
      o2 := [];
      ghost var run := o1 + [Action.Ensure(startOk)];
      Single(View(), Action.Ensure(startOk));
      Extend(start, o1, [Action.Ensure(startOk)]);
      available := Ensure(startOk);
      if available {
        o2 := Others(between);
        Extend(start, run, o2);
      } else {
        assert run + o2 == run;
      }
    }

    /** handleCacheInvalidated, once the lock is free. */
    method InvalidateLate(ghost start: State, ghost before: seq<Action>, late: seq<Action>)
      returns (ghost o3: seq<Action>)
      requires started && Valid(start, before) && View() == Exec(start, before)
      modifies this
      ensures started && Drawn(o3, late)
      ensures Valid(start, before + o3 + [Invalidate]) && View() == Exec(start, before + o3 + [Invalidate])
      ensures !active
    {
      o3 := Others(late);
      Extend(start, before, o3);
      Single(View(), Invalidate);
      Extend(start, before + o3, [Invalidate]);
      HandleCacheInvalidated();
    }

    /**
     TryGet with other goroutines running before, between and after its critical sections: it
     calls Ensure once, and invalidates the watch exactly when Ensure said that it is active and
     the read then found no informer. (true, _) means that at some instant of the call the watch
     was active, (false, nil) that at some instant it was not. The internal errors never escape.
     */
    method TryGet(startOk: bool, answer: GetAnswer, before: seq<Action>, between: seq<Action>, late: seq<Action>)
      returns (r: TryResult, ghost c: Call)
      requires started
      modifies this
      ensures started && Took(c, old(View()), startOk, before, between, late)
      ensures View() == Exec(old(View()), CallRun(c, startOk))
      ensures r == CallResult(c, answer)
      ensures if r.available then ActiveAt(old(View()), CallRun(c, startOk), Instant(c, startOk))
              else InactiveAt(old(View()), CallRun(c, startOk), Instant(c, startOk))
      ensures r.error != Some(CacheInvalidated) && r.error != Some(ResourceNotCached)
    {
      ghost var start := View();
      var ensured;
      ghost var o1, o2, o3;
      ensured, o1, o2 := EnsureLate(startOk, before, between);
      c := Call(o1, o2, [], ensured, false);
      if !ensured {
        CallsAreLinearisable(c, start, startOk, before, between, late);
        return TryResult(false, None, ""), c;
      }
      var readError := if informer then ErrorOf(answer) else Some(ResourceNotCached);
      if readError == Some(ResourceNotCached) {
        o3 := InvalidateLate(start, AtRead(c, startOk), late);
        c := Call(o1, o2, o3, true, true);
        readError := Some(CacheInvalidated);
      }
      CallsAreLinearisable(c, start, startOk, before, between, late);
      if readError == Some(CacheInvalidated) {
        return TryResult(false, None, ""), c;
      }
      return TryResult(true, readError, ContentOf(answer)), c;
    }

    /** TryList: as TryGet, and a (false, nil) result leaves the list empty with no remaining count. */
    method TryList(list: ObjectList, startOk: bool, answer: ListAnswer,
                   before: seq<Action>, between: seq<Action>, late: seq<Action>)
      returns (available: bool, error: Option<ReadError>, ghost c: Call)
      requires started
      modifies this, list
      ensures started && Took(c, old(View()), startOk, before, between, late)
      ensures View() == Exec(old(View()), CallRun(c, startOk))
      ensures available == (c.ensured && !c.missed)
      ensures if available then ActiveAt(old(View()), CallRun(c, startOk), Instant(c, startOk))
              else InactiveAt(old(View()), CallRun(c, startOk), Instant(c, startOk))
      ensures !available ==> error.None? && list.items == [] && list.remaining.None?
      ensures available ==> error == (if answer.Listed? then None else Some(Other(answer.message)))
      ensures available && answer.Listed? ==> list.items == answer.items && list.remaining == answer.remaining
      ensures available && answer.ListFailed? ==> list.items == old(list.items) && list.remaining == old(list.remaining)
    {
      ghost var start := View();
      var ensured;
      ghost var o1, o2, o3;
      ensured, o1, o2 := EnsureLate(startOk, before, between);
      c := Call(o1, o2, [], ensured, false);
      if !ensured {
        list.Clear();
        CallsAreLinearisable(c, start, startOk, before, between, late);
        return false, None, c;
      }
      if informer {
        CallsAreLinearisable(c, start, startOk, before, between, late);
        match answer
        case Listed(items, remaining) =>
          list.items, list.remaining := items, remaining;
          return true, None, c;
        case ListFailed(message) => return true, Some(Other(message)), c;
      }
      o3 := InvalidateLate(start, AtRead(c, startOk), late);
      c := Call(o1, o2, o3, true, true);
      CallsAreLinearisable(c, start, startOk, before, between, late);
      list.Clear();
      return false, None, c;
    }

    function Status(): WatcherStatus
      reads this
    {
      if !started then WatcherStatus(false, NotStarted)
      else if active then WatcherStatus(true, Reason.Ready)
      else if !crdExists then WatcherStatus(false, CRDNotFound)
      else if watching then WatcherStatus(false, Reason.Syncing)
      else WatcherStatus(false, Reason.Pending)
    }
  }
}

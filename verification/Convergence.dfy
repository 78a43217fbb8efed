/**
 What happens once CRD events and Widget edits have stopped, sources start, and current waiters
 sync. Events of the optional objects, status writes of others, deliveries to the cache and errors
 of reconciles may still come, in any number; every run ends soon after the last of them, in
 NotFound if the CRD is not known or a reader invalidates the watch, and otherwise in Ready or in
 Pending, depending on whether anybody came to register the watch.
 */
module Convergence {
  import opened Common
  import opened Protocol
  import opened ProtocolInvariants
  import opened System
  import opened Obligations
  import opened EndToEnd
  import opened Widgets
  import Calls
  import Informer

  /** A waiter's sync fails only when the waiter is stale. */
  predicate CalmAction(w: State, a: Action)
    requires Enabled(w, a)
  {
    match a
    case CrdEvent(_) => false
    case Decide(id, synced) => synced || w.waiters[id].generation != w.generation
    case _ => true
  }

  /**
   The controller's own steps, without errors: the one that cannot be helped is the patch of a
   Widget that was deleted during its reconcile.
   */
  ghost predicate CalmStep(s: Sys, step: Step) {
    Possible(s, step) &&
    match step
    case Edit(_, _) => false
    case Delete(_) => false
    case Foreign(_, _) => false
    case Refresh(_) => false
    case Enqueue(_) => false
    case CallEnsure(_, startOk) => startOk
    case Fail(k) => s.busy[k].Settled? && k !in s.widgets
    case Background(a) => CalmAction(s.w, a)
    case _ => true
  }

  /** What may still come from outside, and errors. */
  ghost predicate Noise(s: Sys, step: Step) {
    Possible(s, step) && (step.Enqueue? || step.Foreign? || step.Refresh? || step.Fail?)
  }

  ghost predicate NoisyRun(s: Sys, run: seq<Step>)
    decreases |run|
  {
    run == [] || ((CalmStep(s, run[0]) || Noise(s, run[0])) && NoisyRun(Stepped(s, run[0]), run[1..]))
  }

  ghost function NoiseIn(s: Sys, run: seq<Step>): nat
    requires NoisyRun(s, run)
    decreases |run|
  {
    if run == [] then 0 else (if CalmStep(s, run[0]) then 0 else 1) + NoiseIn(Stepped(s, run[0]), run[1..])
  }

  lemma {:induction false} NoisyRunsAreRuns(s: Sys, run: seq<Step>)
    requires NoisyRun(s, run)
    ensures ValidRun(s, run)
    decreases |run|
  {
    if run != [] {
      NoisyRunsAreRuns(Stepped(s, run[0]), run[1..]);
    }
  }

  /** Only noise could go on. */
  ghost predicate Finished(s: Sys) {
    forall step :: !CalmStep(s, step)
  }

  // ----- the measure

  /** The work a requeue of all parents can still cause, with at most `n` parents. */
  function ListWork(n: nat): nat {
    7 * n + 1
  }

  function PhaseWork(phase: Phase, n: nat): nat {
    match phase
    case Waiting => ListWork(n) + 2
    case Removing => ListWork(n) + 1
    case Listing(_) => ListWork(n)
    case Adding(_, left) => 7 * |left|
    case Finished => 0
  }

  /** Its source may still have the informer to create. */
  function WaiterWork(w: Waiter, n: nat): nat {
    PhaseWork(w.phase, n) + if w.created then 0 else 1
  }

  function WaitersWork(waiters: seq<Waiter>, n: nat): nat {
    if waiters == [] then 0 else WaiterWork(waiters[0], n) + WaitersWork(waiters[1..], n)
  }

  function TailWork(tail: Tail, n: nat): nat {
    match tail
    case Idle => 0
    case RemoveOwed(_) => ListWork(n) + 3
    case GaugeOwed => ListWork(n) + 2
    case CountOwed => ListWork(n) + 1
    case ListOwed(_) => ListWork(n)
    case AddOwed(_, rest) => 7 * |rest|
  }

  /** A registration may still happen, and brings a new waiter. */
  function RegistrationWork(w: State, n: nat): nat {
    if w.crdExists && !w.watching then ListWork(n) + 3 else 0
  }

  /** The reconcile of a deleted Widget may have to start over once. */
  function StageWork(stage: Stage, gone: bool): nat {
    match stage
    case Started => 5
    case Fetched(_) => 4 + if gone then 7 else 0
    case Reading(_) => 3 + if gone then 7 else 0
    case Missing(_) => 2 + if gone then 7 else 0
    case Settled(_, _) => 1 + if gone then 7 else 0
  }

  ghost function BusyWork(busy: map<Key, Stage>, present: set<Key>): nat
    decreases |busy|
  {
    if busy == map[] then 0
    else
      var k :| k in busy;
      StageWork(busy[k], k !in present) + BusyWork(busy - {k}, present)
  }

  ghost function ProtocolWork(w: State, n: nat): nat {
    WaitersWork(w.waiters, n) + TailWork(w.tail, n) + RegistrationWork(w, n)
  }

  ghost function Measure(s: Sys): nat {
    6 * |s.queue| + BusyWork(s.busy, s.widgets.Keys) + ProtocolWork(s.w, |s.widgets|)
  }

  lemma {:induction false} BusyWorkWithout(busy: map<Key, Stage>, present: set<Key>, k: Key)
    requires k in busy
    ensures BusyWork(busy, present) == StageWork(busy[k], k !in present) + BusyWork(busy - {k}, present)
    decreases |busy|
  {
    var x :| x in busy && BusyWork(busy, present) ==
                          StageWork(busy[x], x !in present) + BusyWork(busy - {x}, present);
    if x != k {
      BusyWorkWithout(busy - {x}, present, k);
      BusyWorkWithout(busy - {k}, present, x);
      assert busy - {x} - {k} == busy - {k} - {x};
    }
  }

  lemma BusyWorkAfter(busy: map<Key, Stage>, present: set<Key>, k: Key, stage: Stage)
    ensures BusyWork(busy[k := stage], present) == BusyWork(busy - {k}, present) + StageWork(stage, k !in present)
    ensures k in busy ==> BusyWork(busy, present) == BusyWork(busy - {k}, present) + StageWork(busy[k], k !in present)
    ensures k !in busy ==> busy - {k} == busy
  {
    BusyWorkWithout(busy[k := stage], present, k);
    assert busy[k := stage] - {k} == busy - {k};
    if k in busy {
      BusyWorkWithout(busy, present, k);
    }
  }

  lemma {:induction false} WaitersWorkAfter(waiters: seq<Waiter>, n: nat, i: nat, w: Waiter)
    requires i < |waiters|
    ensures WaitersWork(waiters[i := w], n) + WaiterWork(waiters[i], n) == WaitersWork(waiters, n) + WaiterWork(w, n)
  {
    if i > 0 {
      WaitersWorkAfter(waiters[1..], n, i - 1, w);
      assert waiters[i := w][1..] == waiters[1..][i - 1 := w];
    } else {
      assert waiters[i := w][1..] == waiters[1..];
    }
  }

  lemma {:induction false} WaitersWorkAppend(waiters: seq<Waiter>, n: nat, w: Waiter)
    ensures WaitersWork(waiters + [w], n) == WaitersWork(waiters, n) + WaiterWork(w, n)
  {
    if waiters == [] {
      assert waiters + [w] == [w];
      assert [w][1..] == [];
    } else {
      WaitersWorkAppend(waiters[1..], n, w);
      assert (waiters + [w])[1..] == waiters[1..] + [w];
    }
  }

  lemma WaitersWorkAfterCancel(waiters: seq<Waiter>, n: nat, cancel: Option<nat>)
    ensures WaitersWork(CancelWaiter(waiters, cancel), n) == WaitersWork(waiters, n)
  {
    if cancel.Some? && cancel.value < |waiters| {
      WaitersWorkAfter(waiters, n, cancel.value, waiters[cancel.value].(cancelled := true));
    }
  }

  // ----- every calm step does some of the work

  lemma EnsureWork(w: State, n: nat)
    ensures ProtocolWork(DoEnsure(w, true), n) <= ProtocolWork(w, n)
  {
    WaitersWorkAfterCancel(w.waiters, n, w.cancel);
    WaitersWorkAppend(CancelWaiter(w.waiters, w.cancel), n, Waiter(w.generation, false, Waiting, false));
  }

  lemma InvalidateWork(w: State, n: nat)
    ensures ProtocolWork(DoInvalidate(w), n) <= ProtocolWork(w, n)
  {
    WaitersWorkAfterCancel(w.waiters, n, w.cancel);
  }

  lemma SetPhaseWork(w: State, id: nat, phase: Phase, n: nat)
    requires id < |w.waiters|
    ensures ProtocolWork(SetPhase(w, id, phase), n) + PhaseWork(w.waiters[id].phase, n) ==
            ProtocolWork(w, n) + PhaseWork(phase, n)
  {
    WaitersWorkAfter(w.waiters, n, id, w.waiters[id].(phase := phase));
  }

  lemma DecideWork(w: State, id: nat, synced: bool, n: nat)
    requires Enabled(w, Decide(id, synced)) && CalmAction(w, Decide(id, synced))
    ensures ProtocolWork(DoDecide(w, id, synced), n) + 1 <= ProtocolWork(w, n)
  {
    SetPhaseWork(w, id, if w.waiters[id].generation != w.generation then Phase.Finished else Listing(true), n);
  }

  lemma CreateWork(w: State, id: nat, n: nat)
    requires Enabled(w, Create(id))
    ensures ProtocolWork(DoCreate(w, id), n) + 1 == ProtocolWork(w, n)
  {
    WaitersWorkAfter(w.waiters, n, id, w.waiters[id].(created := true));
  }

  predicate RequeueStep(a: Action) {
    a.WaiterRemove? || a.WaiterList? || a.WaiterAdd?
  }

  /** A step of a waiter's requeue pays for the request it adds, and for itself. */
  lemma RequeueStepWork(w: State, a: Action, n: nat)
    requires Enabled(w, a) && RequeueStep(a)
    requires a.WaiterList? ==> |a.parents| <= n
    ensures ProtocolWork(Apply(w, a), n) + (if Added(w, a).Some? then 7 else 1) <= ProtocolWork(w, n)
  {
    SetPhaseWork(w, a.id, Apply(w, a).waiters[a.id].phase, n);
  }

  /** And so does a step of the CRD event handler. */
  lemma HandlerStepWork(w: State, a: Action, n: nat)
    requires Enabled(w, a) && (a.TailRemove? || a.TailGauge? || a.TailCount? || a.TailList? || a.TailAdd?)
    requires a.TailList? ==> |a.parents| <= n
    ensures ProtocolWork(Apply(w, a), n) + (if Added(w, a).Some? then 7 else 1) <= ProtocolWork(w, n)
  {
  }

  lemma QueueGrows(queue: set<Key>, k: Key)
    ensures |queue + {k}| <= |queue| + 1
    ensures k in queue ==> |queue - {k}| == |queue| - 1
  {
    if k in queue {
      assert queue + {k} == queue;
    }
  }

  /** The steps of reconcilers. */
  lemma ReconcilerWork(s: Sys, step: Step)
    requires CalmStep(s, step) && !step.Background?
    ensures Stepped(s, step).widgets.Keys == s.widgets.Keys
    ensures 6 * |Stepped(s, step).queue| + BusyWork(Stepped(s, step).busy, s.widgets.Keys) <
            6 * |s.queue| + BusyWork(s.busy, s.widgets.Keys)
  {
    if step.Write? || (step.Fetch? && step.key !in s.widgets) || step.Fail? {
      LeavingWork(s, step);
    } else {
      StageStepWork(s, step);
    }
  }

  /** The steps that end a reconcile. */
  lemma LeavingWork(s: Sys, step: Step)
    requires CalmStep(s, step) && (step.Write? || (step.Fetch? && step.key !in s.widgets) || step.Fail?)
    ensures Stepped(s, step).widgets.Keys == s.widgets.Keys
    ensures 6 * |Stepped(s, step).queue| + BusyWork(Stepped(s, step).busy, s.widgets.Keys) <
            6 * |s.queue| + BusyWork(s.busy, s.widgets.Keys)
  {
    QueueGrows(s.queue, step.key);
    BusyWorkAfter(s.busy, s.widgets.Keys, step.key, Started);
    assert Stepped(s, step).busy == s.busy - {step.key};
  }

  /** The steps that lead to the next stage. */
  lemma StageStepWork(s: Sys, step: Step)
    requires CalmStep(s, step) && !step.Background? && !step.Write? && !step.Fail?
    requires step.Fetch? ==> step.key in s.widgets
    ensures Stepped(s, step).widgets.Keys == s.widgets.Keys
    ensures 6 * |Stepped(s, step).queue| + BusyWork(Stepped(s, step).busy, s.widgets.Keys) <
            6 * |s.queue| + BusyWork(s.busy, s.widgets.Keys)
  {
    var k, t := step.key, Stepped(s, step);
    QueueGrows(s.queue, k);
    BusyWorkAfter(s.busy, s.widgets.Keys, k, t.busy[k]);
    assert t.busy == s.busy[k := t.busy[k]];
  }

  /** No calm step adds to the protocol's work, and a background step pays for itself and for its request. */
  lemma CalmProtocolWork(s: Sys, step: Step)
    requires CalmStep(s, step)
    ensures ProtocolWork(Stepped(s, step).w, |s.widgets|) + Price(s, step) <= ProtocolWork(s.w, |s.widgets|)
  {
    var n := |s.widgets|;
    if step.Background? {
      if step.action.Decide? {
        DecideWork(s.w, step.action.id, step.action.synced, n);
      } else if step.action.Create? {
        CreateWork(s.w, step.action.id, n);
      } else if RequeueStep(step.action) {
        RequeueStepWork(s.w, step.action, n);
      } else {
        HandlerStepWork(s.w, step.action, n);
      }
    } else {
      EnsureWork(s.w, n);
      InvalidateWork(s.w, n);
    }
  }

  ghost function Price(s: Sys, step: Step): nat
    requires Possible(s, step)
  {
    if !step.Background? then 0 else if Added(s.w, step.action).Some? then 7 else 1
  }

  lemma CalmStepDecreases(s: Sys, step: Step)
    requires CalmStep(s, step)
    ensures Measure(Stepped(s, step)) < Measure(s)
    ensures Stepped(s, step).widgets.Keys == s.widgets.Keys
  {
    CalmProtocolWork(s, step);
    if step.Background? {
      if Added(s.w, step.action).Some? {
        QueueGrows(s.queue, Added(s.w, step.action).value);
      }
    } else {
      ReconcilerWork(s, step);
      assert |Stepped(s, step).widgets| == |Stepped(s, step).widgets.Keys| == |s.widgets|;
    }
  }

  /** Noise costs no more than the reconcile of one request. */
  lemma NoiseIncreases(s: Sys, step: Step)
    requires Noise(s, step)
    ensures Measure(Stepped(s, step)) <= Measure(s) + 6
    ensures Stepped(s, step).widgets.Keys == s.widgets.Keys
  {
    var t, k := Stepped(s, step), step.key;
    QueueGrows(s.queue, k);
    assert |t.widgets| == |t.widgets.Keys| && |s.widgets| == |s.widgets.Keys|;
    assert t.widgets.Keys == s.widgets.Keys;
    BusyWorkAfter(s.busy, s.widgets.Keys, k, Started);
  }

  /** From any state whatever, every run is over at most seven steps after each noise and the initial work. */
  lemma {:induction false} NoisyRunsAreFinite(s: Sys, run: seq<Step>)
    requires NoisyRun(s, run)
    ensures |run| <= Measure(s) + 7 * NoiseIn(s, run)
    decreases |run|
  {
    if run != [] {
      if CalmStep(s, run[0]) {
        CalmStepDecreases(s, run[0]);
      } else {
        NoiseIncreases(s, run[0]);
      }
      NoisyRunsAreFinite(Stepped(s, run[0]), run[1..]);
    }
  }

  /** And can be continued, without noise, until no calm step is left. */
  lemma {:induction false} CalmRunsCanFinish(s: Sys) returns (run: seq<Step>)
    ensures NoisyRun(s, run) && NoiseIn(s, run) == 0 && ValidRun(s, run) && Finished(ExecRun(s, run))
    decreases Measure(s)
  {
    if step :| CalmStep(s, step) {
      CalmStepDecreases(s, step);
      var rest := CalmRunsCanFinish(Stepped(s, step));
      run := [step] + rest;
      assert run[1..] == rest;
    } else {
      run := [];
    }
  }

  // ----- where the runs end

  /** Waiter `i`, of whatever generation, is going to add `k`, if `k` is a parent. */
  predicate WillAdd(w: State, i: nat, k: Key) {
    && i < |w.waiters|
    && match w.waiters[i].phase
       case Removing => true
       case Listing(_) => true
       case Adding(_, left) => k in left
       case _ => false
  }

  ghost predicate Summoned(s: Sys, k: Key) {
    Queued(s, k) || HandlerOwes(s.w, true, k) || exists i: nat :: WillAdd(s.w, i, k)
  }

  /** The reconcile of `k` is going to call Ensure. */
  ghost predicate Approaches(s: Sys, k: Key) {
    (k in s.busy && s.busy[k].Fetched?) || (IsParent(s, k) && Summoned(s, k))
  }

  /** The watch is registered, or some reconcile is going to call Ensure. */
  ghost predicate Coming(s: Sys) {
    s.w.watching || exists k :: Approaches(s, k)
  }

  lemma ParentsStay(s: Sys, step: Step, k: Key)
    requires CalmStep(s, step)
    ensures IsParent(Stepped(s, step), k) <==> IsParent(s, k)
  {
    CalmStepDecreases(s, step);
    assert k in Stepped(s, step).widgets.Keys <==> k in s.widgets.Keys;
  }

  /** A calm step other than an invalidation leaves a registered watch alone, and a call of Ensure registers one. */
  lemma WatchStays(s: Sys, step: Step)
    requires SysInv(s) && s.w.crdExists && CalmStep(s, step) && !step.CallInvalidate?
    ensures s.w.watching || step.CallEnsure? ==> Stepped(s, step).w.watching
    ensures Stepped(s, step).w.watching ==> s.w.watching || step.CallEnsure?
  {
    ProtocolPart(s, step);
    if step.Background? && step.action.Decide? && s.w.waiters[step.action.id].generation == s.w.generation {
      assert Current(s.w, step.action.id);
    }
  }

  lemma WillAddKept(w: State, a: Action, i: nat, k: Key)
    requires Enabled(w, a) && WillAdd(w, i, k) && (a.WaiterList? ==> k in a.parents)
    ensures WillAdd(Apply(w, a), i, k) || Added(w, a) == Some(k)
  {
    if !WaiterAction(a, i) {
      PhaseBelongsToWaiter(w, a, i);
    } else if a.WaiterAdd? {
      var left := w.waiters[i].phase.left;
      assert left == [left[0]] + left[1..];
    }
  }

  /** A summons gets through, as far as the call of Ensure. */
  lemma SummonedKept(s: Sys, step: Step, k: Key)
    requires CalmStep(s, step) && IsParent(s, k) && Summoned(s, k)
    ensures Summoned(Stepped(s, step), k) || (step.CallEnsure? && step.key == k)
  {
    var t := Stepped(s, step);
    ParentsStay(s, step, k);
    ProtocolPart(s, step);
    if Queued(s, k) {
      QueuedKept(s, step, k);
    } else if ActionIn(step).Some? {
      DebtsKept(s, step, k);
      forall i: nat | WillAdd(s.w, i, k) ensures WillAdd(t.w, i, k) || Queued(t, k) {
        WillAddKept(s.w, ActionIn(step).value, i, k);
        if step.Background? && Added(s.w, step.action) == Some(k) {
          AddedIsQueued(s, step, k);
        }
      }
    }
  }

  lemma ComingKept(s: Sys, step: Step)
    requires SysInv(s) && s.w.crdExists && CalmStep(s, step) && !step.CallInvalidate? && Coming(s)
    ensures Coming(Stepped(s, step))
  {
    WatchStays(s, step);
    if !Stepped(s, step).w.watching {
      var k :| Approaches(s, k);
      if k in s.busy && s.busy[k].Fetched? {
        assert Approaches(Stepped(s, step), k);
      } else {
        SummonedKept(s, step, k);
        ParentsStay(s, step, k);
        assert Approaches(Stepped(s, step), k);
      }
    }
  }

  /** Nobody is summoned out of the blue. */
  lemma SummonedByNobody(w: State, a: Action, k: Key)
    requires Inv(w) && w.crdExists && Enabled(w, a) && !a.Ensure? && CalmAction(w, a) && !a.Invalidate?
    requires !w.watching && !HandlerOwes(w, true, k) && forall i: nat :: !WillAdd(w, i, k)
    ensures !HandlerOwes(Apply(w, a), true, k) && (forall i: nat :: !WillAdd(Apply(w, a), i, k))
    ensures Added(w, a) != Some(k)
  {
    if a.Decide? {
      assert Current(w, a.id) <==> w.waiters[a.id].generation == w.generation;
    }
    if a.TailAdd? {
      assert w.tail.rest[0] in w.tail.rest;
    }
    forall i: nat ensures !WillAdd(Apply(w, a), i, k) {
      assert !WillAdd(w, i, k);
      if i < |w.waiters| && !WaiterAction(a, i) {
        PhaseBelongsToWaiter(w, a, i);
      }
    }
    if a.WaiterAdd? {
      assert !WillAdd(w, a.id, k);
    }
  }

  lemma CallerComes(s: Sys, step: Step)
    requires Possible(s, step)
    ensures step.CallEnsure? ==> Coming(s)
  {
    if step.CallEnsure? {
      assert Approaches(s, step.key);
    }
  }

  lemma NotComingKept(s: Sys, step: Step)
    requires SysInv(s) && s.w.crdExists && CalmStep(s, step) && !step.CallInvalidate? && !Coming(s)
    ensures !Coming(Stepped(s, step))
  {
    var t := Stepped(s, step);
    WatchStays(s, step);
    CallerComes(s, step);
    forall k ensures !Approaches(t, k) {
      assert !Approaches(s, k);
      ParentsStay(s, step, k);
      if step.Background? && IsParent(s, k) {
        SummonedByNobody(s.w, step.action, k);
      }
    }
  }

  /** A request on the queue, or an error that puts the key back, brings a parent, and leaves nobody behind. */
  lemma RequeueDecides(s: Sys, step: Step)
    requires Possible(s, step) && (step.Enqueue? || step.Fail?)
    ensures Coming(Stepped(s, step)) <==> Coming(s) || IsParent(s, step.key)
  {
    var u := Stepped(s, step);
    if IsParent(s, step.key) {
      assert Approaches(u, step.key);
    } else {
      forall k ensures Approaches(u, k) <==> Approaches(s, k) {
      }
    }
  }

  /** A change of a status, or its delivery, brings nobody. */
  lemma StatusDecidesNothing(s: Sys, step: Step)
    requires Possible(s, step) && (step.Foreign? || step.Refresh?)
    ensures Coming(Stepped(s, step)) <==> Coming(s)
  {
    forall k ensures Approaches(Stepped(s, step), k) <==> Approaches(s, k) {
    }
  }

  /** The step brings a parent to the queue from outside. */
  predicate Brings(s: Sys, step: Step) {
    (step.Enqueue? || step.Fail?) && IsParent(s, step.key)
  }

  /**
   One step decides everything: the CRD is lost by an invalidation and by nothing else, and while
   it is known somebody is coming after the step exactly when somebody was before, or the step
   brings somebody.
   */
  lemma StepDecides(s: Sys, step: Step)
    requires SysInv(s) && (CalmStep(s, step) || Noise(s, step))
    ensures var u := Stepped(s, step);
            && (u.w.crdExists <==> s.w.crdExists && !step.CallInvalidate?)
            && (u.w.crdExists ==> (Coming(u) <==> Coming(s) || Brings(s, step)))
            && (forall k :: IsParent(u, k) <==> IsParent(s, k))
  {
    var u := Stepped(s, step);
    ProtocolPart(s, step);
    if step.Enqueue? || step.Fail? {
      RequeueDecides(s, step);
    } else if step.Foreign? || step.Refresh? {
      StatusDecidesNothing(s, step);
    } else {
      forall k ensures IsParent(u, k) <==> IsParent(s, k) {
        ParentsStay(s, step, k);
      }
      if u.w.crdExists {
        if Coming(s) {
          ComingKept(s, step);
        } else {
          NotComingKept(s, step);
        }
      }
    }
  }

  /** A reader found the informer missing and invalidates the watch. */
  predicate Invalidates(run: seq<Step>) {
    run != [] && (run[0].CallInvalidate? || Invalidates(run[1..]))
  }

  /** Some step of the run brings a parent from outside. */
  ghost predicate BringsDuring(s: Sys, run: seq<Step>)
    requires ValidRun(s, run)
    decreases |run|
  {
    run != [] && (Brings(s, run[0]) || BringsDuring(Stepped(s, run[0]), run[1..]))
  }

  lemma {:induction false} RunDecides(s: Sys, run: seq<Step>)
    requires SysInv(s) && NoisyRun(s, run) && ValidRun(s, run)
    ensures SysInv(ExecRun(s, run))
    ensures ExecRun(s, run).w.crdExists <==> s.w.crdExists && !Invalidates(run)
    ensures ExecRun(s, run).w.crdExists ==> (Coming(ExecRun(s, run)) <==> Coming(s) || BringsDuring(s, run))
    ensures forall k :: IsParent(ExecRun(s, run), k) <==> IsParent(s, k)
    decreases |run|
  {
    if run != [] {
      SysInvKept(s, run[0]);
      StepDecides(s, run[0]);
      RunDecides(Stepped(s, run[0]), run[1..]);
    }
  }

  lemma CompleteListExists(s: Sys) returns (parents: seq<Key>)
    ensures Complete(s, parents)
  {
    var left := set k | k in s.widgets && IsParent(s, k);
    assert left <= s.widgets.Keys;
    SubsetSize(left, s.widgets.Keys);
    parents := [];
    while left != {}
      invariant forall k :: k in parents || k in left <==> IsParent(s, k)
      invariant |parents| + |left| <= |s.widgets|
      decreases |left|
    {
      var k :| k in left;
      left := left - {k};
      parents := parents + [k];
    }
  }

  lemma {:induction false} SubsetSize(a: set<Key>, b: set<Key>)
    requires a <= b
    ensures |a| <= |b|
    decreases |a|
  {
    if a != {} {
      var k :| k in a;
      SubsetSize(a - {k}, b - {k});
    }
  }

  /** While a reconcile is in progress, some step of it is possible. */
  lemma BusyCanStep(s: Sys, k: Key)
    requires k in s.busy
    ensures exists step :: CalmStep(s, step)
  {
    match s.busy[k]
    case Started => assert CalmStep(s, Fetch(k));
    case Fetched(_) => assert CalmStep(s, CallEnsure(k, true));
    case Reading(_) => assert CalmStep(s, ReadCache(k, None));
    case Missing(_) => assert CalmStep(s, CallInvalidate(k));
    case Settled(snap, _) =>
      var other := if Ref(OtherHalf(s.half), snap.spec) == "" then NoRef else Unavailable;
      if k in s.widgets {
        assert CalmStep(s, Write(k, other, 0));
      } else {
        assert CalmStep(s, Fail(k));
      }
  }

  lemma WaiterCanStep(s: Sys, i: nat)
    requires TidyInv(s.w) && i < |s.w.waiters| && !s.w.waiters[i].phase.Finished?
    ensures exists a :: CalmStep(s, Background(a))
  {
    match s.w.waiters[i].phase
    case Waiting =>
      if s.w.waiters[i].created {
        assert CalmStep(s, Background(Decide(i, true)));
      } else {
        assert CalmStep(s, Background(Create(i)));
      }
    case Removing => assert CalmStep(s, Background(WaiterRemove(i, true)));
    case Listing(_) =>
      var parents := CompleteListExists(s);
      assert CalmStep(s, Background(WaiterList(i, parents)));
    case Adding(_, _) => assert CalmStep(s, Background(WaiterAdd(i)));
  }

  lemma HandlerCanStep(s: Sys)
    requires TidyInv(s.w) && !s.w.tail.Idle?
    ensures exists a :: CalmStep(s, Background(a))
  {
    match s.w.tail
    case RemoveOwed(_) => assert CalmStep(s, Background(TailRemove(true)));
    case GaugeOwed => assert CalmStep(s, Background(TailGauge));
    case CountOwed => assert CalmStep(s, Background(TailCount));
    case ListOwed(_) =>
      var parents := CompleteListExists(s);
      assert CalmStep(s, Background(TailList(parents)));
    case AddOwed(_, _) => assert CalmStep(s, Background(TailAdd));
  }

  /** The watcher's goroutines have nothing left to do. */
  predicate Idling(w: State) {
    w.tail.Idle? && forall i :: 0 <= i < |w.waiters| ==> w.waiters[i].phase.Finished?
  }

  lemma BackgroundExhausted(s: Sys)
    requires TidyInv(s.w) && forall a :: !CalmStep(s, Background(a))
    ensures Idling(s.w)
  {
    if !s.w.tail.Idle? {
      HandlerCanStep(s);
    }
    forall i | 0 <= i < |s.w.waiters| ensures s.w.waiters[i].phase.Finished? {
      if !s.w.waiters[i].phase.Finished? {
        WaiterCanStep(s, i);
      }
    }
  }

  /** When no calm step is left the controller is at rest, and no waiter is waiting either. */
  lemma FinishedMeansAtRest(s: Sys)
    requires TidyInv(s.w) && Finished(s)
    ensures Quiescent(s) && Idling(s.w)
  {
    if k :| k in s.queue {
      if k in s.busy {
        BusyCanStep(s, k);
      } else {
        assert CalmStep(s, Dequeue(k));
      }
    }
    if k :| k in s.busy {
      BusyCanStep(s, k);
    }
    BackgroundExhausted(s);
  }

  /** Nobody is coming in a state at rest exactly when no watch is registered. */
  lemma ComingAtRest(s: Sys)
    requires Quiescent(s)
    ensures Coming(s) <==> s.w.watching
  {
    forall k ensures !Approaches(s, k) {
      NobodyOwes(s, k);
    }
  }

  /**
   What the parent knows. In Ready it was told that the type is available, in Pending its last Ensure
   failed to start the source, and its status says so unless its last reconcile was skewed. In
   NotFound its status is right under the condition that StatusTellsAvailability names.
   */
  predicate KnowsFate(s: Sys, k: Key)
    requires k in s.widgets
  {
    match LifecycleOf(s.w)
    case Ready => k in s.sights && s.sights[k].available && (SaysUnavailable(s, k) <==> k in s.skewed)
    case Pending => k in s.sights && s.sights[k].startFailed && (SaysUnavailable(s, k) <==> k !in s.skewed)
    case NotFound => SaysUnavailable(s, k) <==> (Stranded(s, k) <==> k in s.skewed)
    case Syncing => false
  }

  /** At rest nobody is waiting for a sync, and the parents know how the watch stands. */
  lemma RestTellsFate(s: Sys)
    requires SysInv(s) && Quiescent(s) && Idling(s.w)
    ensures LifecycleOf(s.w) ==
            if !s.w.crdExists then Lifecycle.NotFound else if Coming(s) then Ready else Pending
    ensures forall k :: IsParent(s, k) ==> KnowsFate(s, k)
  {
    ComingAtRest(s);
    assert s.w.cancel.None?;
    forall k | IsParent(s, k) ensures KnowsFate(s, k) {
      NobodyOwes(s, k);
      assert RestingAt(s, k) && AwakeAt(s, k) && CurrentAt(s, k) && PendingAt(s, k) && SightAt(s, k);
    }
  }

  /** What becomes of the watch along a run. */
  ghost function Fate(s: Sys, run: seq<Step>): Lifecycle
    requires ValidRun(s, run)
  {
    if !s.w.crdExists || Invalidates(run) then Lifecycle.NotFound
    else if Coming(s) || BringsDuring(s, run) then Ready
    else Pending
  }

  /**
   Convergence: from any reachable state every run is bounded by the work at its beginning and the
   noise on its way; and whenever the controller has no step of its own left, the watch is in the
   state that the beginning and the run decide, never in Syncing: NotFound when the CRD was not
   known or a reader invalidated the watch, otherwise Ready when the watch was registered or
   somebody was coming to register it or came on the way, and Pending when nobody did.
   */
  lemma Convergence(s: Sys, run: seq<Step>)
    requires ReachableSys(s) && NoisyRun(s, run)
    ensures |run| <= Measure(s) + 7 * NoiseIn(s, run) && ValidRun(s, run)
    ensures var t := ExecRun(s, run);
            Finished(t) ==>
              && LifecycleOf(t.w) == Fate(s, run)
              && forall k :: IsParent(s, k) ==> IsParent(t, k) && KnowsFate(t, k)
  {
    ReachableSysInv(s);
    NoisyRunsAreFinite(s, run);
    NoisyRunsAreRuns(s, run);
    RunDecides(s, run);
    var t := ExecRun(s, run);
    if Finished(t) {
      FinishedMeansAtRest(t);
      RestTellsFate(t);
      assert forall k :: IsParent(s, k) ==> IsParent(t, k);
    }
  }

  // ----- when no run can meet an invalidation

  /**
   The CRD is known, and nothing left over from before can spoil the watch: no RemoveInformer of
   a failed sync is owed, and no reader has found or can find the informer missing.
   */
  predicate Undisturbed(s: Sys) {
    && UndisturbedWatch(s.w)
    && (forall k :: k in s.busy ==> !s.busy[k].Missing? && (s.busy[k].Reading? ==> s.w.informer))
  }

  predicate UndisturbedWatch(w: State) {
    && w.crdExists
    && Informer.InformerBacksWatch(w)
    && Informer.NoRemovalOwed(w)
  }

  lemma BackgroundUndisturbed(w: State, a: Action)
    requires Inv(w) && UndisturbedWatch(w) && Enabled(w, a) && CalmAction(w, a) && !a.Invalidate?
    ensures UndisturbedWatch(Apply(w, a)) && (w.informer ==> Apply(w, a).informer)
  {
    Informer.BackingStep(w, a);
    if a.Decide? && w.waiters[a.id].generation == w.generation {
      assert Current(w, a.id);
    }
  }

  lemma UndisturbedKept(s: Sys, step: Step)
    requires SysInv(s) && Informer.OwnInv(s.w) && Undisturbed(s) && (CalmStep(s, step) || Noise(s, step))
    ensures Undisturbed(Stepped(s, step)) && Informer.OwnInv(Stepped(s, step).w)
  {
    ProtocolPart(s, step);
    if ActionIn(step).Some? {
      Informer.OwnKept(s.w, ActionIn(step).value);
      if !step.CallInvalidate? {
        BackgroundUndisturbed(s.w, ActionIn(step).value);
      }
    }
  }

  lemma {:induction false} UndisturbedAlongRun(s: Sys, run: seq<Step>)
    requires SysInv(s) && Informer.OwnInv(s.w) && Undisturbed(s) && NoisyRun(s, run)
    ensures !Invalidates(run)
    decreases |run|
  {
    if run != [] {
      SysInvKept(s, run[0]);
      UndisturbedKept(s, run[0]);
      UndisturbedAlongRun(Stepped(s, run[0]), run[1..]);
    }
  }

  /** From a reachable undisturbed state no such run meets an invalidation. */
  lemma UndisturbedRunsKeepTheWatch(s: Sys, run: seq<Step>)
    requires ReachableSys(s) && Undisturbed(s) && NoisyRun(s, run)
    ensures !Invalidates(run)
  {
    ReachableSysInv(s);
    Calls.WatcherOfReachableSys(s);
    Informer.ReachableOwn(s.w);
    UndisturbedAlongRun(s, run);
  }
}

/**
 Who owes a parent its next reconcile. The requeue of a parent passes from the critical section
 that causes it through the listing and the adding to the queue; no other step loses it.
 */
module Obligations {
  import opened Common
  import opened Protocol
  import opened ProtocolInvariants
  import opened ProtocolHistory
  import opened System
  import opened Widgets

  /** Waiter `i`, of the current generation, still owes `k` a queue.Add after promoting or after failing. */
  predicate WaiterOwes(w: State, i: nat, promoted: bool, k: Key) {
    && i < |w.waiters|
    && w.waiters[i].generation == w.generation
    && match w.waiters[i].phase
       case Removing => !promoted
       case Listing(p) => p == promoted
       case Adding(p, left) => p == promoted && k in left
       case _ => false
  }

  /** onCRDChange still owes `k` a queue.Add, for an appeared or for a torn down CRD. */
  predicate HandlerOwes(w: State, appeared: bool, k: Key) {
    match w.tail
    case Idle => false
    case RemoveOwed(wasReady) => wasReady && !appeared
    case GaugeOwed => !appeared
    case CountOwed => !appeared
    case ListOwed(a) => a == appeared
    case AddOwed(a, rest) => a == appeared && k in rest
  }

  lemma WaiterDebtKept(w: State, a: Action, i: nat, promoted: bool, k: Key)
    requires Enabled(w, a) && WaiterOwes(w, i, promoted, k)
    requires Apply(w, a).generation == w.generation
    requires a.WaiterList? ==> k in a.parents
    ensures WaiterOwes(Apply(w, a), i, promoted, k) || Added(w, a) == Some(k)
  {
    if !WaiterAction(a, i) {
      PhaseBelongsToWaiter(w, a, i);
    } else if a.WaiterAdd? {
      var left := w.waiters[i].phase.left;
      assert left == [left[0]] + left[1..];
    }
  }

  lemma HandlerDebtKept(w: State, a: Action, appeared: bool, k: Key)
    requires Enabled(w, a) && HandlerOwes(w, appeared, k)
    requires a.TailList? ==> k in a.parents
    ensures HandlerOwes(Apply(w, a), appeared, k) || Added(w, a) == Some(k)
  {
  }

  /** `k` is in the queue, or its reconcile has not called Ensure yet. */
  predicate Queued(s: Sys, k: Key) {
    k in s.queue || (k in s.busy && (s.busy[k].Started? || s.busy[k].Fetched?))
  }

  ghost predicate PromoterOwes(s: Sys, k: Key) {
    exists i: nat :: WaiterOwes(s.w, i, true, k)
  }

  ghost predicate FailureOwes(s: Sys, k: Key) {
    exists i: nat :: WaiterOwes(s.w, i, false, k)
  }

  // ----- the invariants, parent by parent

  /** What `k` was last told does not describe an active watch: it was unavailable then, or lost since. */
  predicate Outdated(s: Sys, k: Key) {
    k in s.sights && (!s.sights[k].available || Losses(s.w) > s.sights[k].losses)
  }

  /** No lost wake-up. */
  ghost predicate AwakeAt(s: Sys, k: Key) {
    IsParent(s, k) && Outdated(s, k) && s.w.active ==> Queued(s, k) || PromoterOwes(s, k)
  }

  /** No stale availability, save by an invalidation that found the watch active. */
  predicate CurrentAt(s: Sys, k: Key) {
    IsParent(s, k) && k in s.sights && s.sights[k].available && !s.w.active
    ==> Queued(s, k) || HandlerOwes(s.w, false, k) || Losses(s.w) > s.sights[k].losses
  }

  /** Nobody is forgotten in Pending, save after a source start that failed. */
  ghost predicate PendingAt(s: Sys, k: Key) {
    IsParent(s, k) && s.w.crdExists && !s.w.watching
    ==> Queued(s, k) || HandlerOwes(s.w, true, k) || FailureOwes(s, k) || (k in s.sights && s.sights[k].startFailed)
  }

  /** What a reconcile in progress knows is what the parent was last told. */
  predicate StageAt(s: Sys, k: Key) {
    k in s.busy ==>
      match s.busy[k]
      case Started => true
      case Fetched(snap) => Ref(s.half, snap.spec) != ""
      case Reading(snap) => Ref(s.half, snap.spec) != "" && k in s.sights && s.sights[k].available
      case Missing(snap) => Ref(s.half, snap.spec) != "" && k in s.sights && s.sights[k].available
      case Settled(snap, o) =>
        && (o.NoRef? <==> Ref(s.half, snap.spec) == "")
        && (!o.NoRef? ==> k in s.sights && (o.Unavailable? <==> !s.sights[k].available))
  }

  /** A snapshot whose spec is out of date has its key in the queue. */
  predicate FreshAt(s: Sys, k: Key) {
    k in s.busy && !s.busy[k].Started? && k in s.widgets && k !in s.queue
    ==> s.busy[k].snap.spec == s.widgets[k].spec
  }

  predicate SaysUnavailable(s: Sys, k: Key)
    requires k in s.widgets
  {
    TellsUnavailable(s.half, s.widgets[k].status)
  }

  /** A parent at rest shows in its status what it was last told, unless its last reconcile was skewed. */
  predicate RestingAt(s: Sys, k: Key) {
    IsParent(s, k) && k !in s.queue && k !in s.busy
    ==> k in s.sights && ((SaysUnavailable(s, k) <==> !s.sights[k].available) <==> k !in s.skewed)
  }

  predicate SightAt(s: Sys, k: Key) {
    k in s.sights ==> s.sights[k].losses <= Losses(s.w) && !(s.sights[k].available && s.sights[k].startFailed)
  }

  /** A goroutine that is adding requests has some left to add. */
  predicate TidyInv(w: State) {
    && (w.tail.AddOwed? ==> w.tail.rest != [])
    && forall i :: 0 <= i < |w.waiters| && w.waiters[i].phase.Adding? ==> w.waiters[i].phase.left != []
  }

  ghost predicate SysInv(s: Sys) {
    && Inv(s.w)
    && TidyInv(s.w)
    && (forall k :: SightAt(s, k))
    && (forall k :: StageAt(s, k))
    && (forall k :: FreshAt(s, k))
    && (forall k :: RestingAt(s, k))
    && (forall k :: AwakeAt(s, k))
    && (forall k :: CurrentAt(s, k))
    && (forall k :: PendingAt(s, k))
  }

  // ----- what enqueues

  /** A new spec and a deletion enqueue the Widget; a status, whoever writes it, and its delivery do not. */
  lemma OnlySpecsEnqueue(s: Sys, step: Step)
    requires Possible(s, step)
    ensures step.Edit? || step.Delete? ==> Stepped(s, step).queue == s.queue + {step.key}
    ensures step.Write? || step.Foreign? || step.Refresh? ==> Stepped(s, step).queue == s.queue
  {
  }

  // ----- preservation

  lemma ProtocolPart(s: Sys, step: Step)
    requires Possible(s, step)
    ensures match ActionIn(step)
            case None => Stepped(s, step).w == s.w
            case Some(a) => Enabled(s.w, a) && Stepped(s, step).w == Apply(s.w, a)
  {
  }

  lemma InvKept(s: Sys, step: Step)
    requires Inv(s.w) && Possible(s, step)
    ensures Inv(Stepped(s, step).w)
  {
    ProtocolPart(s, step);
    if ActionIn(step).Some? {
      FlagsPreserved(s.w, ActionIn(step).value);
      WaitersPreserved(s.w, ActionIn(step).value);
    }
  }

  lemma TidyKept(w: State, a: Action)
    requires Enabled(w, a) && TidyInv(w)
    ensures TidyInv(Apply(w, a))
  {
    var t := Apply(w, a);
    forall i | 0 <= i < |t.waiters| && t.waiters[i].phase.Adding? ensures t.waiters[i].phase.left != [] {
      if i < |w.waiters| && !WaiterAction(a, i) {
        PhaseBelongsToWaiter(w, a, i);
      }
    }
  }

  /** Invalidations that found the watch active are only ever added to the history. */
  lemma LossesGrow(s: Sys, step: Step)
    requires Possible(s, step)
    ensures Losses(Stepped(s, step).w) ==
            Losses(s.w) + if step.CallInvalidate? && s.w.active then 1 else 0
  {
    ProtocolPart(s, step);
    if ActionIn(step).Some? {
      var a := ActionIn(step).value;
      TallyStep(s.w, a);
      LossIsLogged(s.w, a, Tally(s.w.log));
    }
  }

  lemma LossIsLogged(w: State, a: Action, c: Tallies)
    requires Enabled(w, a)
    ensures CountLogged(c, Logged(w, a)).readyLosses == c.readyLosses + if a.Invalidate? && w.active then 1 else 0
  {
  }

  lemma SightKept(s: Sys, step: Step, k: Key)
    requires Possible(s, step) && SightAt(s, k)
    ensures SightAt(Stepped(s, step), k)
  {
    LossesGrow(s, step);
  }

  lemma StageKept(s: Sys, step: Step, k: Key)
    requires Possible(s, step) && StageAt(s, k)
    ensures StageAt(Stepped(s, step), k)
  {
  }

  lemma FreshKept(s: Sys, step: Step, k: Key)
    requires Possible(s, step) && FreshAt(s, k)
    ensures FreshAt(Stepped(s, step), k)
  {
  }

  /**
   After a write the condition of this half says what the reconcile found, whatever the read it
   started from was, exactly when the reconcile is not skewed.
   */
  lemma WriteShowsOutcome(s: Sys, k: Key, other: Outcome, now: int)
    requires Possible(s, Write(k, other, now)) && k in s.widgets && !s.busy[k].outcome.NoRef?
    ensures var t := Stepped(s, Write(k, other, now));
            (SaysUnavailable(t, k) <==> s.busy[k].outcome.Unavailable?) <==> k !in t.skewed
  {
    var snap, mine := s.busy[k].snap, s.busy[k].outcome;
    var after := StatusFor(s.half, snap, mine, other, now);
    var plugin, theme := if s.half == Plugin then mine else other, if s.half == Plugin then other else mine;
    assert after == ReconciledStatus(snap, plugin, theme, now);
    OutcomeTold(s.half, snap, plugin, theme, now);
    PatchTells(s.half, s.widgets[k].status, snap.status, after);
  }

  lemma OutcomeTold(h: Half, snap: Widget, plugin: Outcome, theme: Outcome, now: int)
    ensures var mine := if h == Plugin then plugin else theme;
            TellsUnavailable(h, ReconciledStatus(snap, plugin, theme, now)) <==> mine.Unavailable?
  {
    ReconciledReason(snap, plugin, theme, now);
    ReasonsDiffer(h);
  }

  /** What the patched status says is what the reconcile computed, unless it is skewed. */
  lemma PatchTells(h: Half, current: Status, snap: Status, after: Status)
    ensures (TellsUnavailable(h, Patched(current, snap, after)) <==> TellsUnavailable(h, after)) <==>
            !Skews(h, current, snap, after)
  {
  }

  /** A reconcile whose read agrees with the current status is never skewed, so staleness is the only cause. */
  lemma SkewTakesStaleRead(s: Sys, k: Key, other: Outcome, now: int)
    requires Possible(s, Write(k, other, now)) && k in s.widgets
    requires ConditionFor(s.half, s.busy[k].snap) == ConditionFor(s.half, s.widgets[k])
    ensures k !in Stepped(s, Write(k, other, now)).skewed
  {
  }

  lemma RestingKept(s: Sys, step: Step, k: Key)
    requires Possible(s, step) && RestingAt(s, k) && StageAt(s, k) && FreshAt(s, k)
    ensures RestingAt(Stepped(s, step), k)
  {
    if step.Write? && step.key == k && IsParent(s, k) && k !in s.queue {
      WriteShowsOutcome(s, k, step.other, step.now);
    }
  }

  /** A key that waits for its Ensure keeps waiting until it calls it or stops being a parent. */
  lemma QueuedKept(s: Sys, step: Step, k: Key)
    requires Possible(s, step) && Queued(s, k)
    ensures Queued(Stepped(s, step), k)
            || (step.CallEnsure? && step.key == k)
            || (step.Fetch? && step.key == k && !IsParent(Stepped(s, step), k))
  {
  }

  lemma NewParentsAreQueued(s: Sys, step: Step, k: Key)
    requires Possible(s, step) && IsParent(Stepped(s, step), k)
    ensures IsParent(s, k) || Queued(Stepped(s, step), k)
  {
  }

  lemma AddedIsQueued(s: Sys, step: Step, k: Key)
    requires Possible(s, step) && step.Background? && Added(s.w, step.action) == Some(k)
    ensures Queued(Stepped(s, step), k)
  {
  }

  /** The steps that are neither a critical section of the watcher nor an operation of its goroutines. */
  lemma OutsideSteps(s: Sys, step: Step, k: Key)
    requires Possible(s, step) && ActionIn(step).None? && IsParent(Stepped(s, step), k)
    ensures Stepped(s, step).w == s.w
    ensures k in Stepped(s, step).sights <==> k in s.sights
    ensures k in s.sights ==> Stepped(s, step).sights[k] == s.sights[k]
    ensures IsParent(s, k) && Queued(s, k) ==> Queued(Stepped(s, step), k)
    ensures !IsParent(s, k) ==> Queued(Stepped(s, step), k)
  {
    NewParentsAreQueued(s, step, k);
    if IsParent(s, k) && Queued(s, k) {
      QueuedKept(s, step, k);
    }
  }

  /** Debts survive every step of a goroutine or of a reconciler within one generation. */
  lemma DebtsKept(s: Sys, step: Step, k: Key)
    requires Possible(s, step) && ActionIn(step).Some? && IsParent(s, k)
    ensures var t := Stepped(s, step);
            && (HandlerOwes(s.w, false, k) ==> HandlerOwes(t.w, false, k) || Queued(t, k))
            && (HandlerOwes(s.w, true, k) ==> HandlerOwes(t.w, true, k) || Queued(t, k))
            && (t.w.generation == s.w.generation && PromoterOwes(s, k) ==> PromoterOwes(t, k) || Queued(t, k))
            && (t.w.generation == s.w.generation && FailureOwes(s, k) ==> FailureOwes(t, k) || Queued(t, k))
  {
    var t, a := Stepped(s, step), ActionIn(step).value;
    ProtocolPart(s, step);
    if Added(s.w, a) == Some(k) {
      AddedIsQueued(s, step, k);
    }
    forall appeared | HandlerOwes(s.w, appeared, k) ensures HandlerOwes(t.w, appeared, k) || Queued(t, k) {
      HandlerDebtKept(s.w, a, appeared, k);
    }
    if t.w.generation == s.w.generation {
      forall i: nat, promoted | WaiterOwes(s.w, i, promoted, k)
        ensures WaiterOwes(t.w, i, promoted, k) || Queued(t, k)
      {
        WaiterDebtKept(s.w, a, i, promoted, k);
      }
    }
  }

  lemma GenerationMoves(w: State, a: Action)
    requires Inv(w) && Enabled(w, a)
    ensures Apply(w, a).generation == w.generation || !Apply(w, a).crdExists
  {
  }

  lemma ActiveComesFromPromotion(w: State, a: Action)
    requires Inv(w) && Enabled(w, a) && !w.active && Apply(w, a).active
    ensures a.Decide? && forall k :: WaiterOwes(Apply(w, a), a.id, true, k)
  {
  }

  lemma AwakeKept(s: Sys, step: Step, k: Key)
    requires Inv(s.w) && Possible(s, step) && AwakeAt(s, k)
    ensures AwakeAt(Stepped(s, step), k)
  {
    var t := Stepped(s, step);
    if IsParent(t, k) && Outdated(t, k) && t.w.active {
      ProtocolPart(s, step);
      LossesGrow(s, step);
      if ActionIn(step).None? {
        OutsideSteps(s, step, k);
      } else if !s.w.active {
        ActiveComesFromPromotion(s.w, ActionIn(step).value);
        assert WaiterOwes(t.w, ActionIn(step).value.id, true, k);
      } else {
        GenerationMoves(s.w, ActionIn(step).value);
        DebtsKept(s, step, k);
        if Queued(s, k) {
          QueuedKept(s, step, k);
        }
      }
    }
  }

  lemma LosingActive(w: State, a: Action, k: Key)
    requires Inv(w) && Enabled(w, a) && w.active && !Apply(w, a).active
    ensures a.Invalidate? || HandlerOwes(Apply(w, a), false, k)
  {
  }

  lemma CurrentKept(s: Sys, step: Step, k: Key)
    requires Inv(s.w) && Possible(s, step) && CurrentAt(s, k) && SightAt(s, k)
    ensures CurrentAt(Stepped(s, step), k)
  {
    var t := Stepped(s, step);
    if IsParent(t, k) && k in t.sights && t.sights[k].available && !t.w.active {
      ProtocolPart(s, step);
      LossesGrow(s, step);
      if ActionIn(step).None? {
        OutsideSteps(s, step, k);
      } else if s.w.active {
        LosingActive(s.w, ActionIn(step).value, k);
      } else {
        DebtsKept(s, step, k);
        if Queued(s, k) {
          QueuedKept(s, step, k);
        }
      }
    }
  }

  lemma EnteringPending(w: State, a: Action, k: Key)
    requires Inv(w) && Enabled(w, a)
    requires !(w.crdExists && !w.watching) && Apply(w, a).crdExists && !Apply(w, a).watching
    ensures HandlerOwes(Apply(w, a), true, k) || (a.Decide? && WaiterOwes(Apply(w, a), a.id, false, k))
  {
  }

  lemma PendingKept(s: Sys, step: Step, k: Key)
    requires Inv(s.w) && Possible(s, step) && PendingAt(s, k)
    ensures PendingAt(Stepped(s, step), k)
  {
    var t := Stepped(s, step);
    if IsParent(t, k) && t.w.crdExists && !t.w.watching {
      ProtocolPart(s, step);
      if ActionIn(step).None? {
        OutsideSteps(s, step, k);
      } else if !(s.w.crdExists && !s.w.watching) {
        EnteringPending(s.w, ActionIn(step).value, k);
      } else {
        GenerationMoves(s.w, ActionIn(step).value);
        DebtsKept(s, step, k);
        if Queued(s, k) {
          QueuedKept(s, step, k);
        }
      }
    }
  }

  lemma SysInvKept(s: Sys, step: Step)
    requires SysInv(s) && Possible(s, step)
    ensures SysInv(Stepped(s, step))
  {
    InvKept(s, step);
    ProtocolPart(s, step);
    if ActionIn(step).Some? {
      TidyKept(s.w, ActionIn(step).value);
    }
    forall k
      ensures SightAt(Stepped(s, step), k) && StageAt(Stepped(s, step), k) && FreshAt(Stepped(s, step), k)
      ensures RestingAt(Stepped(s, step), k) && AwakeAt(Stepped(s, step), k)
      ensures CurrentAt(Stepped(s, step), k) && PendingAt(Stepped(s, step), k)
    {
      SightKept(s, step, k);
      StageKept(s, step, k);
      FreshKept(s, step, k);
      RestingKept(s, step, k);
      AwakeKept(s, step, k);
      CurrentKept(s, step, k);
      PendingKept(s, step, k);
    }
  }

  lemma {:induction false} SysInvAlongRun(s: Sys, run: seq<Step>)
    requires SysInv(s) && ValidRun(s, run)
    ensures SysInv(ExecRun(s, run))
    decreases |run|
  {
    if run != [] {
      SysInvKept(s, run[0]);
      SysInvAlongRun(Stepped(s, run[0]), run[1..]);
    }
  }

  lemma ReachableSysInv(s: Sys)
    requires ReachableSys(s)
    ensures SysInv(s)
  {
    var s0, run :| IsInitial(s0) && ValidRun(s0, run) && ExecRun(s0, run) == s;
    SysInvAlongRun(s0, run);
  }
}

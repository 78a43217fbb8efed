/**
 The claims about the whole controller, in every reachable state: no lost wake-up, no stale
 availability, and what the Widgets' status says once everything has come to rest.
 */
module EndToEnd {
  import opened Common
  import opened Protocol
  import opened ProtocolInvariants
  import opened System
  import opened Obligations
  import opened Widgets
  import opened Mappers

  /**
   If a parent's last Ensure or TryGet said unavailable and the watch is active now, the parent
   is queued, or the waiter that promoted this very generation still owes it its requeue.
   */
  lemma NoLostWakeUp(s: Sys, k: Key)
    requires ReachableSys(s) && IsParent(s, k)
    requires k in s.sights && !s.sights[k].available && s.w.active
    ensures Queued(s, k) || exists i: nat :: WaiterOwes(s.w, i, true, k)
  {
    ReachableSysInv(s);
    assert AwakeAt(s, k);
  }

  /**
   If a parent last observed available and the watch is inactive now, the parent is queued, or
   the CRD-removal handler still owes its requeue, or an invalidation has found the watch active
   since; so returning early when the torn down watch was not ready loses nothing.
   */
  lemma NoStaleAvailability(s: Sys, k: Key)
    requires ReachableSys(s) && IsParent(s, k)
    requires k in s.sights && s.sights[k].available && !s.w.active
    ensures Queued(s, k) || HandlerOwes(s.w, false, k) || Losses(s.w) > s.sights[k].losses
  {
    ReachableSysInv(s);
    assert CurrentAt(s, k);
  }

  // ----- what a sight and a skew are, over the run

  /** The step is a call of Ensure for `k`, or the invalidation that ends its TryGet. */
  predicate IsCallOf(step: Step, k: Key) {
    (step.CallEnsure? || step.CallInvalidate?) && step.key == k
  }

  /** The last such call of the run was step `i`. */
  predicate LastCall(run: seq<Step>, i: nat, k: Key) {
    i < |run| && IsCallOf(run[i], k) && forall j :: i < j < |run| ==> !IsCallOf(run[j], k)
  }

  /**
   What `sights` says of `k` is what its last call found: Ensure, whether the watch was active, and
   whether it was in Pending and the source failed to start; an invalidation, that it is gone.
   */
  ghost predicate Saw(sight: Sight, w: State, call: Step) {
    match call
    case CallEnsure(_, startOk) =>
      && sight.losses == Losses(w)
      && (sight.available <==> w.active)
      && (sight.startFailed <==> LifecycleOf(w) == Lifecycle.Pending && !startOk)
    case CallInvalidate(_) =>
      sight.losses == Losses(w) + (if w.active then 1 else 0) && !sight.available && !sight.startFailed
    case _ => false
  }

  lemma {:induction false} SightIsLastCall(s: Sys, run: seq<Step>, k: Key, i: nat)
    requires Inv(s.w) && ValidRun(s, run) && LastCall(run, i, k)
    ensures ValidRun(s, run[..i])
    ensures k in ExecRun(s, run).sights && Saw(ExecRun(s, run).sights[k], ExecRun(s, run[..i]).w, run[i])
    decreases |run|
  {
    var u := Stepped(s, run[0]);
    if i == 0 {
      LossesGrow(s, run[0]);
      SightStays(u, run[1..], k);
    } else {
      InvKept(s, run[0]);
      assert LastCall(run[1..], i - 1, k);
      SightIsLastCall(u, run[1..], k, i - 1);
      assert run[..i][1..] == run[1..][..i - 1];
    }
  }

  lemma {:induction false} SightStays(s: Sys, run: seq<Step>, k: Key)
    requires ValidRun(s, run) && forall i :: 0 <= i < |run| ==> !IsCallOf(run[i], k)
    ensures k in ExecRun(s, run).sights <==> k in s.sights
    ensures k in s.sights ==> ExecRun(s, run).sights[k] == s.sights[k]
    decreases |run|
  {
    if run != [] {
      SightStays(Stepped(s, run[0]), run[1..], k);
    }
  }

  /** Nothing is queued, in progress or owed. Waiters may still be waiting for their sync. */
  predicate Quiescent(s: Sys) {
    && s.queue == {} && s.busy == map[] && s.w.tail.Idle?
    && forall i :: 0 <= i < |s.w.waiters| ==> s.w.waiters[i].phase.Waiting? || s.w.waiters[i].phase.Finished?
  }

  /** `k` was told the type is available, and an invalidation has found the watch active since. */
  predicate Stranded(s: Sys, k: Key) {
    k in s.sights && s.sights[k].available && Losses(s.w) > s.sights[k].losses
  }

  /**
   At rest a parent's status says that the CRD is not available exactly when the watch is not
   active, unless the parent is stranded by an invalidation, or its last reconcile started from an
   outdated status and kept it; if both, the two mistakes make up for each other.
   */
  lemma StatusTellsAvailability(s: Sys, k: Key)
    requires ReachableSys(s) && Quiescent(s) && IsParent(s, k)
    ensures (SaysUnavailable(s, k) <==> !s.w.active) <==> (Stranded(s, k) <==> k in s.skewed)
    ensures s.w.active ==> !Stranded(s, k)
  {
    ReachableSysInv(s);
    assert RestingAt(s, k) && AwakeAt(s, k) && CurrentAt(s, k);
    NobodyOwes(s, k);
  }

  lemma NobodyOwes(s: Sys, k: Key)
    requires Quiescent(s)
    ensures !Queued(s, k) && !PromoterOwes(s, k) && !FailureOwes(s, k)
    ensures !HandlerOwes(s.w, true, k) && !HandlerOwes(s.w, false, k)
  {
  }

  /**
   Without an invalidation that found the watch active the status of a Widget with a reference is
   right exactly when its last reconcile was not skewed.
   */
  lemma StatusIsRightWithoutLosses(s: Sys)
    requires ReachableSys(s) && Quiescent(s) && Losses(s.w) == 0
    ensures forall k :: IsParent(s, k) ==> ((SaysUnavailable(s, k) <==> !s.w.active) <==> k !in s.skewed)
  {
    forall k | IsParent(s, k) ensures (SaysUnavailable(s, k) <==> !s.w.active) <==> k !in s.skewed {
      StatusTellsAvailability(s, k);
      ReachableSysInv(s);
      assert SightAt(s, k);
    }
  }

  /** At rest in Pending, with the CRD known but no watch registered, every parent has seen a source start fail. */
  lemma PendingAtRestOnlyAfterFailedStarts(s: Sys, k: Key)
    requires ReachableSys(s) && Quiescent(s) && IsParent(s, k)
    requires LifecycleOf(s.w) == Lifecycle.Pending
    ensures k in s.sights && s.sights[k].startFailed
  {
    ReachableSysInv(s);
    assert PendingAt(s, k);
    NobodyOwes(s, k);
  }

  // ----- the parts of the repository behind the environment assumptions

  /** What the controller's own cache lists: each Widget it holds, as it holds it, once. */
  ghost predicate Lists(s: Sys, listing: seq<Widget>) {
    && (forall w :: w in listing <==> w.key in s.widgets && w == Cached(s.widgets, s.behind, w.key))
    && |listing| <= |s.widgets|
  }

  lemma {:induction false} KeyedAlongRun(s: Sys, run: seq<Step>)
    requires Keyed(s) && ValidRun(s, run)
    ensures Keyed(ExecRun(s, run))
    decreases |run|
  {
    if run != [] {
      KeyedKept(s, run[0]);
      KeyedAlongRun(Stepped(s, run[0]), run[1..]);
    }
  }

  lemma KeyedKept(s: Sys, step: Step)
    requires Keyed(s) && Possible(s, step)
    ensures Keyed(Stepped(s, step))
  {
  }

  lemma ReachableKeyed(s: Sys)
    requires ReachableSys(s)
    ensures Keyed(s)
  {
    var s0, run :| IsInitial(s0) && ValidRun(s0, run) && ExecRun(s0, run) == s;
    KeyedAlongRun(s0, run);
  }

  /** The cache of a reachable controller can always be listed. */
  lemma ListingExists(s: Sys) returns (listing: seq<Widget>)
    requires ReachableSys(s)
    ensures Lists(s, listing)
  {
    ReachableKeyed(s);
    var left := s.widgets.Keys;
    listing := [];
    while left != {}
      invariant left <= s.widgets.Keys
      invariant forall w :: w in listing <==>
                            w.key in s.widgets && w.key !in left && w == Cached(s.widgets, s.behind, w.key)
      invariant |listing| + |left| <= |s.widgets|
      decreases |left|
    {
      var k :| k in left;
      left := left - {k};
      listing := listing + [Cached(s.widgets, s.behind, k)];
    }
  }

  lemma {:induction false} ScanIsNoLonger(widgets: seq<Widget>, p: Widget -> bool)
    ensures |Scan(widgets, p)| <= |widgets|
  {
    if widgets != [] {
      ScanIsNoLonger(widgets[1..], p);
    }
  }

  /** The Widget mappers give requeueAll its complete answer, in every reachable state. */
  lemma MapperAnswersCompletely(s: Sys, listing: seq<Widget>)
    requires ReachableSys(s) && Lists(s, listing)
    ensures Complete(s, Scan(listing, WithRef(s.half)))
  {
    ReachableKeyed(s);
    var parents := Scan(listing, WithRef(s.half));
    ScanIsNoLonger(listing, WithRef(s.half));
    forall k ensures k in parents <==> IsParent(s, k) {
      ScanFinds(listing, WithRef(s.half), k);
      if IsParent(s, k) {
        assert Cached(s.widgets, s.behind, k) in listing;
      }
    }
  }

  /**
   The write that ends a reconcile patches the Widget with what one call of Reconcile, with the same
   results of the two TryGet calls, makes of the status it read; when nobody wrote it since, the
   Widgets are left as that call leaves them.
   */
  lemma WriteIsReconcile(s: Sys, k: Key, other: Outcome, now: int, plugin: TryResult, theme: TryResult)
    requires Possible(s, Write(k, other, now)) && k in s.widgets
    requires var mine := if s.half == Plugin then plugin else theme;
             var others := if s.half == Plugin then theme else plugin;
             var spec := s.busy[k].snap.spec;
             && OutcomeOf(Ref(s.half, spec), mine) == Some(s.busy[k].outcome)
             && OutcomeOf(Ref(OtherHalf(s.half), spec), others) == Some(other)
    ensures var t, snap := Stepped(s, Write(k, other, now)), s.busy[k].snap;
            var done := AfterReconcile(World(map[k := snap], 0, false), k, true, plugin, theme, true, now);
            && t.widgets == s.widgets[k := s.widgets[k].(
                                        status := Patched(s.widgets[k].status, snap.status, done.widgets[k].status))]
            && (snap == s.widgets[k] ==>
                  t.widgets == AfterReconcile(World(s.widgets, 0, false), k, true, plugin, theme, true, now).widgets)
  {
  }
}

/**
 What every step of the protocol keeps, whatever the interleaving: the four states, the
 bookkeeping of the cancel handle and of the waiters, and the fact that nothing is started
 while the removal of a CRD is being carried out.
 */
module ProtocolInvariants {
  import opened Common
  import opened Crds
  import opened Protocol

  /** Waiter `i` has not decided yet and was spawned in the current generation. */
  predicate Current(s: State, i: nat) {
    i < |s.waiters| && s.waiters[i].phase.Waiting? && s.waiters[i].generation == s.generation
  }

  /** Waiter `i` has not decided yet and an older generation spawned it. */
  predicate Superseded(s: State, i: nat) {
    i < |s.waiters| && s.waiters[i].phase.Waiting? && s.waiters[i].generation != s.generation
  }

  /** Part of onCRDChange for a removed CRD is still outstanding. */
  predicate RemovalOutstanding(s: State) {
    match s.tail
    case Idle => false
    case ListOwed(appeared) => !appeared
    case AddOwed(appeared, _) => !appeared
    case _ => true
  }

  predicate FlagsInv(s: State) {
    && (s.watching ==> s.crdExists)
    && (s.active ==> s.watching)
    && (RemovalOutstanding(s) ==> !s.crdExists)
  }

  ghost predicate WaitersInv(s: State) {
    && s.modulus == 0
    && (s.cancel.Some? <==> s.watching && !s.active)
    && (s.cancel.Some? ==> Current(s, s.cancel.value) && !s.waiters[s.cancel.value].cancelled)
    && (forall i: nat :: Current(s, i) ==> s.cancel == Some(i))
    && (forall i :: 0 <= i < |s.waiters| ==> s.waiters[i].generation <= s.generation)
    && (forall i: nat :: Superseded(s, i) ==> s.waiters[i].cancelled)
  }

  ghost predicate Inv(s: State) {
    FlagsInv(s) && WaitersInv(s)
  }

  lemma FlagsPreserved(s: State, a: Action)
    requires Inv(s) && Enabled(s, a)
    ensures FlagsInv(Apply(s, a))
  {
    if a.Decide? && s.waiters[a.id].generation == s.generation {
      assert Current(s, a.id);
    }
  }

  lemma WaitersPreserved(s: State, a: Action)
    requires Inv(s) && Enabled(s, a)
    ensures WaitersInv(Apply(s, a))
  {
    if a.Decide? && s.waiters[a.id].generation == s.generation {
      assert Current(s, a.id);
    }
    var t := Apply(s, a);
    forall i: nat | Current(t, i) ensures t.cancel == Some(i) {
      assert i < |s.waiters| ==> Current(s, i) || t.generation > s.generation;
    }
    forall i: nat | Superseded(t, i) ensures t.waiters[i].cancelled {
      assert Superseded(s, i) || Current(s, i);
    }
  }

  lemma {:induction false} InvAlongRun(s: State, run: seq<Action>)
    requires Inv(s) && Valid(s, run)
    ensures Inv(Exec(s, run))
    decreases |run|
  {
    if run != [] {
      FlagsPreserved(s, run[0]);
      WaitersPreserved(s, run[0]);
      InvAlongRun(Apply(s, run[0]), run[1..]);
    }
  }

  lemma ReachableInv(s: State)
    requires Reachable(s)
    ensures Inv(s)
  {
    var run :| Valid(Init(0), run) && Exec(Init(0), run) == s;
    InvAlongRun(Init(0), run);
  }

  // ----- the waiter invariant, in the terms of the design

  /** In every reachable state the cancel handle, the Syncing state and the one current waiter go together. */
  lemma WaiterInvariant(s: State)
    requires Reachable(s)
    ensures s.cancel.Some? <==> s.watching && !s.active
    ensures s.cancel.Some? <==> exists i: nat :: Current(s, i)
    ensures forall i: nat, j: nat :: Current(s, i) && Current(s, j) ==> i == j
    ensures forall i: nat :: Current(s, i) ==> s.cancel == Some(i) && !s.waiters[i].cancelled
    ensures forall i: nat :: Superseded(s, i) ==> s.waiters[i].generation < s.generation && s.waiters[i].cancelled
  {
    ReachableInv(s);
  }

  /**
   A waiter that decides without being stale is the owner of the handle it clears, and the
   watch is registered but not yet active at that moment; a stale one leaves every guarded
   field alone.
   */
  lemma FinishingWaiterOwnsTheHandle(s: State, id: nat, synced: bool)
    requires Reachable(s) && Enabled(s, Decide(id, synced))
    ensures var t := Apply(s, Decide(id, synced));
            if s.waiters[id].generation == s.generation
            then s.cancel == Some(id) && s.crdExists && s.watching && !s.active && t.cancel.None?
            else (t.cancel, t.watching, t.active, t.crdExists) == (s.cancel, s.watching, s.active, s.crdExists)
  {
    ReachableInv(s);
    if s.waiters[id].generation == s.generation {
      assert Current(s, id);
    }
  }

  /** The cancel call inside Ensure is dead code: a registration never finds a stored cancel function. */
  lemma EnsureNeverCancels(s: State, startOk: bool)
    requires Reachable(s) && Registers(s, startOk)
    ensures s.cancel.None?
    ensures Apply(s, Ensure(startOk)).waiters == s.waiters + [Waiter(s.generation, false, Waiting, false)]
  {
    ReachableInv(s);
  }

  // ----- four states

  datatype Lifecycle = NotFound | Pending | Syncing | Ready

  /** The state of the four-state machine; Registries.StatusIsLifecycle says that it is what Status reports. */
  function LifecycleOf(s: State): Lifecycle {
    if s.active then Ready
    else if !s.crdExists then NotFound
    else if s.watching then Syncing
    else Pending
  }

  function FlagsOf(l: Lifecycle): (bool, bool, bool) {
    match l
    case NotFound => (false, false, false)
    case Pending => (true, false, false)
    case Syncing => (true, true, false)
    case Ready => (true, true, true)
  }

  /** The edges of the four-state machine, each with the only kind of action that may take it. */
  predicate Edge(from: Lifecycle, a: Action, to: Lifecycle) {
    || from == to
    || (to == NotFound && (a.Invalidate? || (a.CrdEvent? && IsRemoved(a.crd))))
    || (from == NotFound && to == Pending && a.CrdEvent? && !IsRemoved(a.crd))
    || (from == Pending && to == Syncing && a == Ensure(true))
    || (from == Syncing && to == Ready && a.Decide? && a.synced)
    || (from == Syncing && to == Pending && a.Decide? && !a.synced)
  }

  /** Of the eight combinations of the three flags only four occur, and the reported reason determines the flags. */
  lemma FourStates(s: State)
    requires Reachable(s)
    ensures (s.crdExists, s.watching, s.active) == FlagsOf(LifecycleOf(s))
  {
    ReachableInv(s);
  }

  lemma StepRefinesLifecycle(s: State, a: Action)
    requires Reachable(s) && Enabled(s, a)
    ensures Edge(LifecycleOf(s), a, LifecycleOf(Apply(s, a)))
  {
    ReachableInv(s);
    if a.Decide? && s.waiters[a.id].generation == s.generation {
      assert Current(s, a.id);
    }
  }

  /** None of the four is spurious: each is the state after some run. */
  lemma LifecycleIsInhabited(crd: Crd, l: Lifecycle)
    requires !IsRemoved(crd)
    ensures exists s :: Reachable(s) && LifecycleOf(s) == l
  {
    var s1 := Apply(Init(0), CrdEvent(crd));
    var s2 := Apply(s1, Ensure(true));
    var s3 := Apply(Apply(s2, Create(0)), Decide(0, true));
    ReachableStep(Init(0), [], CrdEvent(crd));
    assert [] + [CrdEvent(crd)] == [CrdEvent(crd)];
    ReachableStep(Init(0), [CrdEvent(crd)], Ensure(true));
    ReachableStep(Init(0), [CrdEvent(crd)] + [Ensure(true)], Create(0));
    ReachableStep(Init(0), [CrdEvent(crd)] + [Ensure(true)] + [Create(0)], Decide(0, true));
    assert Valid(Init(0), []) && Reachable(Init(0));
    assert LifecycleOf(Init(0)) == NotFound && LifecycleOf(s1) == Pending;
    assert LifecycleOf(s2) == Syncing && LifecycleOf(s3) == Ready;
  }

  /** One more action after a run from the start reaches a reachable state. */
  lemma ReachableStep(s: State, run: seq<Action>, a: Action)
    requires s == Init(0) && Valid(s, run) && Enabled(Exec(s, run), a)
    ensures Valid(s, run + [a]) && Exec(s, run + [a]) == Apply(Exec(s, run), a) && Reachable(Exec(s, run + [a]))
  {
    ExecOne(Exec(s, run), a, []);
    ExecAppend(s, run, [a]);
  }

  // ----- teardown never hits a successor

  /** The source of waiter `i` created its informer between `s` and `t`. */
  predicate CreatedBetween(s: State, t: State, i: nat) {
    i < |s.waiters| && i < |t.waiters| && !s.waiters[i].created && t.waiters[i].created
  }

  lemma CreatedKept(s: State, a: Action, i: nat)
    requires Enabled(s, a) && i < |s.waiters|
    ensures i < |Apply(s, a).waiters| && (s.waiters[i].created ==> Apply(s, a).waiters[i].created)
  {
    if a.Ensure? || a.Invalidate? || a.CrdEvent? {
      CancelKeepsCreated(s, i);
    } else if a.Decide? {
      DecidingKeepsCreated(s, a.id, a.synced, i);
    } else {
      OthersKeepCreated(s, a, i);
    }
  }

  lemma DecidingKeepsCreated(s: State, id: nat, synced: bool, i: nat)
    requires id < |s.waiters| && i < |s.waiters|
    ensures i < |DoDecide(s, id, synced).waiters|
    ensures s.waiters[i].created ==> DoDecide(s, id, synced).waiters[i].created
  {
  }

  lemma CancelKeepsCreated(s: State, i: nat)
    requires i < |s.waiters|
    ensures var waiters := CancelWaiter(s.waiters, s.cancel);
            |waiters| == |s.waiters| && waiters[i].created == s.waiters[i].created
  {
  }

  lemma OthersKeepCreated(s: State, a: Action, i: nat)
    requires Enabled(s, a) && i < |s.waiters| && !a.Ensure? && !a.Invalidate? && !a.CrdEvent? && !a.Decide?
    ensures i < |Apply(s, a).waiters| && (s.waiters[i].created ==> Apply(s, a).waiters[i].created)
  {
  }

  /** What a source has created stays created. */
  lemma {:induction false} CreatedStays(s: State, run: seq<Action>, i: nat)
    requires Valid(s, run) && i < |s.waiters|
    ensures i < |Exec(s, run).waiters| && (s.waiters[i].created ==> Exec(s, run).waiters[i].created)
    decreases |run|
  {
    if run != [] {
      CreatedKept(s, run[0], i);
      CreatedStays(Apply(s, run[0]), run[1..], i);
    }
  }

  lemma CreatedEarlier(s: State, run: seq<Action>, i: nat)
    requires Valid(s, run) && run != []
    requires CreatedBetween(s, Apply(s, run[0]), i) || CreatedBetween(Apply(s, run[0]), Exec(s, run), i)
    requires i < |s.waiters|
    ensures CreatedBetween(s, Exec(s, run), i)
  {
    CreatedKept(s, run[0], i);
    CreatedStays(Apply(s, run[0]), run[1..], i);
  }

  /**
   From the end of the removal critical section of a watched CRD until its RemoveInformer
   returns, no object source is started on any interleaving, and no other CRD event is taken:
   whatever informer RemoveInformer then finds was there before the teardown, or was created
   meanwhile by a source that had been started before it.
   */
  lemma {:induction false} TeardownNeverHitsSuccessor(s: State, run: seq<Action>)
    requires Inv(s) && s.tail.RemoveOwed? && Valid(s, run)
    requires forall a :: a in run ==> !a.TailRemove?
    ensures var t := Exec(s, run);
            && t.tail == s.tail && !t.crdExists && !t.watching && |t.waiters| == |s.waiters|
            && (t.informer ==> s.informer || exists i :: CreatedBetween(s, t, i))
    decreases |run|
  {
    if run != [] {
      var u, t := Apply(s, run[0]), Exec(s, run);
      FlagsPreserved(s, run[0]);
      WaitersPreserved(s, run[0]);
      assert run[0] in run;
      TeardownNeverHitsSuccessor(u, run[1..]);
      if t.informer && !s.informer {
        var i :| if u.informer then run[0] == Create(i) else CreatedBetween(u, t, i);
        CreatedEarlier(s, run, i);
      }
    }
  }

  /** The same from the CRD event itself, and with the exact effect of the removal at the end. */
  lemma CrdPathRemovesOnlyWhatItToreDown(s: State, crd: Crd, run: seq<Action>)
    requires Reachable(s) && s.watching && s.tail.Idle? && IsRemoved(crd)
    requires Valid(Apply(s, CrdEvent(crd)), run)
    requires forall a :: a in run ==> !a.TailRemove?
    ensures var t := Exec(Apply(s, CrdEvent(crd)), run);
            && Enabled(t, TailRemove(true))
            && |Apply(t, TailRemove(true)).waiters| == |s.waiters|
            && !Apply(t, TailRemove(true)).informer
            && (t.informer ==> s.informer || exists i :: CreatedBetween(s, t, i))
  {
    ReachableInv(s);
    FlagsPreserved(s, CrdEvent(crd));
    WaitersPreserved(s, CrdEvent(crd));
    var torn := Apply(s, CrdEvent(crd));
    TeardownNeverHitsSuccessor(torn, run);
    var t := Exec(torn, run);
    if t.informer && !s.informer {
      var i :| CreatedBetween(torn, t, i);
      assert CreatedBetween(s, t, i);
    }
  }
}

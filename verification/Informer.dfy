/**
 Which informer the private cache holds. A source creates the informer on its own goroutine, some
 time after the registration that started it; RemoveInformer is called outside the lock. So a
 removal can hit the informer of a newer watch, and a source that is slow to start can create one
 after the removal that was meant for it.
 */
module Informer {
  import opened Crds
  import opened Protocol
  import opened ProtocolInvariants

  /** The source of the last registration has created the informer. */
  predicate OwnCreated(s: State) {
    s.waiters != [] && s.waiters[|s.waiters| - 1].created
  }

  /** The last registration is the one of the watch, and an active watch has had its informer created. */
  predicate OwnInv(s: State) {
    && (s.cancel.Some? ==> s.cancel.value == |s.waiters| - 1)
    && (s.active ==> OwnCreated(s))
  }

  lemma OwnKept(s: State, a: Action)
    requires Inv(s) && OwnInv(s) && Enabled(s, a)
    ensures OwnInv(Apply(s, a))
  {
    if a.Decide? {
      assert Current(s, a.id) <==> s.waiters[a.id].generation == s.generation;
    }
  }

  lemma {:induction false} OwnAlongRun(s: State, run: seq<Action>)
    requires Inv(s) && OwnInv(s) && Valid(s, run)
    ensures Inv(Exec(s, run)) && OwnInv(Exec(s, run))
    decreases |run|
  {
    if run != [] {
      FlagsPreserved(s, run[0]);
      WaitersPreserved(s, run[0]);
      OwnKept(s, run[0]);
      OwnAlongRun(Apply(s, run[0]), run[1..]);
    }
  }

  lemma ReachableOwn(s: State)
    requires Reachable(s)
    ensures Inv(s) && OwnInv(s)
  {
    var run :| Valid(Init(0), run) && Exec(Init(0), run) == s;
    OwnAlongRun(Init(0), run);
  }

  /** The watch is registered and its source has created the informer. */
  predicate Up(s: State) {
    s.watching && OwnCreated(s)
  }

  predicate InformerBacksWatch(s: State) {
    Up(s) ==> s.informer
  }

  /** A failed sync's RemoveInformer succeeds while a newer watch is up. */
  predicate LateRemoval(s: State, a: Action) {
    a.WaiterRemove? && a.removed && Up(s)
  }

  /** A step takes the informer away from a watch that is up exactly when it is such a late removal. */
  lemma OnlyLateRemovalBreaksWatch(s: State, a: Action)
    requires Reachable(s) && InformerBacksWatch(s) && Enabled(s, a)
    ensures InformerBacksWatch(Apply(s, a)) <==> !LateRemoval(s, a)
  {
    ReachableInv(s);
    BackingStep(s, a);
  }

  // ----- along a run

  predicate IsRegistration(s: State, a: Action) {
    a.Ensure? && Registers(s, a.startOk)
  }

  predicate RegistersDuring(s: State, run: seq<Action>)
    requires Valid(s, run)
    decreases |run|
  {
    run != [] && (IsRegistration(s, run[0]) || RegistersDuring(Apply(s, run[0]), run[1..]))
  }

  predicate CreatesDuring(run: seq<Action>) {
    run != [] && (run[0].Create? || CreatesDuring(run[1..]))
  }

  /** Some late removal of the run is followed by no creation. */
  predicate Taken(s: State, run: seq<Action>)
    requires Valid(s, run)
    decreases |run|
  {
    run != [] &&
    ((LateRemoval(s, run[0]) && !CreatesDuring(run[1..])) || Taken(Apply(s, run[0]), run[1..]))
  }

  /** The step behind BackedExactly: only creations and late removals matter to a watch that stays up. */
  lemma BackingStep(s: State, a: Action)
    requires Inv(s) && Enabled(s, a)
    ensures var t := Apply(s, a);
            && (a.Create? ==> t.informer)
            && (LateRemoval(s, a) ==> Up(t) && !t.informer)
            && (Up(t) && !a.Create? ==> Up(s) && (!LateRemoval(s, a) ==> t.informer == s.informer))
  {
    if a.Decide? {
      assert Current(s, a.id) <==> s.waiters[a.id].generation == s.generation;
    }
  }

  lemma {:induction false} ComingUpTakesCreation(s: State, run: seq<Action>)
    requires Inv(s) && !Up(s) && Valid(s, run) && Up(Exec(s, run))
    ensures CreatesDuring(run)
    decreases |run|
  {
    if !run[0].Create? {
      FlagsPreserved(s, run[0]);
      WaitersPreserved(s, run[0]);
      BackingStep(s, run[0]);
      ComingUpTakesCreation(Apply(s, run[0]), run[1..]);
    }
  }

  lemma {:induction false} BackedExactly(s: State, run: seq<Action>)
    requires Inv(s) && Valid(s, run)
    ensures Up(Exec(s, run)) ==>
              (Exec(s, run).informer <==> !Taken(s, run) && (InformerBacksWatch(s) || CreatesDuring(run)))
    decreases |run|
  {
    if run != [] {
      var t := Apply(s, run[0]);
      FlagsPreserved(s, run[0]);
      WaitersPreserved(s, run[0]);
      BackingStep(s, run[0]);
      BackedExactly(t, run[1..]);
      if Up(Exec(t, run[1..])) && !Up(t) {
        ComingUpTakesCreation(t, run[1..]);
      }
    }
  }

  /**
   After any run an active watch, and one that is not active yet but up, has its informer exactly
   when every late removal of the run was followed by a creation.
   */
  lemma WatchHasInformerExactly(run: seq<Action>)
    requires Valid(Init(0), run)
    ensures var s := Exec(Init(0), run);
            && (s.active ==> Up(s))
            && (Up(s) ==> (s.informer <==> !Taken(Init(0), run)))
  {
    BackedExactly(Init(0), run);
    OwnAlongRun(Init(0), run);
  }

  // ----- a condition on the registrations alone

  /** No waiter that failed its sync still owes its RemoveInformer. */
  predicate NoRemovalOwed(s: State) {
    forall i :: 0 <= i < |s.waiters| ==> !s.waiters[i].phase.Removing?
  }

  /** Every registration of the run finds no failed sync's RemoveInformer outstanding. */
  predicate Orderly(s: State, run: seq<Action>)
    requires Valid(s, run)
    decreases |run|
  {
    run == [] ||
    ((IsRegistration(s, run[0]) ==> NoRemovalOwed(s)) && Orderly(Apply(s, run[0]), run[1..]))
  }

  predicate Settled(s: State) {
    InformerBacksWatch(s) && (s.watching ==> NoRemovalOwed(s))
  }

  lemma {:induction false} OrderlyAlongRun(s: State, run: seq<Action>)
    requires Inv(s) && Settled(s) && Valid(s, run) && Orderly(s, run)
    ensures Settled(Exec(s, run))
    decreases |run|
  {
    if run != [] {
      FlagsPreserved(s, run[0]);
      WaitersPreserved(s, run[0]);
      if run[0].Decide? && s.waiters[run[0].id].generation == s.generation {
        assert Current(s, run[0].id);
      }
      OrderlyAlongRun(Apply(s, run[0]), run[1..]);
    }
  }

  /** On the runs in which registrations wait for those removals, an active watch always has its informer. */
  lemma OrderlyRunsKeepInformer(run: seq<Action>)
    requires Valid(Init(0), run) && Orderly(Init(0), run)
    ensures var s := Exec(Init(0), run); s.active ==> s.informer
  {
    OrderlyAlongRun(Init(0), run);
    OwnAlongRun(Init(0), run);
  }

  /** Without that the claim is false: after this run the watch is active and its informer is gone. */
  lemma ActiveWithoutInformer(crd: Crd) returns (run: seq<Action>)
    requires !IsRemoved(crd)
    ensures Valid(Init(0), run) && Exec(Init(0), run).active && !Exec(Init(0), run).informer
  {
    var s1 := Apply(Init(0), CrdEvent(crd));
    var s2 := Apply(s1, Ensure(true));
    var s3 := Apply(s2, Decide(0, false));
    var s4 := Apply(s3, Ensure(true));
    var s5 := Apply(s4, Create(1));
    var s6 := Apply(s5, Decide(1, true));
    ExecOne(s6, WaiterRemove(0, true), []);
    run := [WaiterRemove(0, true)];
    ExecOne(s5, Decide(1, true), run);
    run := [Decide(1, true)] + run;
    ExecOne(s4, Create(1), run);
    run := [Create(1)] + run;
    ExecOne(s3, Ensure(true), run);
    run := [Ensure(true)] + run;
    ExecOne(s2, Decide(0, false), run);
    run := [Decide(0, false)] + run;
    ExecOne(s1, Ensure(true), run);
    run := [Ensure(true)] + run;
    ExecOne(Init(0), CrdEvent(crd), run);
    run := [CrdEvent(crd)] + run;
  }

  // ----- informers that come after their removal

  /** Every source that was ever started has created its informer. */
  predicate AllCreated(s: State) {
    forall i :: 0 <= i < |s.waiters| ==> s.waiters[i].created
  }

  /** Without a registration an informer appears only from a source that was started before. */
  lemma {:induction false} StrayComesFromOldSource(s: State, run: seq<Action>)
    requires Valid(s, run) && !s.informer && !RegistersDuring(s, run) && Exec(s, run).informer
    ensures exists i :: CreatedBetween(s, Exec(s, run), i)
    decreases |run|
  {
    var u := Apply(s, run[0]);
    if u.informer {
      CreatedEarlier(s, run, run[0].id);
    } else {
      StrayComesFromOldSource(u, run[1..]);
      var i :| CreatedBetween(u, Exec(u, run[1..]), i);
      CreatedEarlier(s, run, i);
    }
  }

  /**
   A removal is final, which is to say that no run without a registration brings an informer back,
   exactly when no source started before it still has its informer to create.
   */
  lemma RemovalIsFinal(s: State)
    requires !s.informer
    ensures AllCreated(s) <==>
            forall run :: Valid(s, run) && !RegistersDuring(s, run) ==> !Exec(s, run).informer
  {
    if AllCreated(s) {
      forall run | Valid(s, run) && !RegistersDuring(s, run) ensures !Exec(s, run).informer {
        if Exec(s, run).informer {
          StrayComesFromOldSource(s, run);
        }
      }
    } else {
      var i :| 0 <= i < |s.waiters| && !s.waiters[i].created;
      var nothing: seq<Action> := [];
      var run := [Create(i)] + nothing;
      ExecOne(s, Create(i), nothing);
      assert run[1..] == nothing;
      assert Exec(s, run).informer && !RegistersDuring(s, run);
    }
  }

  /** Such a stray is real: after this run the CRD is gone and handled, and an informer is there. */
  lemma StrayInformer(crd: Crd, gone: Crd) returns (run: seq<Action>)
    requires !IsRemoved(crd) && IsRemoved(gone)
    ensures Valid(Init(0), run)
    ensures var s := Exec(Init(0), run); !s.crdExists && !s.watching && s.tail.Idle? && s.informer
  {
    var s1 := Apply(Init(0), CrdEvent(crd));
    var s2 := Apply(s1, TailList([]));
    var s3 := Apply(s2, Ensure(true));
    var s4 := Apply(s3, CrdEvent(gone));
    var s5 := Apply(s4, TailRemove(true));
    ExecOne(s5, Create(0), []);
    run := [Create(0)];
    ExecOne(s4, TailRemove(true), run);
    run := [TailRemove(true)] + run;
    ExecOne(s3, CrdEvent(gone), run);
    run := [CrdEvent(gone)] + run;
    ExecOne(s2, Ensure(true), run);
    run := [Ensure(true)] + run;
    ExecOne(s1, TailList([]), run);
    run := [TailList([])] + run;
    ExecOne(Init(0), CrdEvent(crd), run);
    run := [CrdEvent(crd)] + run;
  }
}

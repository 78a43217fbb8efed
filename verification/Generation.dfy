/**
 The generation counter is a machine word. This module relates the machine's runs, in which the
 counter wraps, to the ideal runs every other statement is about.
 */
module Generation {
  import opened Common
  import opened Crds
  import opened Protocol
  import opened ProtocolInvariants

  /** uint64 arithmetic. */
  const WORD: nat := 0x1_0000_0000_0000_0000

  function ReduceWaiter(w: Waiter): Waiter {
    w.(generation := w.generation % WORD)
  }

  function ReduceWaiters(waiters: seq<Waiter>): (r: seq<Waiter>)
    ensures |r| == |waiters|
    ensures forall i :: 0 <= i < |waiters| ==> r[i] == ReduceWaiter(waiters[i])
  {
    seq(|waiters|, i requires 0 <= i < |waiters| => ReduceWaiter(waiters[i]))
  }

  /** What the machine holds when the ideal counters have the values in `s`. */
  function Reduce(s: State): State {
    s.(modulus := WORD, generation := s.generation % WORD, waiters := ReduceWaiters(s.waiters))
  }

  /** Fewer than 2^64 teardowns and invalidations happened since each undecided waiter was spawned. */
  predicate Young(s: State) {
    forall i :: 0 <= i < |s.waiters| && s.waiters[i].phase.Waiting? ==> s.generation - s.waiters[i].generation < WORD
  }

  /** Every state the ideal counter goes through along `run` is young. */
  predicate YoungRun(s: State, run: seq<Action>)
    decreases |run|
  {
    Young(s) && (run != [] && Enabled(s, run[0]) ==> YoungRun(Apply(s, run[0]), run[1..]))
  }

  /**
   The guard of a waiter that captured `captured` agrees with the ideal counter at every moment
   of its life, up to the generation `now`, exactly when fewer than 2^64 bumps happened in it.
   */
  lemma GuardAgreesWhileYoung(captured: nat, now: nat)
    requires captured <= now
    ensures now - captured < WORD <==>
            forall g: nat :: captured <= g <= now ==> (SameWord(g, captured) <==> g == captured)
  {
    if now - captured < WORD {
      forall g: nat | captured <= g <= now ensures SameWord(g, captured) <==> g == captured {
        WordsOfNeighbours(captured, g);
      }
    } else {
      var g := captured + WORD;
      WordWraps(captured);
      assert captured <= g <= now && SameWord(g, captured) && g != captured;
    }
  }

  /** The guard as the machine evaluates it. */
  predicate SameWord(current: nat, captured: nat) {
    current % WORD == captured % WORD
  }

  lemma WordsOfNeighbours(a: nat, b: nat)
    requires a <= b < a + WORD
    ensures a % WORD == b % WORD <==> a == b
  {
  }

  lemma WordWraps(a: nat)
    ensures (a + WORD) % WORD == a % WORD
  {
  }

  lemma BumpReduces(generation: nat)
    ensures Bump(generation, 0) % WORD == Bump(generation % WORD, WORD)
  {
  }

  lemma ReduceAfterUpdate(waiters: seq<Waiter>, i: nat, w: Waiter)
    requires i < |waiters|
    ensures ReduceWaiters(waiters[i := w]) == ReduceWaiters(waiters)[i := ReduceWaiter(w)]
  {
  }

  lemma ReduceAfterCancel(waiters: seq<Waiter>, cancel: Option<nat>)
    ensures ReduceWaiters(CancelWaiter(waiters, cancel)) == CancelWaiter(ReduceWaiters(waiters), cancel)
  {
  }

  lemma DecideReduces(s: State, id: nat, synced: bool)
    requires Inv(s) && Young(s) && Enabled(s, Decide(id, synced))
    ensures Reduce(DoDecide(s, id, synced)) == DoDecide(Reduce(s), id, synced)
  {
    WordsOfNeighbours(s.waiters[id].generation, s.generation);
    ReduceAfterUpdate(s.waiters, id, DoDecide(s, id, synced).waiters[id]);
  }

  lemma EnsureReduces(s: State, startOk: bool)
    requires s.modulus == 0
    ensures Reduce(DoEnsure(s, startOk)) == DoEnsure(Reduce(s), startOk)
  {
    ReduceAfterCancel(s.waiters, s.cancel);
    var cancelled := CancelWaiter(s.waiters, s.cancel);
    var w := Waiter(s.generation, false, Waiting, false);
    assert ReduceWaiters(cancelled + [w]) == ReduceWaiters(cancelled) + [ReduceWaiter(w)];
  }

  lemma LossReduces(s: State, crd: Crd)
    requires s.modulus == 0
    ensures Reduce(DoInvalidate(s)) == DoInvalidate(Reduce(s))
    ensures Reduce(DoCrdEvent(s, crd)) == DoCrdEvent(Reduce(s), crd)
  {
    BumpReduces(s.generation);
    ReduceAfterCancel(s.waiters, s.cancel);
  }

  lemma OutsideLockReduces(s: State, a: Action)
    requires Enabled(s, a) && !a.Ensure? && !a.Invalidate? && !a.CrdEvent? && !a.Decide?
    ensures Enabled(Reduce(s), a) && Reduce(Apply(s, a)) == Apply(Reduce(s), a)
  {
    if a.Create? || a.WaiterRemove? || a.WaiterList? || a.WaiterAdd? {
      ReduceAfterUpdate(s.waiters, a.id, Apply(s, a).waiters[a.id]);
    }
  }

  /** One step of the machine is the image of the ideal step, as long as no undecided waiter is too old. */
  lemma StepReduces(s: State, a: Action)
    requires Inv(s) && Young(s) && Enabled(s, a)
    ensures Enabled(Reduce(s), a) && Reduce(Apply(s, a)) == Apply(Reduce(s), a)
  {
    match a
    case Ensure(startOk) => EnsureReduces(s, startOk);
    case Decide(id, synced) => DecideReduces(s, id, synced);
    case Invalidate => LossReduces(s, Crd("", true, [], "", [], map[]));
    case CrdEvent(crd) => LossReduces(s, crd);
    case _ => OutsideLockReduces(s, a);
  }

  lemma {:induction false} RunReduces(s: State, run: seq<Action>)
    requires Inv(s) && YoungRun(s, run)
    ensures Valid(Reduce(s), run) <==> Valid(s, run)
    ensures Valid(s, run) ==> Exec(Reduce(s), run) == Reduce(Exec(s, run))
    decreases |run|
  {
    if run != [] && Enabled(s, run[0]) {
      StepReduces(s, run[0]);
      FlagsPreserved(s, run[0]);
      WaitersPreserved(s, run[0]);
      RunReduces(Apply(s, run[0]), run[1..]);
    }
  }

  /**
   As long as no undecided waiter gets too old, the 64-bit watcher has exactly the ideal runs,
   and goes through the images of the ideal states: so the waiter invariants, which speak of
   waiters being current or superseded, hold of it too.
   */
  lemma MachineRefinesIdeal(run: seq<Action>)
    requires YoungRun(Init(0), run)
    ensures Valid(Init(WORD), run) <==> Valid(Init(0), run)
    ensures Valid(Init(0), run) ==> Exec(Init(WORD), run) == Reduce(Exec(Init(0), run))
    ensures Valid(Init(WORD), run) ==>
              var m := Exec(Init(WORD), run);
              && FlagsInv(m)
              && (m.cancel.Some? <==> m.watching && !m.active)
              && (m.cancel.Some? ==> Current(m, m.cancel.value))
              && (forall i: nat :: Current(m, i) ==> m.cancel == Some(i) && !m.waiters[i].cancelled)
              && (forall i: nat :: Superseded(m, i) ==> m.waiters[i].cancelled)
  {
    assert Reduce(Init(0)) == Init(WORD) by {
      assert ReduceWaiters([]) == [];
    }
    RunReduces(Init(0), run);
    if Valid(Init(0), run) {
      InvAlongRun(Init(0), run);
      var s, m := Exec(Init(0), run), Exec(Init(WORD), run);
      YoungAtEnd(Init(0), run);
      forall i: nat | i < |s.waiters| && s.waiters[i].phase.Waiting?
        ensures Current(m, i) <==> Current(s, i)
        ensures Superseded(m, i) <==> Superseded(s, i)
      {
        WordsOfNeighbours(s.waiters[i].generation, s.generation);
      }
    }
  }

  lemma {:induction false} YoungAtEnd(s: State, run: seq<Action>)
    requires Valid(s, run) && YoungRun(s, run)
    ensures Young(Exec(s, run))
    decreases |run|
  {
    if run != [] {
      YoungAtEnd(Apply(s, run[0]), run[1..]);
    }
  }

  // ----- why the bound is needed

  /** `n` removal events, each handled to the end, of a CRD that is not being watched. */
  function Removals(crd: Crd, n: nat): seq<Action> {
    if n == 0 then [] else [CrdEvent(crd)] + Removals(crd, n - 1)
  }

  lemma {:induction false} RemovalsLength(crd: Crd, n: nat)
    ensures |Removals(crd, n)| == n
    decreases n
  {
    if n > 0 {
      RemovalsLength(crd, n - 1);
    }
  }

  lemma {:induction false} RemovalsOnlyBump(s: State, crd: Crd, n: nat)
    requires IsRemoved(crd) && s.tail.Idle? && s.modulus == WORD
    requires !s.watching && !s.active && !s.crdExists && s.cancel.None? && s.generation < WORD
    ensures Valid(s, Removals(crd, n))
    ensures var t := Exec(s, Removals(crd, n));
            && t.tail.Idle? && !t.watching && !t.active && !t.crdExists && t.cancel.None?
            && t.waiters == s.waiters && t.generation == (s.generation + n) % WORD
    decreases n
  {
    if n > 0 {
      var t := Apply(s, CrdEvent(crd));
      assert Removals(crd, n)[1..] == Removals(crd, n - 1);
      RemovalsOnlyBump(t, crd, n - 1);
    }
  }

  /**
   With 2^64 teardowns during the life of one waiter the guard fails: this run of the machine
   ends with the watch active although the CRD is gone.
   */
  lemma OldWaiterPromotesAfterWrap(crd: Crd, gone: Crd) returns (run: seq<Action>)
    requires !IsRemoved(crd) && IsRemoved(gone)
    ensures Valid(Init(WORD), run) && Exec(Init(WORD), run).active && !Exec(Init(WORD), run).crdExists
    ensures |run| == 18446744073709551616 + 5
  {
    var s1 := Apply(Init(WORD), CrdEvent(crd));
    var s2 := Apply(s1, TailList([]));
    var s3 := Apply(s2, Ensure(true));
    var s4 := Apply(s3, CrdEvent(gone));
    var s5 := Apply(s4, TailRemove(true));
    run := Removals(gone, WORD - 1);
    RemovalsLength(gone, WORD - 1);
    RemovalsOnlyBump(s5, gone, WORD - 1);
    var s6 := Exec(s5, run);
    ExecOne(s6, Decide(0, true), []);
    ExecAppend(s5, run, [Decide(0, true)]);
    run := run + [Decide(0, true)];
    ExecOne(s4, TailRemove(true), run);
    run := [TailRemove(true)] + run;
    ExecOne(s3, CrdEvent(gone), run);
    run := [CrdEvent(gone)] + run;
    ExecOne(s2, Ensure(true), run);
    run := [Ensure(true)] + run;
    ExecOne(s1, TailList([]), run);
    run := [TailList([])] + run;
    ExecOne(Init(WORD), CrdEvent(crd), run);
    run := [CrdEvent(crd)] + run;
  }
}

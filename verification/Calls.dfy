/**
 The controller's steps against the Watcher object: a run of the controller is a run of the
 protocol, and the stages a reconcile goes through between its fetch and its write are one call of
 TryGet, with every other actor running in between, under the contract of that method.
 */
module Calls {
  import opened Common
  import opened Protocol
  import opened System
  import opened Widgets
  import W = Watchers

  /** The protocol actions of a run, in order. */
  function Actions(run: seq<Step>): seq<Action> {
    if run == [] then []
    else (match ActionIn(run[0]) case None => [] case Some(a) => [a]) + Actions(run[1..])
  }

  lemma {:induction false} ActionsAppend(run: seq<Step>, more: seq<Step>)
    ensures Actions(run + more) == Actions(run) + Actions(more)
  {
    if run == [] {
      assert run + more == more;
    } else {
      assert (run + more)[1..] == run[1..] + more;
      ActionsAppend(run[1..], more);
    }
  }

  lemma ActionsThenStep(run: seq<Step>, step: Step)
    ensures Actions(run + [step]) == Actions(run) + match ActionIn(step) case None => [] case Some(a) => [a]
  {
    ActionsAppend(run, [step]);
    assert [step][1..] == [];
  }

  /** What a run of the controller does to the watcher is a run of the protocol. */
  lemma {:induction false} RunsAreProtocolRuns(s: Sys, run: seq<Step>)
    requires ValidRun(s, run)
    ensures Valid(s.w, Actions(run)) && ExecRun(s, run).w == Exec(s.w, Actions(run))
    decreases |run|
  {
    if run != [] {
      RunsAreProtocolRuns(Stepped(s, run[0]), run[1..]);
      if ActionIn(run[0]).Some? {
        ExecOne(s.w, ActionIn(run[0]).value, Actions(run[1..]));
      } else {
        assert Actions(run) == Actions(run[1..]);
      }
    }
  }

  /** So the watcher of a reachable controller is in a reachable state of the protocol. */
  lemma WatcherOfReachableSys(s: Sys)
    requires ReachableSys(s)
    ensures Reachable(s.w)
  {
    var s0, run :| IsInitial(s0) && ValidRun(s0, run) && ExecRun(s0, run) == s;
    RunsAreProtocolRuns(s0, run);
  }

  /** Only the worker that reconciles `k` takes these. */
  predicate WorkerStep(step: Step, k: Key) {
    !step.Background? && step.key == k
    && (step.Fetch? || step.CallEnsure? || step.ReadCache? || step.CallInvalidate? || step.Write? || step.Fail?)
  }

  /** None of these steps is taken by the worker of `k`. */
  predicate Elsewhere(run: seq<Step>, k: Key) {
    forall step :: step in run ==> !WorkerStep(step, k)
  }

  lemma {:induction false} StageStays(s: Sys, run: seq<Step>, k: Key)
    requires ValidRun(s, run) && k in s.busy && Elsewhere(run, k)
    ensures k in ExecRun(s, run).busy && ExecRun(s, run).busy[k] == s.busy[k] && ExecRun(s, run).half == s.half
    decreases |run|
  {
    if run != [] {
      assert run[0] in run;
      StageStays(Stepped(s, run[0]), run[1..], k);
    }
  }

  /** The read: an answer other than NotFound that is an error makes the reconcile fail. */
  function ReadStep(k: Key, informer: bool, answer: W.GetAnswer): Step {
    match answer
    case Got(content) => ReadCache(k, Some(content))
    case GetNotFound => ReadCache(k, None)
    case GetBroken(_) => if informer then Fail(k) else ReadCache(k, None)
  }

  /** The worker of `k` from its call of Ensure to the read, with `between` running before the read. */
  function StepsToRead(k: Key, startOk: bool, between: seq<Step>): seq<Step> {
    [CallEnsure(k, startOk)] + between
  }

  ghost predicate CanCall(s: Sys, k: Key, startOk: bool, between: seq<Step>) {
    && k in s.busy && s.busy[k].Fetched? && Ref(s.half, s.busy[k].snap.spec) != ""
    && ValidRun(Stepped(s, CallEnsure(k, startOk)), between) && Elsewhere(between, k)
  }

  ghost predicate Misses(s: Sys, k: Key, startOk: bool, between: seq<Step>)
    requires CanCall(s, k, startOk, between)
  {
    s.w.active && !ExecRun(Stepped(s, CallEnsure(k, startOk)), between).w.informer
  }

  /**
   The worker of `k` from its call of Ensure to the end of TryGet: `between` runs before the read
   and `late` before the invalidation. Both are cut off where the call returns earlier.
   */
  ghost function CallSteps(s: Sys, k: Key, startOk: bool, answer: W.GetAnswer, between: seq<Step>, late: seq<Step>)
    : (run: seq<Step>)
    requires CanCall(s, k, startOk, between)
  {
    if !s.w.active then [CallEnsure(k, startOk)]
    else if !Misses(s, k, startOk, between) then StepsToRead(k, startOk, between) + [ReadStep(k, true, answer)]
    else StepsToRead(k, startOk, between) + [ReadStep(k, false, answer)] + late + [CallInvalidate(k)]
  }

  /** The call of TryGet these steps are, as the contract of that method describes it. */
  ghost function CallOf(s: Sys, k: Key, startOk: bool, between: seq<Step>, late: seq<Step>): W.Call
    requires CanCall(s, k, startOk, between)
  {
    if !s.w.active then W.Call([], [], [], false, false)
    else if !Misses(s, k, startOk, between) then W.Call([], Actions(between), [], true, false)
    else W.Call([], Actions(between), Actions(late), true, true)
  }

  lemma ActionsToRead(k: Key, startOk: bool, between: seq<Step>)
    ensures Actions(StepsToRead(k, startOk, between)) == [Action.Ensure(startOk)] + Actions(between)
  {
    assert StepsToRead(k, startOk, between)[1..] == between;
  }

  lemma ActionsOfEnsure(k: Key, startOk: bool)
    ensures Actions([CallEnsure(k, startOk)]) == [Action.Ensure(startOk)]
  {
    assert [CallEnsure(k, startOk)][1..] == [];
  }

  lemma ActionsOfMiss(toRead: seq<Step>, read: Step, late: seq<Step>, k: Key)
    requires read.ReadCache?
    ensures Actions(toRead + [read] + late + [CallInvalidate(k)]) == Actions(toRead) + Actions(late) + [Invalidate]
  {
    ActionsThenStep(toRead, read);
    ActionsAppend(toRead + [read], late);
    ActionsThenStep(toRead + [read] + late, CallInvalidate(k));
  }

  lemma CallActions(s: Sys, k: Key, startOk: bool, answer: W.GetAnswer, between: seq<Step>, late: seq<Step>)
    requires CanCall(s, k, startOk, between)
    ensures Actions(CallSteps(s, k, startOk, answer, between, late)) ==
            W.CallRun(CallOf(s, k, startOk, between, late), startOk)
  {
    var c, toRead := CallOf(s, k, startOk, between, late), StepsToRead(k, startOk, between);
    if !s.w.active {
      ActionsOfEnsure(k, startOk);
    } else {
      ActionsToRead(k, startOk, between);
      assert W.AtRead(c, startOk) == Actions(toRead);
      if c.missed {
        ActionsOfMiss(toRead, ReadStep(k, false, answer), late, k);
      } else {
        ActionsThenStep(toRead, ReadStep(k, true, answer));
      }
    }
  }

  lemma CallUpToRead(s: Sys, k: Key, startOk: bool, between: seq<Step>)
    requires CanCall(s, k, startOk, between)
    ensures ValidRun(s, StepsToRead(k, startOk, between))
    ensures var t := ExecRun(s, StepsToRead(k, startOk, between));
            && t == ExecRun(Stepped(s, CallEnsure(k, startOk)), between)
            && k in t.busy && t.half == s.half && (s.w.active ==> t.busy[k] == Reading(s.busy[k].snap))
  {
    assert StepsToRead(k, startOk, between)[1..] == between;
    StageStays(Stepped(s, CallEnsure(k, startOk)), between, k);
  }

  /** Where the reconcile of `k` stands after its half has made of `r` what it could. */
  predicate StandsAfter(t: Sys, k: Key, snap: Widget, r: TryResult) {
    match OutcomeOf(Ref(t.half, snap.spec), r)
    case None => k !in t.busy && k in t.queue
    case Some(o) => k in t.busy && t.busy[k] == Settled(snap, o)
  }

  /** Without a reference nothing is called: the fetch settles on the outcome of any result whatever. */
  lemma FetchSettlesWithoutReference(h: Half, snap: Widget, r: TryResult)
    ensures FetchedStage(h, snap) ==
            if Ref(h, snap.spec) != "" then Fetched(snap) else Settled(snap, NoRef)
    ensures Ref(h, snap.spec) == "" ==> OutcomeOf(Ref(h, snap.spec), r) == Some(NoRef)
  {
  }

  /** A read that finds the informer ends the call. */
  lemma ReadSettles(s: Sys, k: Key, answer: W.GetAnswer)
    requires k in s.busy && s.busy[k].Reading? && s.w.informer && Ref(s.half, s.busy[k].snap.spec) != ""
    ensures Possible(s, ReadStep(k, true, answer))
    ensures StandsAfter(Stepped(s, ReadStep(k, true, answer)), k, s.busy[k].snap,
                        W.TryResult(true, W.ErrorOf(answer), W.ContentOf(answer)))
  {
  }

  /** One that misses it leaves the invalidation to do, and that ends the call. */
  lemma MissSettles(s: Sys, k: Key, answer: W.GetAnswer, late: seq<Step>)
    requires k in s.busy && s.busy[k].Reading? && !s.w.informer && Ref(s.half, s.busy[k].snap.spec) != ""
    requires ValidRun(Stepped(s, ReadStep(k, false, answer)), late) && Elsewhere(late, k)
    ensures var t := ExecRun(Stepped(s, ReadStep(k, false, answer)), late);
            && Possible(t, CallInvalidate(k))
            && StandsAfter(Stepped(t, CallInvalidate(k)), k, s.busy[k].snap, W.TryResult(false, None, ""))
  {
    StageStays(Stepped(s, ReadStep(k, false, answer)), late, k);
  }

  /** The steps are possible, given that those of the other actors are. */
  ghost predicate OthersRun(s: Sys, k: Key, startOk: bool, answer: W.GetAnswer, between: seq<Step>, late: seq<Step>) {
    && CanCall(s, k, startOk, between) && Elsewhere(late, k)
    && var t := ExecRun(Stepped(s, CallEnsure(k, startOk)), between);
       Misses(s, k, startOk, between) ==>
         Possible(t, ReadStep(k, false, answer)) && ValidRun(Stepped(t, ReadStep(k, false, answer)), late)
  }

  lemma CallSettles(s: Sys, k: Key, startOk: bool, answer: W.GetAnswer, between: seq<Step>, late: seq<Step>)
    requires OthersRun(s, k, startOk, answer, between, late)
    ensures var steps, c := CallSteps(s, k, startOk, answer, between, late), CallOf(s, k, startOk, between, late);
            ValidRun(s, steps) && StandsAfter(ExecRun(s, steps), k, s.busy[k].snap, W.CallResult(c, answer))
  {
    if !s.w.active {
      assert [CallEnsure(k, startOk)][1..] == [];
    } else {
      var toRead := StepsToRead(k, startOk, between);
      CallUpToRead(s, k, startOk, between);
      var t, missed := ExecRun(s, toRead), Misses(s, k, startOk, between);
      var read := ReadStep(k, !missed, answer);
      RunThenStep(s, toRead, read);
      if !missed {
        ReadSettles(t, k, answer);
      } else {
        MissSettles(t, k, answer, late);
        RunsCompose(s, toRead + [read], late);
        RunThenStep(s, toRead + [read] + late, CallInvalidate(k));
      }
    }
  }

  /** The call went as TryGet's contract says. */
  lemma CallTook(s: Sys, k: Key, startOk: bool, answer: W.GetAnswer, between: seq<Step>, late: seq<Step>)
    requires OthersRun(s, k, startOk, answer, between, late)
    ensures ValidRun(s, CallSteps(s, k, startOk, answer, between, late))
    ensures var c := CallOf(s, k, startOk, between, late);
            && W.Took(c, s.w, startOk, [], Actions(between), Actions(late))
            && ExecRun(s, CallSteps(s, k, startOk, answer, between, late)).w == Exec(s.w, W.CallRun(c, startOk))
  {
    var steps, c := CallSteps(s, k, startOk, answer, between, late), CallOf(s, k, startOk, between, late);
    CallSettles(s, k, startOk, answer, between, late);
    CallActions(s, k, startOk, answer, between, late);
    RunsAreProtocolRuns(s, steps);
    if s.w.active {
      CallUpToRead(s, k, startOk, between);
      RunsAreProtocolRuns(s, StepsToRead(k, startOk, between));
      ActionsToRead(k, startOk, between);
      assert W.AtRead(c, startOk) == [Action.Ensure(startOk)] + Actions(between);
    } else {
      assert W.AtRead(c, startOk) == W.CallRun(c, startOk);
    }
  }

  /**
   The stages of a reconcile are one call of TryGet, with the steps of all other actors as its
   schedules: the controller's watcher after them is the one that call leaves, and the outcome on
   which the half settles is what reconcilePlugin or reconcileTheme makes of the call's result. An
   error they hand on ends the reconcile and puts the key back.
   */
  lemma StagesAreTryGet(s: Sys, k: Key, startOk: bool, answer: W.GetAnswer, between: seq<Step>, late: seq<Step>)
    requires OthersRun(s, k, startOk, answer, between, late)
    ensures ValidRun(s, CallSteps(s, k, startOk, answer, between, late))
    ensures var t := ExecRun(s, CallSteps(s, k, startOk, answer, between, late));
            var c := CallOf(s, k, startOk, between, late);
            && W.Took(c, s.w, startOk, [], Actions(between), Actions(late))
            && t.w == Exec(s.w, W.CallRun(c, startOk))
            && StandsAfter(t, k, s.busy[k].snap, W.CallResult(c, answer))
  {
    CallSettles(s, k, startOk, answer, between, late);
    CallTook(s, k, startOk, answer, between, late);
  }
}

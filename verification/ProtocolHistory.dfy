/**
 Statements over whole runs: which events of the history justify which, what the counters add
 up to, and what the crdExists flag says about the last CRD event.
 */
module ProtocolHistory {
  import opened Common
  import opened Crds
  import opened Protocol
  import opened ProtocolInvariants

  // ----- justified events

  /** An event that neither starts, ends nor decides a watch. */
  predicate Neutral(e: Event) {
    e.Appeared? || e.StaleExit?
  }

  /** Between positions `from` and `to` nothing but neutral events happened. */
  predicate OnlyNeutralBetween(log: seq<Event>, from: nat, to: nat)
    requires to <= |log|
  {
    forall x :: from < x < to ==> Neutral(log[x])
  }

  /** Between positions `from` and `to` the CRD was neither torn down nor invalidated. */
  predicate NoLossBetween(log: seq<Event>, from: nat, to: nat)
    requires to <= |log|
  {
    forall x :: from < x < to ==> !log[x].TornDown? && !log[x].Invalidated?
  }

  /** Waiter `id` registered before position `to`, with nothing but neutral events since. */
  ghost predicate RegisteredBefore(log: seq<Event>, id: nat, to: nat)
    requires to <= |log|
  {
    exists j: nat :: j < to && log[j] == Registered(id) && OnlyNeutralBetween(log, j, to)
  }

  /** The CRD was seen established before position `to`, and not lost since. */
  ghost predicate EstablishedBefore(log: seq<Event>, to: nat)
    requires to <= |log|
  {
    exists j: nat :: j < to && log[j].Appeared? && NoLossBetween(log, j, to)
  }

  ghost predicate Justified(log: seq<Event>, i: nat)
    requires i < |log|
  {
    match log[i]
    case Promoted(id) => RegisteredBefore(log, id, i)
    case SyncFailed(id) => RegisteredBefore(log, id, i)
    case Registered(_) => EstablishedBefore(log, i)
    case _ => true
  }

  ghost predicate HistoryInv(s: State) {
    && (forall i: nat :: i < |s.log| ==> Justified(s.log, i))
    && (s.cancel.Some? ==> RegisteredBefore(s.log, s.cancel.value, |s.log|))
    && (s.crdExists <==> EstablishedBefore(s.log, |s.log|))
  }

  /** Appending an event leaves what lies before it as it was. */
  lemma AppendKeepsPast(log: seq<Event>, e: Event, id: nat, to: nat)
    requires to <= |log|
    ensures RegisteredBefore(log + [e], id, to) == RegisteredBefore(log, id, to)
    ensures EstablishedBefore(log + [e], to) == EstablishedBefore(log, to)
  {
    var more := log + [e];
    assert forall j: nat :: j < to ==> more[j] == log[j];
    forall j: nat | j < to
      ensures OnlyNeutralBetween(more, j, to) == OnlyNeutralBetween(log, j, to)
      ensures NoLossBetween(more, j, to) == NoLossBetween(log, j, to)
    {
      assert forall x :: j < x < to ==> more[x] == log[x];
    }
  }

  lemma AppendExtends(log: seq<Event>, e: Event, id: nat)
    ensures Neutral(e) ==> RegisteredBefore(log, id, |log|) ==> RegisteredBefore(log + [e], id, |log| + 1)
    ensures e == Registered(id) ==> RegisteredBefore(log + [e], id, |log| + 1)
    ensures EstablishedBefore(log + [e], |log| + 1) <==>
            e.Appeared? || (EstablishedBefore(log, |log|) && !e.TornDown? && !e.Invalidated?)
  {
    var more := log + [e];
    assert more[|log|] == e;
    if RegisteredBefore(log, id, |log|) && Neutral(e) {
      var j: nat :| j < |log| && log[j] == Registered(id) && OnlyNeutralBetween(log, j, |log|);
      assert OnlyNeutralBetween(more, j, |more|);
      assert more[j] == Registered(id);
    }
    if e == Registered(id) {
      assert OnlyNeutralBetween(more, |log|, |more|);
    }
    if e.Appeared? {
      assert NoLossBetween(more, |log|, |more|);
    } else if EstablishedBefore(log, |log|) && !e.TornDown? && !e.Invalidated? {
      var j: nat :| j < |log| && log[j].Appeared? && NoLossBetween(log, j, |log|);
      assert NoLossBetween(more, j, |more|) && more[j].Appeared?;
    } else if EstablishedBefore(more, |more|) {
      var j: nat :| j < |more| && more[j].Appeared? && NoLossBetween(more, j, |more|);
      assert j < |log| && more[j] == log[j];
      assert NoLossBetween(log, j, |log|) by {
        assert forall x :: j < x < |log| ==> more[x] == log[x];
      }
    }
  }

  /** Each action appends at most one event. */
  function Logged(s: State, a: Action): Option<Event>
    requires Enabled(s, a)
  {
    match a
    case Ensure(startOk) => if Registers(s, startOk) then Some(Registered(|s.waiters|)) else None
    case Invalidate => Some(Invalidated(s.active))
    case CrdEvent(crd) => Some(if IsRemoved(crd) then TornDown(s.active) else Appeared)
    case Decide(id, synced) =>
      Some(if s.waiters[id].generation != s.generation then StaleExit(id)
           else if synced then Promoted(id)
           else SyncFailed(id))
    case _ => None
  }

  lemma HistoryPreserved(s: State, a: Action)
    requires Inv(s) && HistoryInv(s) && Enabled(s, a)
    ensures HistoryInv(Apply(s, a))
  {
    var t := Apply(s, a);
    match Logged(s, a)
    case None =>
      assert t.log == s.log;
    case Some(e) =>
      assert t.log == s.log + [e];
      var id := if t.cancel.Some? then t.cancel.value else 0;
      AppendExtends(s.log, e, id);
      if a.Decide? && s.waiters[a.id].generation == s.generation {
        assert Current(s, a.id);
      }
      forall i: nat | i < |t.log| ensures Justified(t.log, i) {
        var subject := if t.log[i].Promoted? || t.log[i].SyncFailed? then t.log[i].id else 0;
        AppendKeepsPast(s.log, e, subject, i);
        assert i < |s.log| ==> t.log[i] == s.log[i] && Justified(s.log, i);
      }
  }

  lemma {:induction false} HistoryAlongRun(s: State, run: seq<Action>)
    requires Inv(s) && HistoryInv(s) && Valid(s, run)
    ensures HistoryInv(Exec(s, run))
    decreases |run|
  {
    if run != [] {
      FlagsPreserved(s, run[0]);
      WaitersPreserved(s, run[0]);
      HistoryPreserved(s, run[0]);
      HistoryAlongRun(Apply(s, run[0]), run[1..]);
    }
  }

  lemma ReachableHistory(s: State)
    requires Reachable(s)
    ensures HistoryInv(s)
  {
    var run :| Valid(Init(0), run) && Exec(Init(0), run) == s;
    HistoryAlongRun(Init(0), run);
  }

  /**
   Every promotion (and every counted sync failure) in the history is preceded by the
   registration of the same waiter, with no teardown, invalidation, sync failure, promotion or
   other registration in between, however many stale waiters came back meanwhile.
   */
  lemma MatchedActivation(s: State, i: nat)
    requires Reachable(s) && i < |s.log| && (s.log[i].Promoted? || s.log[i].SyncFailed?)
    ensures exists j: nat :: j < i && s.log[j] == Registered(s.log[i].id)
                             && forall x :: j < x < i ==> s.log[x].Appeared? || s.log[x].StaleExit?
  {
    ReachableHistory(s);
    assert Justified(s.log, i);
    var j: nat :| j < i && s.log[j] == Registered(s.log[i].id) && OnlyNeutralBetween(s.log, j, i);
  }

  /** No registration happens between a loss of the CRD and the next Established event. */
  lemma RegistrationNeedsEstablishedCrd(s: State, i: nat)
    requires Reachable(s) && i < |s.log| && s.log[i].Registered?
    ensures exists j: nat :: j < i && s.log[j].Appeared? && NoLossBetween(s.log, j, i)
  {
    ReachableHistory(s);
    assert Justified(s.log, i);
  }

  /** crdExists holds exactly when the CRD was seen established and neither torn down nor invalidated since. */
  lemma CrdFlagSoundness(s: State)
    requires Reachable(s)
    ensures s.crdExists <==>
            exists j: nat :: j < |s.log| && s.log[j].Appeared? && NoLossBetween(s.log, j, |s.log|)
  {
    ReachableHistory(s);
  }

  /**
   In terms of the delivered CRD events alone: the flag implies that the last one was
   Established, and conversely whenever no invalidation followed that event.
   */
  lemma CrdFlagAndLastEvent(s: State, last: nat)
    requires Reachable(s) && last < |s.log| && (s.log[last].Appeared? || s.log[last].TornDown?)
    requires forall x :: last < x < |s.log| ==> !s.log[x].Appeared? && !s.log[x].TornDown?
    ensures s.crdExists ==> s.log[last].Appeared?
    ensures (forall x :: last < x < |s.log| ==> !s.log[x].Invalidated?) ==> (s.crdExists <==> s.log[last].Appeared?)
  {
    CrdFlagSoundness(s);
    if s.crdExists {
      var j: nat :| j < |s.log| && s.log[j].Appeared? && NoLossBetween(s.log, j, |s.log|);
      assert j <= last;
    }
    if s.log[last].Appeared? && forall x :: last < x < |s.log| ==> !s.log[x].Invalidated? {
      assert NoLossBetween(s.log, last, |s.log|);
    }
  }

  lemma {:induction false} FlagWithoutEvents(s: State, run: seq<Action>)
    requires Valid(s, run) && forall a :: a in run ==> !a.CrdEvent?
    ensures Exec(s, run).crdExists <==> s.crdExists && Invalidate !in run
    decreases |run|
  {
    if run != [] {
      assert run == [run[0]] + run[1..];
      FlagWithoutEvents(Apply(s, run[0]), run[1..]);
    }
  }

  /**
   In terms of the CRD objects: after any run the flag says that the CRD of the last event is
   installed (it is not being deleted, and its first Established condition is True) and that no
   reader has invalidated the watch since.
   */
  lemma {:induction false} CrdFlagTellsLastEvent(s: State, run: seq<Action>, last: nat)
    requires Valid(s, run) && last < |run| && run[last].CrdEvent?
    requires forall i :: last < i < |run| ==> !run[i].CrdEvent?
    ensures Exec(s, run).crdExists <==> Installed(run[last].crd) && Invalidate !in run[last + 1..]
    decreases last
  {
    if last == 0 {
      RemovedIffNotInstalled(run[0].crd);
      FlagWithoutEvents(Apply(s, run[0]), run[1..]);
    } else {
      CrdFlagTellsLastEvent(Apply(s, run[0]), run[1..], last - 1);
      assert run[1..][last..] == run[last + 1..];
    }
  }

  // ----- accounting

  /** How often each kind of event occurs in a history; `ready` ones found the watch active. */
  datatype Tallies = Tallies(
    teardowns: nat, readyTeardowns: nat, losses: nat, readyLosses: nat,
    registrations: nat, promotions: nat, failures: nat, staleReturns: nat)

  const NONE := Tallies(0, 0, 0, 0, 0, 0, 0, 0)

  function Count(c: Tallies, e: Event): Tallies {
    match e
    case Appeared => c
    case TornDown(ready) =>
      c.(teardowns := c.teardowns + 1, readyTeardowns := c.readyTeardowns + if ready then 1 else 0)
    case Invalidated(ready) =>
      c.(losses := c.losses + 1, readyLosses := c.readyLosses + if ready then 1 else 0)
    case Registered(_) => c.(registrations := c.registrations + 1)
    case Promoted(_) => c.(promotions := c.promotions + 1)
    case SyncFailed(_) => c.(failures := c.failures + 1)
    case StaleExit(_) => c.(staleReturns := c.staleReturns + 1)
  }

  function Tally(log: seq<Event>): Tallies {
    if log == [] then NONE else Count(Tally(log[..|log| - 1]), log[|log| - 1])
  }

  lemma TallyAppend(log: seq<Event>, e: Event)
    ensures Tally(log + [e]) == Count(Tally(log), e)
  {
    assert (log + [e])[..|log|] == log;
  }

  function CountLogged(c: Tallies, e: Option<Event>): Tallies {
    if e.Some? then Count(c, e.value) else c
  }

  lemma TallyStep(s: State, a: Action)
    requires Enabled(s, a)
    ensures Tally(Apply(s, a).log) == CountLogged(Tally(s.log), Logged(s, a))
  {
    if Logged(s, a).Some? {
      assert Apply(s, a).log == s.log + [Logged(s, a).value];
      TallyAppend(s.log, Logged(s, a).value);
    } else {
      assert Apply(s, a).log == s.log;
    }
  }

  function Undecided(waiters: seq<Waiter>): set<nat> {
    set i: nat | i < |waiters| && waiters[i].phase.Waiting?
  }

  /** A teardown of a ready watch whose deactivation is not counted yet. */
  function UncountedTeardowns(s: State): nat {
    if (s.tail.RemoveOwed? && s.tail.wasReady) || s.tail.GaugeOwed? || s.tail.CountOwed? then 1 else 0
  }

  /** The counters of `s` agree with the tallies `c` of its history. */
  predicate CountersFit(s: State, c: Tallies) {
    && s.generation == c.teardowns + s.metrics.invalidated
    && s.metrics.invalidated == c.losses
    && s.metrics.activated == c.promotions
    && s.metrics.syncFailed == c.failures
    && |s.waiters| == c.registrations
    && c.readyTeardowns == s.metrics.deactivated + UncountedTeardowns(s)
    && s.metrics.activated == c.readyTeardowns + c.readyLosses + (if s.active then 1 else 0)
    && |s.waiters| == s.metrics.activated + s.metrics.syncFailed + c.staleReturns + |Undecided(s.waiters)|
  }

  predicate GaugeInv(s: State) {
    && s.metrics.gauge <= 1
    && (s.active ==> s.metrics.gauge == 1)
    && (s.metrics.gauge == 1 ==> s.active || (s.tail.RemoveOwed? && s.tail.wasReady) || s.tail.GaugeOwed?)
  }

  lemma UndecidedAfterCancel(waiters: seq<Waiter>, cancel: Option<nat>)
    ensures Undecided(CancelWaiter(waiters, cancel)) == Undecided(waiters)
  {
  }

  lemma UndecidedAfterSpawn(waiters: seq<Waiter>, w: Waiter)
    requires w.phase.Waiting?
    ensures |Undecided(waiters + [w])| == |Undecided(waiters)| + 1
  {
    var more, n := waiters + [w], |waiters|;
    forall i: nat ensures i in Undecided(more) <==> i in Undecided(waiters) || i == n {
      assert i < n ==> more[i] == waiters[i];
    }
    assert Undecided(more) == Undecided(waiters) + {n};
  }

  lemma UndecidedAfterUpdate(waiters: seq<Waiter>, id: nat, w: Waiter)
    requires id < |waiters| && !w.phase.Waiting?
    ensures |Undecided(waiters[id := w])| == |Undecided(waiters)| - if waiters[id].phase.Waiting? then 1 else 0
  {
    assert Undecided(waiters[id := w]) == Undecided(waiters) - {id};
    assert id in Undecided(waiters) <==> waiters[id].phase.Waiting?;
  }

  lemma UndecidedAfterCreate(waiters: seq<Waiter>, id: nat)
    requires id < |waiters|
    ensures Undecided(waiters[id := waiters[id].(created := true)]) == Undecided(waiters)
  {
  }

  lemma CountersAfterDecide(s: State, c: Tallies, id: nat, synced: bool)
    requires Inv(s) && CountersFit(s, c) && Enabled(s, Decide(id, synced))
    ensures CountersFit(DoDecide(s, id, synced), CountLogged(c, Logged(s, Decide(id, synced))))
  {
    UndecidedAfterUpdate(s.waiters, id, DoDecide(s, id, synced).waiters[id]);
    if s.waiters[id].generation == s.generation {
      assert Current(s, id);
    }
  }

  /** The critical sections other than the waiters' own. */
  lemma CountersAfterSection(s: State, c: Tallies, a: Action)
    requires FlagsInv(s) && s.modulus == 0 && CountersFit(s, c) && Enabled(s, a)
    requires a.Ensure? || a.Invalidate? || a.CrdEvent?
    ensures CountersFit(Apply(s, a), CountLogged(c, Logged(s, a)))
  {
    UndecidedAfterCancel(s.waiters, s.cancel);
    if a.Ensure? {
      UndecidedAfterSpawn(CancelWaiter(s.waiters, s.cancel), Waiter(s.generation, false, Waiting, false));
    }
  }

  /** The operations outside the lock. */
  lemma CountersOutsideLock(s: State, c: Tallies, a: Action)
    requires CountersFit(s, c) && Enabled(s, a) && Logged(s, a).None? && !a.Ensure?
    ensures CountersFit(Apply(s, a), c)
  {
    if a.Create? {
      UndecidedAfterCreate(s.waiters, a.id);
    } else if a.WaiterRemove? || a.WaiterList? || a.WaiterAdd? {
      UndecidedAfterUpdate(s.waiters, a.id, Apply(s, a).waiters[a.id]);
    }
  }

  lemma CountersPreserved(s: State, c: Tallies, a: Action)
    requires Inv(s) && CountersFit(s, c) && Enabled(s, a)
    ensures CountersFit(Apply(s, a), CountLogged(c, Logged(s, a)))
  {
    if a.Decide? {
      CountersAfterDecide(s, c, a.id, a.synced);
    } else if a.Ensure? || a.Invalidate? || a.CrdEvent? {
      CountersAfterSection(s, c, a);
    } else {
      CountersOutsideLock(s, c, a);
    }
  }

  lemma GaugePreserved(s: State, a: Action)
    requires Inv(s) && GaugeInv(s) && Enabled(s, a)
    ensures GaugeInv(Apply(s, a))
  {
    if a.Decide? && s.waiters[a.id].generation == s.generation {
      assert Current(s, a.id);
    }
  }

  lemma {:induction false} CountersAlongRun(s: State, run: seq<Action>)
    requires Inv(s) && CountersFit(s, Tally(s.log)) && GaugeInv(s) && Valid(s, run)
    ensures var t := Exec(s, run); CountersFit(t, Tally(t.log)) && GaugeInv(t)
    decreases |run|
  {
    if run != [] {
      FlagsPreserved(s, run[0]);
      WaitersPreserved(s, run[0]);
      CountersPreserved(s, Tally(s.log), run[0]);
      TallyStep(s, run[0]);
      GaugePreserved(s, run[0]);
      CountersAlongRun(Apply(s, run[0]), run[1..]);
    }
  }

  lemma InitialCounters(start: State)
    requires start == Init(0)
    ensures CountersFit(start, Tally(start.log)) && GaugeInv(start)
  {
    assert Undecided(start.waiters) == {};
  }

  /** The conservation laws of the counters, in every reachable state. */
  lemma Accounting(s: State)
    requires Reachable(s)
    ensures s.generation == Tally(s.log).teardowns + s.metrics.invalidated
    ensures |s.waiters| ==
            s.metrics.activated + s.metrics.syncFailed + Tally(s.log).staleReturns + |Undecided(s.waiters)|
    ensures s.metrics.activated ==
            s.metrics.deactivated + (if s.active then 1 else 0) + UncountedTeardowns(s) + Tally(s.log).readyLosses
    ensures s.active ==> s.metrics.gauge == 1
    ensures s.metrics.gauge == 1 ==> s.active || (s.tail.RemoveOwed? && s.tail.wasReady) || s.tail.GaugeOwed?
    ensures s.metrics.gauge == 0 || s.metrics.gauge == 1
  {
    var start, run :| start == Init(0) && Valid(start, run) && Exec(start, run) == s;
    InitialCounters(start);
    CountersAlongRun(start, run);
  }
}

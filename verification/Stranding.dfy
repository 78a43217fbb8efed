/**
 Why the claims about the whole controller name exceptions: a run in which a late
 handleCacheInvalidated resets a watch that is newer than the read that failed, and a Widget is
 left with a status that nothing will correct; one in which a source fails to start, and the watch
 is left in Pending although the CRD is there; and one in which a reconcile starts from an outdated
 status and leaves the outdated condition in place.
 */
module Stranding {
  import opened Common
  import opened Crds
  import opened Protocol
  import opened System
  import opened Obligations
  import opened EndToEnd
  import opened Convergence
  import opened ProtocolInvariants
  import opened Widgets

  /** Some run leads from `s` to `t`. */
  ghost predicate Leads(s: Sys, t: Sys) {
    exists run :: ValidRun(s, run) && ExecRun(s, run) == t
  }

  lemma Then(start: Sys, s: Sys, step: Step) returns (t: Sys)
    requires Leads(start, s) && Possible(s, step)
    ensures t == Stepped(s, step) && Leads(start, t)
  {
    var run :| ValidRun(start, run) && ExecRun(start, run) == s;
    RunThenStep(start, run, step);
    t := Stepped(s, step);
  }

  ghost predicate SameParents(s: Sys, t: Sys) {
    && t.half == s.half && t.widgets.Keys == s.widgets.Keys
    && (forall k :: IsParent(t, k) <==> IsParent(s, k))
    && (forall k :: k in s.widgets ==> Cached(t.widgets, t.behind, k) == Cached(s.widgets, s.behind, k))
  }

  predicate CachedTells(s: Sys, k: Key)
    requires k in s.widgets
  {
    TellsUnavailable(s.half, Cached(s.widgets, s.behind, k).status)
  }

  /** After a write of `k` from the snapshot `snap`: when it is not skewed, and when it says unavailable. */
  ghost predicate Shows(s: Sys, t: Sys, k: Key, snap: Widget, unavailable: bool)
    requires k in s.widgets && k in t.widgets
  {
    && (forall x :: x != k ==> (x in t.skewed <==> x in s.skewed))
    && (TellsUnavailable(s.half, snap.status) == SaysUnavailable(s, k) ==> k !in t.skewed)
    && (ConditionFor(s.half, snap).None? ==> k !in t.skewed)
    && (unavailable && !TellsUnavailable(s.half, snap.status) ==> SaysUnavailable(t, k))
  }

  /** Nothing happened to the Widgets. */
  ghost predicate Untouched(s: Sys, t: Sys) {
    (t.half, t.widgets, t.behind, t.skewed) == (s.half, s.widgets, s.behind, s.skewed)
  }

  lemma UntouchedIsSame(s: Sys, t: Sys)
    requires Untouched(s, t)
    ensures SameParents(s, t)
  {
  }

  lemma SameTransitive(s: Sys, t: Sys, u: Sys)
    requires SameParents(s, t) && SameParents(t, u)
    ensures SameParents(s, u)
  {
  }

  /** The write of a settled reconcile. */
  lemma Finish(start: Sys, s: Sys, k: Key) returns (t: Sys)
    requires Leads(start, s) && k in s.busy && s.busy[k].Settled? && k in s.widgets
    ensures Leads(start, t) && SameParents(s, t)
    ensures (t.queue, t.busy, t.w, t.sights) == (s.queue, s.busy - {k}, s.w, s.sights)
    ensures !s.busy[k].outcome.NoRef? ==> Shows(s, t, k, s.busy[k].snap, s.busy[k].outcome.Unavailable?)
  {
    var other := if Ref(OtherHalf(s.half), s.busy[k].snap.spec) == "" then NoRef else Unavailable;
    t := Then(start, s, Write(k, other, 0));
    WriteLeaves(s, k, other);
    if !s.busy[k].outcome.NoRef? {
      WriteShows(s, k, other);
    }
  }

  lemma WriteLeaves(s: Sys, k: Key, other: Outcome)
    requires Possible(s, Write(k, other, 0)) && k in s.widgets
    ensures var t := Stepped(s, Write(k, other, 0));
            SameParents(s, t) && (t.queue, t.busy, t.w, t.sights) == (s.queue, s.busy - {k}, s.w, s.sights)
  {
  }

  lemma WriteShows(s: Sys, k: Key, other: Outcome)
    requires Possible(s, Write(k, other, 0)) && k in s.widgets && !s.busy[k].outcome.NoRef?
    ensures Shows(s, Stepped(s, Write(k, other, 0)), k, s.busy[k].snap, s.busy[k].outcome.Unavailable?)
  {
    var snap, mine := s.busy[k].snap, s.busy[k].outcome;
    var after := StatusFor(s.half, snap, mine, other, 0);
    var plugin, theme := if s.half == Plugin then mine else other, if s.half == Plugin then other else mine;
    assert after == ReconciledStatus(snap, plugin, theme, 0);
    ReconciledReason(snap, plugin, theme, 0);
    WriteShowsOutcome(s, k, other, 0);
  }

  /** From the queue to the read of the Widget. */
  lemma TakeAndFetch(start: Sys, s: Sys, k: Key) returns (t: Sys)
    requires Leads(start, s) && k in s.queue && k !in s.busy && IsParent(s, k)
    ensures Leads(start, t) && Untouched(s, t)
    ensures t.queue == s.queue - {k} && t.w == s.w && t.sights == s.sights
    ensures t.busy == s.busy[k := Fetched(Cached(s.widgets, s.behind, k))]
  {
    var a := Then(start, s, Dequeue(k));
    t := Then(start, a, Fetch(k));
  }

  /** From the queue to the call of Ensure. */
  lemma Begin(start: Sys, s: Sys, k: Key) returns (t: Sys)
    requires Leads(start, s) && k in s.queue && k !in s.busy && IsParent(s, k)
    ensures Leads(start, t) && Untouched(s, t)
    ensures t.queue == s.queue - {k} && t.w == DoEnsure(s.w, true)
    ensures t.sights == s.sights[k := EnsureSight(s.w, true)]
    ensures t.busy == s.busy[k := if s.w.active then Reading(Cached(s.widgets, s.behind, k))
                                  else Settled(Cached(s.widgets, s.behind, k), Unavailable)]
  {
    var b := TakeAndFetch(start, s, k);
    t := Then(start, b, CallEnsure(k, true));
  }

  /** And on to the end of this half. */
  lemma Settle(start: Sys, s: Sys, k: Key) returns (t: Sys)
    requires Leads(start, s) && k in s.queue && k !in s.busy && IsParent(s, k) && (s.w.active ==> s.w.informer)
    ensures Leads(start, t) && Untouched(s, t)
    ensures t.queue == s.queue - {k} && t.w == DoEnsure(s.w, true)
    ensures t.sights == s.sights[k := EnsureSight(s.w, true)]
    ensures t.busy == s.busy[k := Settled(Cached(s.widgets, s.behind, k),
                                          if s.w.active then Outcome.NotFound else Unavailable)]
  {
    t := Begin(start, s, k);
    if s.w.active {
      t := Then(start, t, ReadCache(k, None));
    }
  }

  lemma SettledRound(s: Sys, b: Sys, t: Sys, k: Key, snap: Widget, unavailable: bool)
    requires Untouched(s, b) && SameParents(b, t) && k in s.widgets && k in t.widgets
    requires Shows(b, t, k, snap, unavailable)
    ensures SameParents(s, t) && Shows(s, t, k, snap, unavailable)
  {
    UntouchedIsSame(s, b);
    SameTransitive(s, b, t);
  }

  /** A whole reconcile of one parent, uninterrupted. */
  lemma Round(start: Sys, s: Sys, k: Key) returns (t: Sys)
    requires Leads(start, s) && k in s.queue && k !in s.busy && IsParent(s, k) && (s.w.active ==> s.w.informer)
    ensures Leads(start, t) && SameParents(s, t)
    ensures t.queue == s.queue - {k} && t.busy == s.busy && t.w == DoEnsure(s.w, true)
    ensures t.sights == s.sights[k := EnsureSight(s.w, true)]
    ensures Shows(s, t, k, Cached(s.widgets, s.behind, k), !s.w.active)
  {
    var b := Settle(start, s, k);
    UntouchedIsSame(s, b);
    t := Finish(start, b, k);
    SettledRound(s, b, t, k, Cached(s.widgets, s.behind, k), !s.w.active);
    assert t.busy == s.busy;
  }

  lemma HandlerAdds(start: Sys, s: Sys) returns (t: Sys)
    requires Leads(start, s) && s.w.tail.AddOwed? && s.w.tail.rest != []
    ensures Leads(start, t)
    ensures t == s.(w := s.w.(tail := Idle), queue := s.queue + set k | k in s.w.tail.rest)
    decreases |s.w.tail.rest|
  {
    var rest := s.w.tail.rest;
    assert (set k | k in rest) == {rest[0]} + set k | k in rest[1..];
    t := Then(start, s, Background(TailAdd));
    if rest[1..] != [] {
      t := HandlerAdds(start, t);
    }
    assert t.queue == s.queue + set k | k in rest;
  }

  /** onCRDChange lists the parents and adds them. */
  lemma HandlerRequeues(start: Sys, s: Sys, parents: seq<Key>) returns (t: Sys)
    requires Leads(start, s) && s.w.tail.ListOwed? && Complete(s, parents) && parents != []
    ensures Leads(start, t)
    ensures t == s.(w := s.w.(tail := Idle), queue := s.queue + set k | k in parents)
  {
    var u := Then(start, s, Background(TailList(parents)));
    t := HandlerAdds(start, u);
  }

  lemma WaiterAddsOne(start: Sys, s: Sys, i: nat) returns (t: Sys)
    requires Leads(start, s) && i < |s.w.waiters| && s.w.waiters[i].phase.Adding? && s.w.waiters[i].phase.left != []
    ensures Leads(start, t)
    ensures var phase := s.w.waiters[i].phase;
            t == s.(w := SetPhase(s.w, i, AfterListing(phase.promoted, phase.left[1..])),
                    queue := s.queue + {phase.left[0]})
  {
    t := Then(start, s, Background(WaiterAdd(i)));
  }

  lemma WaiterAdds(start: Sys, s: Sys, i: nat) returns (t: Sys)
    requires Leads(start, s) && i < |s.w.waiters| && s.w.waiters[i].phase.Adding? && s.w.waiters[i].phase.left != []
    ensures Leads(start, t)
    ensures t == s.(w := SetPhase(s.w, i, Phase.Finished), queue := s.queue + set k | k in s.w.waiters[i].phase.left)
    decreases |s.w.waiters[i].phase.left|
  {
    var left := s.w.waiters[i].phase.left;
    assert (set k | k in left) == {left[0]} + set k | k in left[1..];
    t := WaiterAddsOne(start, s, i);
    if left[1..] != [] {
      var u := t;
      t := WaiterAdds(start, u, i);
      assert SetPhase(u.w, i, Phase.Finished) == SetPhase(s.w, i, Phase.Finished);
    }
    assert t.queue == s.queue + set k | k in left;
  }

  /** A waiter lists the parents and adds them. */
  lemma WaiterRequeues(start: Sys, s: Sys, i: nat, parents: seq<Key>) returns (t: Sys)
    requires Leads(start, s) && i < |s.w.waiters| && s.w.waiters[i].phase.Listing?
    requires Complete(s, parents) && parents != []
    ensures Leads(start, t)
    ensures t == s.(w := SetPhase(s.w, i, Phase.Finished), queue := s.queue + set k | k in parents)
  {
    var u := Then(start, s, Background(WaiterList(i, parents)));
    t := WaiterAdds(start, u, i);
    assert SetPhase(u.w, i, Phase.Finished) == SetPhase(s.w, i, Phase.Finished);
  }

  // ----- the run

  /** The watch is in this state, its handler idle, its `n` waiters done. */
  predicate Calm(w: State, crdExists: bool, watching: bool, n: nat) {
    && w.crdExists == crdExists && w.watching == watching && w.active == watching
    && (watching ==> w.informer) && w.tail.Idle? && w.modulus == 0 && w.cancel.None?
    && |w.waiters| == n && forall i :: 0 <= i < n ==> w.waiters[i].phase.Finished?
  }

  /** The source of the current waiter creates its informer, it syncs, and the parents are requeued. */
  lemma Sync(start: Sys, s: Sys, parents: seq<Key>, n: nat) returns (t: Sys)
    requires Leads(start, s) && Syncs(s.w, n) && Complete(s, parents) && parents != []
    ensures Leads(start, t) && Untouched(s, t) && Calm(t.w, true, true, n + 1)
    ensures t.queue == s.queue + (set x | x in parents) && t.busy == s.busy && t.sights == s.sights
  {
    var a := Then(start, s, Background(Create(n)));
    var b := Then(start, a, Background(Decide(n, true)));
    t := WaiterRequeues(start, b, n, parents);
  }

  /** Waiter `n`, just spawned, is the current one, and the others are done. */
  predicate Syncs(w: State, n: nat) {
    && w.crdExists && w.watching && !w.active && w.tail.Idle? && w.modulus == 0
    && |w.waiters| == n + 1 && w.waiters[n] == Waiter(w.generation, false, Waiting, false)
    && forall i :: 0 <= i < n ==> w.waiters[i].phase.Finished?
  }

  /** In Pending, with `k` queued: `k` registers the watch, it syncs, and the parents are requeued. */
  lemma Activate(start: Sys, s: Sys, k: Key, parents: seq<Key>, n: nat) returns (t: Sys)
    requires Leads(start, s) && Calm(s.w, true, false, n)
    requires k in s.queue && k !in s.busy && IsParent(s, k) && Complete(s, parents)
    ensures Leads(start, t) && SameParents(s, t) && Calm(t.w, true, true, n + 1)
    ensures t.queue == (s.queue - {k}) + (set x | x in parents) && t.busy == s.busy
    ensures Shows(s, t, k, Cached(s.widgets, s.behind, k), true)
  {
    var a := Round(start, s, k);
    assert k in parents;
    CompleteStays(s, a, parents);
    t := Sync(start, a, parents, n);
    UntouchedIsSame(a, t);
    SameTransitive(s, a, t);
  }

  lemma CompleteStays(s: Sys, t: Sys, parents: seq<Key>)
    requires SameParents(s, t) && Complete(s, parents)
    ensures Complete(t, parents)
  {
    assert |t.widgets| == |t.widgets.Keys| && |s.widgets| == |s.widgets.Keys|;
  }

  /** The CRD is established and the parents are requeued. */
  lemma Appear(start: Sys, s: Sys, crd: Crd, parents: seq<Key>, n: nat) returns (t: Sys)
    requires Leads(start, s) && Calm(s.w, false, false, n) && !IsRemoved(crd) && Complete(s, parents) && parents != []
    ensures Leads(start, t) && Untouched(s, t) && Calm(t.w, true, false, n)
    ensures t.queue == s.queue + (set x | x in parents) && t.busy == s.busy
  {
    var a := Then(start, s, Background(CrdEvent(crd)));
    t := HandlerRequeues(start, a, parents);
  }

  /** The CRD goes away between the Ensure and the read of `k`, which then misses the informer. */
  lemma Disappear(start: Sys, s: Sys, gone: Crd, k: Key, parents: seq<Key>, n: nat) returns (t: Sys)
    requires Leads(start, s) && Calm(s.w, true, true, n) && IsRemoved(gone) && Complete(s, parents) && parents != []
    requires k in s.busy && s.busy[k].Reading?
    ensures Leads(start, t) && Untouched(s, t) && Calm(t.w, false, false, n)
    ensures t.queue == s.queue + (set x | x in parents) && t.busy == s.busy[k := Missing(s.busy[k].snap)]
  {
    var a := Then(start, s, Background(CrdEvent(gone)));
    var b := Then(start, a, Background(TailRemove(true)));
    var c := Then(start, b, ReadCache(k, None));
    t := CompleteRemoval(start, c, parents, n);
  }

  /** The rest of onCRDChange after RemoveInformer. */
  lemma CompleteRemoval(start: Sys, s: Sys, parents: seq<Key>, n: nat) returns (t: Sys)
    requires Leads(start, s) && s.w.tail.GaugeOwed? && Calm(s.w.(tail := Idle), false, false, n)
    requires Complete(s, parents) && parents != []
    ensures Leads(start, t) && Untouched(s, t) && Calm(t.w, false, false, n)
    ensures t.queue == s.queue + (set x | x in parents) && t.busy == s.busy
  {
    var a := Then(start, s, Background(TailGauge));
    var b := Then(start, a, Background(TailCount));
    t := HandlerRequeues(start, b, parents);
  }

  /** The CRD is there, and the one Widget `p` is in the queue. */
  lemma Begun(crd: Crd, p: Widget) returns (start: Sys, t: Sys)
    requires !IsRemoved(crd) && p.spec.pluginRef != ""
    ensures IsInitial(start) && Leads(start, t) && Calm(t.w, true, false, 0)
    ensures t.half == Plugin && t.widgets.Keys == {p.key} && IsParent(t, p.key) && Complete(t, [p.key])
    ensures t.queue == {p.key} && t.busy == map[] && t.widgets[p.key] == p && t.behind == map[] && t.skewed == {}
  {
    var k := p.key;
    start := Sys(Plugin, Init(0), {k}, map[], map[k := p], map[], map[], {});
    assert ValidRun(start, []) && ExecRun(start, []) == start;
    t := Appear(start, start, crd, [k], 0);
    assert |t.widgets| == |t.widgets.Keys| == 1;
  }

  /** The watch becomes active, and `p` has been told so and is about to read. */
  lemma Opening(crd: Crd, p: Widget) returns (start: Sys, t: Sys)
    requires !IsRemoved(crd) && p.spec.pluginRef != ""
    ensures IsInitial(start) && Leads(start, t) && Calm(t.w, true, true, 1)
    ensures t.half == Plugin && t.widgets.Keys == {p.key} && IsParent(t, p.key) && t.queue == {}
    ensures p.key in t.busy && t.busy[p.key].Reading? && t.busy.Keys == {p.key}
  {
    var k := p.key;
    var a;
    start, a := Begun(crd, p);
    var b := Activate(start, a, k, [k], 0);
    assert b.queue == {k};
    t := Begin(start, b, k);
  }

  /** `p` reads too late: it finds the informer missing, and the CRD comes back before it invalidates. */
  lemma FirstHalf(crd: Crd, gone: Crd, p: Widget) returns (start: Sys, t: Sys)
    requires !IsRemoved(crd) && IsRemoved(gone) && p.spec.pluginRef != ""
    ensures IsInitial(start) && Leads(start, t) && Calm(t.w, true, false, 1)
    ensures t.half == Plugin && t.widgets.Keys == {p.key} && IsParent(t, p.key) && t.queue == {p.key}
    ensures p.key in t.busy && t.busy[p.key].Missing? && t.busy.Keys == {p.key}
  {
    var k := p.key;
    var s;
    start, s := Opening(crd, p);
    assert |s.widgets| == |s.widgets.Keys| == 1;
    var d := Disappear(start, s, gone, k, [k], 1);
    assert |d.widgets| == |d.widgets.Keys| == 1;
    t := Appear(start, d, crd, [k], 1);
  }

  /** A new Widget `q` is created. */
  lemma NewWidget(start: Sys, s: Sys, p: Key, q: Key, spec: Spec) returns (t: Sys)
    requires Leads(start, s) && s.half == Plugin && p != q && spec.pluginRef != ""
    requires s.widgets.Keys == {p} && IsParent(s, p) && s.queue == {p}
    ensures Leads(start, t) && t.w == s.w && t.busy == s.busy && t.queue == {p, q} && t.widgets.Keys == {p, q}
    ensures t.half == Plugin
    ensures IsParent(t, p) && IsParent(t, q) && Complete(t, [p, q])
    ensures q !in s.behind ==> ConditionFor(Plugin, Cached(t.widgets, t.behind, q)).None?
  {
    t := Then(start, s, Edit(q, spec));
    assert t.widgets.Keys == {p, q} && |t.widgets| == |t.widgets.Keys| == 2;
  }

  /** It gets the watch going again. */
  lemma Rejoin(start: Sys, s: Sys, p: Key, q: Key, spec: Spec) returns (t: Sys)
    requires Leads(start, s) && Calm(s.w, true, false, 1) && s.half == Plugin && p != q && spec.pluginRef != ""
    requires s.widgets.Keys == {p} && IsParent(s, p) && s.queue == {p} && s.busy.Keys == {p} && Keyed(s)
    ensures Leads(start, t) && Calm(t.w, true, true, 2) && t.busy == s.busy && t.queue == {p, q}
    ensures IsParent(t, p) && IsParent(t, q) && t.half == Plugin
    ensures ConditionFor(Plugin, Cached(t.widgets, t.behind, q)).None?
  {
    var a := NewWidget(start, s, p, q, spec);
    t := Activate(start, a, q, [p, q], 1);
    assert t.queue == {p, q};
  }

  /** And it sees the watch ready. */
  lemma Regain(start: Sys, s: Sys, p: Key, q: Key, spec: Spec) returns (t: Sys)
    requires Leads(start, s) && Calm(s.w, true, false, 1) && s.half == Plugin && p != q && spec.pluginRef != ""
    requires s.widgets.Keys == {p} && IsParent(s, p) && s.queue == {p} && s.busy.Keys == {p} && Keyed(s)
    ensures Leads(start, t) && Calm(t.w, true, true, 2) && t.busy == s.busy && t.queue == {p}
    ensures IsParent(t, p) && IsParent(t, q) && q in t.sights && t.sights[q].available
    ensures q !in t.skewed
  {
    var b := Rejoin(start, s, p, q, spec);
    t := Round(start, b, q);
    assert t.queue == {p};
  }

  /** Then `p` invalidates it, and everything comes to rest. */
  lemma SecondHalf(start: Sys, s: Sys, p: Key, q: Key) returns (t: Sys)
    requires Leads(start, s) && Calm(s.w, true, true, 2) && s.queue == {p} && IsParent(s, p) && IsParent(s, q)
    requires p in s.busy && s.busy[p].Missing? && s.busy.Keys == {p} && p != q
    requires q in s.sights && s.sights[q].available && q !in s.skewed
    ensures Leads(start, t) && Quiescent(t) && IsParent(t, q) && !t.w.active
    ensures q in t.sights && t.sights[q].available && q !in t.skewed
  {
    var d := Then(start, s, CallInvalidate(p));
    var e := Finish(start, d, p);
    t := Round(start, e, p);
    assert t.busy.Keys == {};
    assert t.queue == {};
  }

  /**
   This exception is real: at the end of this run nothing is queued, in progress or owed, the
   watch is not active, and the status of `q` does not say so.
   */
  lemma LateInvalidationStrands(crd: Crd, gone: Crd, p: Widget, q: Key, spec: Spec) returns (s: Sys)
    requires !IsRemoved(crd) && IsRemoved(gone)
    requires p.spec.pluginRef != "" && spec.pluginRef != "" && p.key != q
    ensures ReachableSys(s) && Quiescent(s) && IsParent(s, q) && !s.w.active
    ensures Stranded(s, q) && !SaysUnavailable(s, q)
  {
    var start, mid := FirstHalf(crd, gone, p);
    ReachableKeyed(mid);
    var ready := Regain(start, mid, p.key, q, spec);
    s := SecondHalf(start, ready, p.key, q);
    ReachableSysInv(s);
    assert RestingAt(s, q);
    StatusTellsAvailability(s, q);
  }

  // ----- a source that does not start

  /** At the end of this run nothing is queued, in progress or owed, the CRD is there and the watch is Pending. */
  lemma FailedStartLeavesPending(crd: Crd, p: Widget) returns (s: Sys)
    requires !IsRemoved(crd) && p.spec.pluginRef != ""
    ensures ReachableSys(s) && Quiescent(s) && IsParent(s, p.key)
    ensures LifecycleOf(s.w) == Lifecycle.Pending && !Coming(s) && SaysUnavailable(s, p.key)
  {
    var k := p.key;
    var start, a := Begun(crd, p);
    var b := Then(start, a, Dequeue(k));
    var c := Then(start, b, Fetch(k));
    var d := Then(start, c, CallEnsure(k, false));
    s := Finish(start, d, k);
    assert s.queue == {} && s.busy == map[];
    ComingAtRest(s);
    ReachableSysInv(s);
    assert RestingAt(s, k);
  }

  // ----- an outdated read

  /** The status of `p` says that the object it refers to was found, with this content. */
  function SaysApplied(p: Widget, content: string): Widget {
    var other := if p.spec.themeRef == "" then NoRef else Unavailable;
    p.(status := ReconciledStatus(p, Applied(content), other, 0))
  }

  lemma AppliedIsNotUnavailable(p: Widget, content: string)
    ensures !TellsUnavailable(Plugin, SaysApplied(p, content).status)
  {
    var other := if p.spec.themeRef == "" then NoRef else Unavailable;
    ReconciledReason(p, Applied(content), other, 0);
    ReasonsDiffer(Plugin);
  }

  /** The first reconcile finds no CRD and says so, which the cache does not know yet. */
  lemma FirstWord(p: Widget) returns (start: Sys, t: Sys)
    requires p.spec.pluginRef != "" && !TellsUnavailable(Plugin, p.status)
    ensures IsInitial(start) && Leads(start, t) && Calm(t.w, false, false, 0)
    ensures t.half == Plugin && t.queue == {} && t.busy == map[] && t.widgets.Keys == {p.key} && IsParent(t, p.key)
    ensures Cached(t.widgets, t.behind, p.key) == p
  {
    var k := p.key;
    start := Sys(Plugin, Init(0), {k}, map[], map[k := p], map[], map[], {});
    assert ValidRun(start, []) && ExecRun(start, []) == start;
    t := Round(start, start, k);
    assert Cached(start.widgets, start.behind, k) == p;
  }

  /** The CRD comes, `p` says again that it is not available, the watch gets ready, and `p` is queued. */
  lemma ReadyAgain(crd: Crd, p: Widget) returns (start: Sys, t: Sys)
    requires !IsRemoved(crd) && p.spec.pluginRef != "" && !TellsUnavailable(Plugin, p.status)
    ensures IsInitial(start) && Leads(start, t) && Calm(t.w, true, true, 1)
    ensures t.half == Plugin && t.queue == {p.key} && t.busy == map[] && IsParent(t, p.key)
    ensures Cached(t.widgets, t.behind, p.key) == p && SaysUnavailable(t, p.key)
  {
    var k := p.key;
    var a;
    start, a := FirstWord(p);
    assert Complete(a, [k]) by {
      assert |a.widgets| == |a.widgets.Keys| == 1;
    }
    var b := Appear(start, a, crd, [k], 0);
    UntouchedIsSame(a, b);
    CompleteStays(a, b, [k]);
    t := Activate(start, b, k, [k], 0);
    assert t.queue == {k};
  }

  /**
   The exception of the outdated read is real: at the end of this run nothing is queued, in progress
   or owed, the watch is active, and the status of the Widget says that the type is not available.
   */
  lemma OutdatedReadSkews(crd: Crd, base: Widget, content: string) returns (s: Sys)
    requires !IsRemoved(crd) && base.spec.pluginRef != ""
    ensures ReachableSys(s) && Quiescent(s) && IsParent(s, base.key)
    ensures s.w.active && SaysUnavailable(s, base.key) && base.key in s.skewed
  {
    var p, k := SaysApplied(base, content), base.key;
    AppliedIsNotUnavailable(base, content);
    var start, a := ReadyAgain(crd, p);
    var b := Begin(start, a, k);
    var c := Then(start, b, ReadCache(k, Some(content)));
    var other := if p.spec.themeRef == "" then NoRef else Unavailable;
    ReconcileIsIdempotent(base, Applied(content), other, 0, 0);
    s := Then(start, c, Write(k, other, 0));
    assert s.queue == {} && s.busy == map[];
    ReachableSysInv(s);
    StatusTellsAvailability(s, k);
  }
}

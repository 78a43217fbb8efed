/**
 The controller around one watcher: the work queue, the reconciles in progress, the Widgets and
 what each of them was last told about the optional type. Steps of reconcilers, of the watcher's
 background goroutines and of the outside world interleave freely.

 A Widget here is what the controller's cache has of its spec, and what the API server has of its
 status; the cache may be any number of status versions behind. A delivery of a newer spec enqueues
 the Widget, a delivery of a newer status does not.

 The environment assumed: the queue is a dirty set, an error puts the key back, one key is
 reconciled by one worker at a time, requeueAll returns the complete list of parents, a change of
 a Widget's spec enqueues it, and nobody else writes the condition of this half. Module Twins shows
 that the other half of the same Reconcile is such an environment.
 */
module System {
  import opened Common
  import opened Protocol
  import opened ProtocolHistory
  import C = Conditions
  import opened Widgets

  /** How far the reconcile of a key has come, as far as this half is concerned. */
  datatype Stage =
    | Started                                    // dequeued, the Widget not read yet
    | Fetched(snap: Widget)                      // about to call Ensure
    | Reading(snap: Widget)                      // Ensure said available, the cache read is next
    | Missing(snap: Widget)                      // the read found no informer, handleCacheInvalidated is next
    | Settled(snap: Widget, outcome: Outcome)    // this half is done

  /**
   What a parent's last Ensure or TryGet said, whether a failing source start was the reason, and
   how many invalidations had found the watch active by then.
   */
  datatype Sight = Sight(available: bool, startFailed: bool, losses: nat)

  datatype Sys = Sys(
    half: Half,
    w: State,
    queue: set<Key>,
    busy: map<Key, Stage>,
    widgets: map<Key, Widget>,
    sights: map<Key, Sight>,
    behind: map<Key, seq<Status>>,               // from the status the cache has, up to the current one
    skewed: set<Key>)                            // whose last reconcile kept an outdated condition, see Skews

  datatype Step =
    | Edit(key: Key, spec: Spec)                 // a Widget is created, or its spec changed
    | Delete(key: Key)
    | Foreign(key: Key, status: Status)          // another controller writes status
    | Refresh(key: Key)                          // the next status version reaches the cache
    | Enqueue(key: Key)                          // any other event, e.g. of the optional objects
    | Dequeue(key: Key)
    | Fetch(key: Key)
    | CallEnsure(key: Key, startOk: bool)
    | ReadCache(key: Key, found: Option<string>)
    | CallInvalidate(key: Key)
    | Write(key: Key, other: Outcome, now: int)  // the other half's outcome, and the patch
    | Fail(key: Key)                             // Reconcile returns an error
    | Background(action: Action)

  function Losses(w: State): nat {
    Tally(w.log).readyLosses
  }

  predicate IsParent(s: Sys, k: Key) {
    k in s.widgets && Ref(s.half, s.widgets[k].spec) != ""
  }

  /** A complete answer of requeueAll. */
  ghost predicate Complete(s: Sys, parents: seq<Key>) {
    (forall k :: k in parents <==> IsParent(s, k)) && |parents| <= |s.widgets|
  }

  function OtherHalf(h: Half): Half {
    match h
    case Plugin => Theme
    case Theme => Plugin
  }

  function StatusFor(h: Half, snap: Widget, mine: Outcome, other: Outcome, now: int): Status {
    match h
    case Plugin => ReconciledStatus(snap, mine, other, now)
    case Theme => ReconciledStatus(snap, other, mine, now)
  }

  function ConditionFor(h: Half, w: Widget): Option<C.Condition> {
    C.Find(w.status.conditions, ReadyKind(h))
  }

  /** The status says that the type of half `h` is not available. */
  predicate TellsUnavailable(h: Half, status: Status) {
    ReasonOf(h, status.conditions) == Some(NotAvailableReason(h))
  }

  function Behind(behind: map<Key, seq<Status>>, k: Key): seq<Status> {
    if k in behind then behind[k] else []
  }

  /** What a read returns. */
  function Cached(widgets: map<Key, Widget>, behind: map<Key, seq<Status>>, k: Key): Widget
    requires k in widgets
  {
    if Behind(behind, k) == [] then widgets[k] else widgets[k].(status := Behind(behind, k)[0])
  }

  /** The cache falls behind by one version when the status of `k` changes. */
  function FallsBehind(s: Sys, k: Key, status: Status): map<Key, seq<Status>>
    requires k in s.widgets
  {
    if status == s.widgets[k].status then s.behind
    else s.behind[k := Behind(s.behind, k) + [s.widgets[k].status]]
  }

  /**
   A reconcile read a status that disagrees with the current one on availability, and found nothing
   to change in what it read; so its patch leaves the conditions out, and the current one stays.
   */
  predicate Skews(h: Half, current: Status, snap: Status, after: Status) {
    after.conditions == snap.conditions && TellsUnavailable(h, current) != TellsUnavailable(h, snap)
  }

  ghost predicate Possible(s: Sys, step: Step) {
    match step
    case Edit(k, spec) => k in s.widgets ==> s.widgets[k].spec != spec
    case Delete(k) => k in s.widgets
    case Foreign(k, status) =>
      k in s.widgets && C.Find(status.conditions, ReadyKind(s.half)) == ConditionFor(s.half, s.widgets[k])
    case Refresh(k) => k in s.widgets && Behind(s.behind, k) != []
    case Enqueue(_) => true
    case Dequeue(k) => k in s.queue && k !in s.busy
    case Fetch(k) => k in s.busy && s.busy[k].Started?
    case CallEnsure(k, _) => k in s.busy && s.busy[k].Fetched?
    case ReadCache(k, _) => k in s.busy && s.busy[k].Reading?
    case CallInvalidate(k) => k in s.busy && s.busy[k].Missing?
    case Write(k, other, now) =>
      && k in s.busy && s.busy[k].Settled?
      && (other.NoRef? <==> Ref(OtherHalf(s.half), s.busy[k].snap.spec) == "")
      && (k in s.widgets ||
          StatusFor(s.half, s.busy[k].snap, s.busy[k].outcome, other, now) == s.busy[k].snap.status)
    case Fail(k) => k in s.busy && (s.busy[k].Started? || s.busy[k].Reading? || s.busy[k].Settled?)
    case Background(a) =>
      && !a.Ensure? && !a.Invalidate? && Enabled(s.w, a)
      && (a.TailList? ==> Complete(s, a.parents))
      && (a.WaiterList? ==> Complete(s, a.parents))
  }

  function Edited(s: Sys, k: Key, spec: Spec): Widget {
    if k in s.widgets then s.widgets[k].(spec := spec, generation := s.widgets[k].generation + 1)
    else Widget(k, 1, spec, Status(0, []))
  }

  function FetchedStage(h: Half, snap: Widget): Stage {
    if Ref(h, snap.spec) == "" then Settled(snap, NoRef) else Fetched(snap)
  }

  function ReadStage(informer: bool, snap: Widget, found: Option<string>): Stage {
    if !informer then Missing(snap)
    else Settled(snap, if found.Some? then Applied(found.value) else Outcome.NotFound)
  }

  /** What the caller of Ensure learns. */
  function EnsureSight(w: State, startOk: bool): Sight {
    Sight(w.active, !w.active && w.crdExists && !w.watching && !startOk, Losses(w))
  }

  function Written(s: Sys, k: Key, snap: Widget, after: Status): map<Key, Widget> {
    if k in s.widgets
    then s.widgets[k := s.widgets[k].(status := Patched(s.widgets[k].status, snap.status, after))]
    else s.widgets
  }

  /** The write of a settled reconcile: the patch, and whether it kept an outdated condition. */
  function AfterWrite(s: Sys, k: Key, after: Status): Sys
    requires k in s.busy && !s.busy[k].Started?
  {
    var snap := s.busy[k].snap;
    if k !in s.widgets then s.(busy := s.busy - {k})
    else
      var current := s.widgets[k].status;
      var widgets := Written(s, k, snap, after);
      s.(widgets := widgets,
      behind := FallsBehind(s, k, widgets[k].status),
      skewed := if Skews(s.half, current, snap.status, after) then s.skewed + {k} else s.skewed - {k},
      busy := s.busy - {k})
  }

  ghost function Stepped(s: Sys, step: Step): Sys
    requires Possible(s, step)
  {
    match step
    case Edit(k, spec) => s.(widgets := s.widgets[k := Edited(s, k, spec)], queue := s.queue + {k})
    case Delete(k) => s.(widgets := s.widgets - {k}, behind := s.behind - {k}, queue := s.queue + {k})
    case Foreign(k, status) =>
      s.(widgets := s.widgets[k := s.widgets[k].(status := status)], behind := FallsBehind(s, k, status))
    case Refresh(k) => s.(behind := s.behind[k := Behind(s.behind, k)[1..]])
    case Enqueue(k) => s.(queue := s.queue + {k})
    case Dequeue(k) => s.(queue := s.queue - {k}, busy := s.busy[k := Started])
    case Fetch(k) =>
      s.(busy := if k in s.widgets then s.busy[k := FetchedStage(s.half, Cached(s.widgets, s.behind, k))]
                 else s.busy - {k})
    case CallEnsure(k, startOk) =>
      s.(w := DoEnsure(s.w, startOk),
      sights := s.sights[k := EnsureSight(s.w, startOk)],
      busy := s.busy[k := if s.w.active then Reading(s.busy[k].snap) else Settled(s.busy[k].snap, Unavailable)])
    case ReadCache(k, found) => s.(busy := s.busy[k := ReadStage(s.w.informer, s.busy[k].snap, found)])
    case CallInvalidate(k) =>
      s.(w := DoInvalidate(s.w),
      sights := s.sights[k := Sight(false, false, Losses(DoInvalidate(s.w)))],
      busy := s.busy[k := Settled(s.busy[k].snap, Unavailable)])
    case Write(k, other, now) =>
      AfterWrite(s, k, StatusFor(s.half, s.busy[k].snap, s.busy[k].outcome, other, now))
    case Fail(k) => s.(busy := s.busy - {k}, queue := s.queue + {k})
    case Background(a) =>
      s.(w := Apply(s.w, a),
      queue := s.queue + match Added(s.w, a) case None => {} case Some(k) => {k})
  }

  /** The protocol action inside a step, if there is one. */
  function ActionIn(step: Step): Option<Action> {
    match step
    case CallEnsure(_, startOk) => Some(Ensure(startOk))
    case CallInvalidate(_) => Some(Invalidate)
    case Background(a) => Some(a)
    case _ => None
  }

  ghost predicate ValidRun(s: Sys, run: seq<Step>)
    decreases |run|
  {
    run == [] || (Possible(s, run[0]) && ValidRun(Stepped(s, run[0]), run[1..]))
  }

  ghost function ExecRun(s: Sys, run: seq<Step>): Sys
    requires ValidRun(s, run)
    decreases |run|
  {
    if run == [] then s else ExecRun(Stepped(s, run[0]), run[1..])
  }

  /** The controller has started: every existing Widget, whatever its status, is in the queue. */
  predicate IsInitial(s: Sys) {
    && s.w == Init(0) && s.queue == s.widgets.Keys && s.busy == map[] && s.sights == map[]
    && s.behind == map[] && s.skewed == {} && Keyed(s)
  }

  /** Every Widget is stored under its own key, and only of Widgets there are versions to deliver. */
  predicate Keyed(s: Sys) {
    (forall k :: k in s.widgets ==> s.widgets[k].key == k) && s.behind.Keys <= s.widgets.Keys
  }

  ghost predicate ReachableSys(s: Sys) {
    exists s0, run :: IsInitial(s0) && ValidRun(s0, run) && ExecRun(s0, run) == s
  }

  lemma {:induction false} RunsCompose(s: Sys, run: seq<Step>, more: seq<Step>)
    requires ValidRun(s, run)
    ensures ValidRun(s, run + more) <==> ValidRun(ExecRun(s, run), more)
    ensures ValidRun(s, run + more) ==> ExecRun(s, run + more) == ExecRun(ExecRun(s, run), more)
    decreases |run|
  {
    if run == [] {
      assert run + more == more;
    } else {
      assert (run + more)[1..] == run[1..] + more;
      RunsCompose(Stepped(s, run[0]), run[1..], more);
    }
  }

  lemma RunThenStep(s: Sys, run: seq<Step>, step: Step)
    requires ValidRun(s, run)
    ensures ValidRun(s, run + [step]) <==> Possible(ExecRun(s, run), step)
    ensures ValidRun(s, run + [step]) ==> ExecRun(s, run + [step]) == Stepped(ExecRun(s, run), step)
  {
    RunsCompose(s, run, [step]);
    assert [step][1..] == [];
  }
}

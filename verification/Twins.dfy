/**
 The controller with both its watchers: one queue and one Reconcile, which runs the plugin half and
 then the theme half on the same Widget and writes one status. Seen from either half it is the
 controller of module System: what the other half does is a patch that leaves this half's condition
 alone, a request on the shared queue, or nothing at all. So every claim about one half holds of
 both at once, and that nobody else writes the half's condition need not be assumed of the twin.
 */
module Twins {
  import opened Common
  import opened Protocol
  import opened System
  import opened Obligations
  import opened EndToEnd
  import opened Widgets

  /** A watcher, what its callers were last told, and whose last reconcile was skewed in this half. */
  datatype Side = Side(w: State, sights: map<Key, Sight>, skewed: set<Key>)

  /** How far one half of a Reconcile has come. */
  datatype Part = ToEnsure | ToRead | ToInvalidate | Done(outcome: Outcome) | Errored

  datatype Work =
    | Fresh                                               // dequeued, the Widget not read yet
    | Running(snap: Widget, plugin: Part, theme: Part)

  datatype Twin = Twin(
    plugin: Side,
    theme: Side,
    queue: set<Key>,
    busy: map<Key, Work>,
    widgets: map<Key, Widget>,
    behind: map<Key, seq<Status>>)

  datatype Move =
    | Outside(step: Step)                                 // Edit, Delete, Foreign, Refresh or Enqueue
    | Take(key: Key)
    | Get(key: Key)
    | AskEnsure(half: Half, key: Key, startOk: bool)
    | Read(half: Half, key: Key, found: Option<string>)
    | ReadFails(half: Half, key: Key)                     // with an error other than NotFound
    | Reset(half: Half, key: Key)
    | Patch(key: Key, now: int)
    | GiveUp(key: Key)                                    // Reconcile returns an error
    | Behind(half: Half, action: Action)                  // a background goroutine of one watcher

  function SideOf(t: Twin, h: Half): Side {
    match h
    case Plugin => t.plugin
    case Theme => t.theme
  }

  function WithSide(t: Twin, h: Half, side: Side): Twin {
    match h
    case Plugin => t.(plugin := side)
    case Theme => t.(theme := side)
  }

  function PartOf(work: Work, h: Half): Part
    requires work.Running?
  {
    match h
    case Plugin => work.plugin
    case Theme => work.theme
  }

  function WithPart(work: Work, h: Half, part: Part): Work
    requires work.Running?
  {
    match h
    case Plugin => work.(plugin := part)
    case Theme => work.(theme := part)
  }

  predicate Ended(part: Part) {
    part.Done? || part.Errored?
  }

  /** Half `h` of the reconcile of `k` stands at `part`, and the half before it has ended. */
  predicate At(t: Twin, h: Half, k: Key, part: Part) {
    && k in t.busy && t.busy[k].Running? && PartOf(t.busy[k], h) == part
    && (h == Theme ==> Ended(t.busy[k].plugin))
  }

  predicate BothEnded(t: Twin, k: Key) {
    k in t.busy && t.busy[k].Running? && Ended(t.busy[k].plugin) && Ended(t.busy[k].theme)
  }

  predicate BothDone(t: Twin, k: Key) {
    k in t.busy && t.busy[k].Running? && t.busy[k].plugin.Done? && t.busy[k].theme.Done?
  }

  // ----- the view of one half

  function StageOf(work: Work, h: Half): Stage {
    match work
    case Fresh => Started
    case Running(snap, _, _) =>
      match PartOf(work, h)
      case ToEnsure => Fetched(snap)
      case ToRead => Reading(snap)
      case ToInvalidate => Missing(snap)
      case Done(o) => Settled(snap, o)
      case Errored => Reading(snap)
  }

  function View(t: Twin, h: Half): Sys {
    Sys(h, SideOf(t, h).w, t.queue, map k | k in t.busy :: StageOf(t.busy[k], h), t.widgets, SideOf(t, h).sights,
        t.behind, SideOf(t, h).skewed)
  }

  // ----- the moves

  function FirstPart(h: Half, snap: Widget): Part {
    if Ref(h, snap.spec) == "" then Done(NoRef) else ToEnsure
  }

  function PartRead(informer: bool, found: Option<string>): Part {
    if !informer then ToInvalidate else Done(if found.Some? then Applied(found.value) else Outcome.NotFound)
  }

  function NewStatus(t: Twin, k: Key, now: int): Status
    requires BothDone(t, k)
  {
    ReconciledStatus(t.busy[k].snap, t.busy[k].plugin.outcome, t.busy[k].theme.outcome, now)
  }

  ghost predicate Allowed(t: Twin, m: Move) {
    match m
    case Outside(step) =>
      && (step.Edit? || step.Delete? || step.Foreign? || step.Refresh? || step.Enqueue?)
      && forall h :: Possible(View(t, h), step)
    case Take(k) => k in t.queue && k !in t.busy
    case Get(k) => k in t.busy && t.busy[k].Fresh?
    case AskEnsure(h, k, _) => At(t, h, k, ToEnsure)
    case Read(h, k, _) => At(t, h, k, ToRead)
    case ReadFails(h, k) => At(t, h, k, ToRead) && SideOf(t, h).w.informer
    case Reset(h, k) => At(t, h, k, ToInvalidate)
    case Patch(k, now) => BothDone(t, k) && (k in t.widgets || NewStatus(t, k, now) == t.busy[k].snap.status)
    case GiveUp(k) => k in t.busy && (t.busy[k].Fresh? || BothEnded(t, k))
    case Behind(h, a) => Possible(View(t, h), Background(a))
  }

  function ReadWidget(t: Twin, k: Key): map<Key, Work> {
    if k in t.widgets then
      var snap := Cached(t.widgets, t.behind, k);
      t.busy[k := Running(snap, FirstPart(Plugin, snap), FirstPart(Theme, snap))]
    else t.busy - {k}
  }

  ghost function Moved(t: Twin, m: Move): Twin
    requires Allowed(t, m)
  {
    match m
    case Outside(step) =>
      var s := Stepped(View(t, Plugin), step);
      t.(widgets := s.widgets, behind := s.behind, queue := s.queue)
    case Take(k) => t.(queue := t.queue - {k}, busy := t.busy[k := Fresh])
    case Get(k) => t.(busy := ReadWidget(t, k))
    case AskEnsure(h, k, startOk) =>
      var side := SideOf(t, h);
      var part := if side.w.active then ToRead else Done(Unavailable);
      WithSide(t, h, side.(w := DoEnsure(side.w, startOk), sights := side.sights[k := EnsureSight(side.w, startOk)]))
      .(busy := t.busy[k := WithPart(t.busy[k], h, part)])
    case Read(h, k, found) =>
      t.(busy := t.busy[k := WithPart(t.busy[k], h, PartRead(SideOf(t, h).w.informer, found))])
    case ReadFails(h, k) => t.(busy := t.busy[k := WithPart(t.busy[k], h, Errored)])
    case Reset(h, k) =>
      var side := SideOf(t, h);
      var w := DoInvalidate(side.w);
      WithSide(t, h, side.(w := w, sights := side.sights[k := Sight(false, false, Losses(w))]))
      .(busy := t.busy[k := WithPart(t.busy[k], h, Done(Unavailable))])
    case Patch(k, now) =>
      var plugin := AfterWrite(View(t, Plugin), k, NewStatus(t, k, now));
      var theme := AfterWrite(View(t, Theme), k, NewStatus(t, k, now));
      Twin(t.plugin.(skewed := plugin.skewed), t.theme.(skewed := theme.skewed), t.queue, t.busy - {k},
           plugin.widgets, plugin.behind)
    case GiveUp(k) => t.(busy := t.busy - {k}, queue := t.queue + {k})
    case Behind(h, a) =>
      var s := Stepped(View(t, h), Background(a));
      WithSide(t, h, SideOf(t, h).(w := s.w)).(queue := s.queue)
  }

  ghost predicate AllowedRun(t: Twin, run: seq<Move>)
    decreases |run|
  {
    run == [] || (Allowed(t, run[0]) && AllowedRun(Moved(t, run[0]), run[1..]))
  }

  ghost function MovedRun(t: Twin, run: seq<Move>): Twin
    requires AllowedRun(t, run)
    decreases |run|
  {
    if run == [] then t else MovedRun(Moved(t, run[0]), run[1..])
  }

  predicate StartsUp(t: Twin) {
    && t.plugin == Side(Init(0), map[], {}) && t.theme == Side(Init(0), map[], {})
    && t.queue == t.widgets.Keys && t.busy == map[] && t.behind == map[]
    && forall k :: k in t.widgets ==> t.widgets[k].key == k
  }

  ghost predicate ReachableTwin(t: Twin) {
    exists t0, run :: StartsUp(t0) && AllowedRun(t0, run) && MovedRun(t0, run) == t
  }

  // ----- the projection

  /** What half `h` sees of a move; None when it sees nothing. */
  function Seen(t: Twin, m: Move, h: Half): Option<Step> {
    match m
    case Outside(step) => Some(step)
    case Take(k) => Some(Dequeue(k))
    case Get(k) => Some(Fetch(k))
    case AskEnsure(g, k, startOk) => if g == h then Some(CallEnsure(k, startOk)) else None
    case Read(g, k, found) => if g == h then Some(ReadCache(k, found)) else None
    case ReadFails(_, _) => None
    case Reset(g, k) => if g == h then Some(CallInvalidate(k)) else None
    case Patch(k, now) =>
      if BothDone(t, k) then Some(Write(k, PartOf(t.busy[k], OtherHalf(h)).outcome, now)) else None
    case GiveUp(k) => Some(Fail(k))
    case Behind(g, a) =>
      if g == h then Some(Background(a))
      else if !Enabled(SideOf(t, g).w, a) then None
      else match Added(SideOf(t, g).w, a) case None => None case Some(k) => Some(Enqueue(k))
  }

  ghost predicate TwinInv(t: Twin) {
    SysInv(View(t, Plugin)) && SysInv(View(t, Theme))
  }

  lemma ViewOfBusy(t: Twin, h: Half, k: Key, work: Work)
    ensures View(t.(busy := t.busy[k := work]), h).busy == View(t, h).busy[k := StageOf(work, h)]
    ensures View(t.(busy := t.busy - {k}), h).busy == View(t, h).busy - {k}
  {
  }

  ghost predicate Projects(t: Twin, m: Move, h: Half)
    requires Allowed(t, m)
  {
    match Seen(t, m, h)
    case None => View(Moved(t, m), h) == View(t, h)
    case Some(step) => Possible(View(t, h), step) && View(Moved(t, m), h) == Stepped(View(t, h), step)
  }

  lemma OutsideProjects(t: Twin, m: Move, h: Half)
    requires Allowed(t, m) && m.Outside?
    ensures Projects(t, m, h)
  {
    assert Possible(View(t, h), m.step);
  }

  lemma ReconcileProjects(t: Twin, m: Move, h: Half)
    requires Allowed(t, m) && (m.Take? || m.Get? || m.GiveUp?)
    ensures Projects(t, m, h)
  {
    ViewOfBusy(t, h, m.key, Fresh);
    if m.Get? && m.key in t.widgets {
      ViewOfBusy(t, h, m.key, ReadWidget(t, m.key)[m.key]);
    }
  }

  predicate HalfMove(m: Move) {
    m.AskEnsure? || m.Read? || m.ReadFails? || m.Reset?
  }

  /** The theme half makes no call of its own before the plugin half has ended. */
  lemma PluginGoesFirst(t: Twin, m: Move)
    requires Allowed(t, m) && HalfMove(m) && m.half == Theme
    ensures t.busy[m.key].plugin.Done? || t.busy[m.key].plugin.Errored?
  {
  }

  /** A half's own calls, seen from it. */
  lemma EnsureProjects(t: Twin, m: Move)
    requires Allowed(t, m) && m.AskEnsure?
    ensures Projects(t, m, m.half)
  {
    ViewOfBusy(t, m.half, m.key, Moved(t, m).busy[m.key]);
  }

  lemma ReadProjects(t: Twin, m: Move)
    requires Allowed(t, m) && m.Read?
    ensures Projects(t, m, m.half)
  {
    ViewOfBusy(t, m.half, m.key, Moved(t, m).busy[m.key]);
  }

  lemma ResetProjects(t: Twin, m: Move)
    requires Allowed(t, m) && m.Reset?
    ensures Projects(t, m, m.half)
  {
    ViewOfBusy(t, m.half, m.key, Moved(t, m).busy[m.key]);
  }

  lemma OwnMoveProjects(t: Twin, m: Move)
    requires Allowed(t, m) && HalfMove(m) && !m.ReadFails?
    ensures Projects(t, m, m.half)
  {
    if m.AskEnsure? {
      EnsureProjects(t, m);
    } else if m.Read? {
      ReadProjects(t, m);
    } else {
      ResetProjects(t, m);
    }
  }

  /** A change of one half's part leaves the stage of the other as it is. */
  lemma PartsApart(work: Work, g: Half, h: Half, part: Part)
    requires work.Running? && g != h
    ensures StageOf(WithPart(work, g, part), h) == StageOf(work, h)
  {
  }

  lemma SameView(t: Twin, u: Twin, h: Half, k: Key, work: Work)
    requires SideOf(u, h) == SideOf(t, h) && u.queue == t.queue && u.widgets == t.widgets && u.behind == t.behind
    requires k in t.busy && u.busy == t.busy[k := work] && StageOf(work, h) == StageOf(t.busy[k], h)
    ensures View(u, h) == View(t, h)
  {
    assert View(u, h).busy == View(t, h).busy;
  }

  /** What a half does not see: the other half's calls, and its own failing read until the reconcile gives up. */
  lemma UnseenProjects(t: Twin, m: Move, h: Half)
    requires Allowed(t, m) && HalfMove(m) && (m.half != h || m.ReadFails?)
    ensures Seen(t, m, h).None? && View(Moved(t, m), h) == View(t, h)
  {
    var u := Moved(t, m);
    var part := PartOf(u.busy[m.key], m.half);
    if m.half != h {
      PartsApart(t.busy[m.key], m.half, h, part);
    }
    SameView(t, u, h, m.key, WithPart(t.busy[m.key], m.half, part));
  }

  /** The one patch shows both outcomes: to each half the other's is whatever it is. */
  lemma PatchProjects(t: Twin, m: Move, h: Half)
    requires Allowed(t, m) && m.Patch? && StageAt(View(t, OtherHalf(h)), m.key)
    ensures Projects(t, m, h)
  {
    ViewOfBusy(t, h, m.key, Fresh);
  }

  lemma BehindProjects(t: Twin, m: Move, h: Half)
    requires Allowed(t, m) && m.Behind?
    ensures Projects(t, m, h)
  {
  }

  lemma MoveProjects(t: Twin, m: Move, h: Half)
    requires TwinInv(t) && Allowed(t, m)
    ensures Projects(t, m, h)
  {
    match m
    case Outside(_) => OutsideProjects(t, m, h);
    case Take(_) => ReconcileProjects(t, m, h);
    case Get(_) => ReconcileProjects(t, m, h);
    case GiveUp(_) => ReconcileProjects(t, m, h);
    case Patch(k, _) =>
      assert StageAt(View(t, OtherHalf(h)), k);
      PatchProjects(t, m, h);
    case Behind(_, _) => BehindProjects(t, m, h);
    case ReadFails(_, _) => UnseenProjects(t, m, h);
    case _ =>
      if m.half == h {
        OwnMoveProjects(t, m);
      } else {
        UnseenProjects(t, m, h);
      }
  }

  lemma TwinInvKept(t: Twin, m: Move)
    requires TwinInv(t) && Allowed(t, m)
    ensures TwinInv(Moved(t, m))
  {
    forall h ensures SysInv(View(Moved(t, m), h)) {
      MoveProjects(t, m, h);
      assert SysInv(View(t, h));
      if Seen(t, m, h).Some? {
        SysInvKept(View(t, h), Seen(t, m, h).value);
      }
    }
  }

  /** What half `h` sees of a run. */
  ghost function SeenRun(t: Twin, run: seq<Move>, h: Half): seq<Step>
    requires AllowedRun(t, run)
    decreases |run|
  {
    if run == [] then []
    else (match Seen(t, run[0], h) case None => [] case Some(step) => [step]) + SeenRun(Moved(t, run[0]), run[1..], h)
  }

  lemma {:induction false} RunProjects(t: Twin, run: seq<Move>, h: Half)
    requires TwinInv(t) && AllowedRun(t, run)
    ensures TwinInv(MovedRun(t, run))
    ensures ValidRun(View(t, h), SeenRun(t, run, h))
    ensures ExecRun(View(t, h), SeenRun(t, run, h)) == View(MovedRun(t, run), h)
    decreases |run|
  {
    if run != [] {
      TwinInvKept(t, run[0]);
      MoveProjects(t, run[0], h);
      RunProjects(Moved(t, run[0]), run[1..], h);
      var rest := SeenRun(Moved(t, run[0]), run[1..], h);
      if Seen(t, run[0], h).Some? {
        assert SeenRun(t, run, h)[1..] == rest;
      } else {
        assert SeenRun(t, run, h) == rest;
      }
    }
  }

  /** Each half of a reachable controller is a reachable one-half controller. */
  lemma HalvesAreReachable(t: Twin, h: Half)
    requires ReachableTwin(t)
    ensures ReachableSys(View(t, h)) && TwinInv(t)
  {
    var t0, run :| StartsUp(t0) && AllowedRun(t0, run) && MovedRun(t0, run) == t;
    forall g ensures IsInitial(View(t0, g)) && SysInv(View(t0, g)) {
      assert View(t0, g).busy == map[];
      var nothing: seq<Step> := [];
      assert ValidRun(View(t0, g), nothing) && ExecRun(View(t0, g), nothing) == View(t0, g);
      ReachableSysInv(View(t0, g));
    }
    RunProjects(t0, run, h);
  }

  /** Nothing is queued, in progress or owed by either watcher. */
  predicate AtRest(t: Twin) {
    Quiescent(View(t, Plugin)) && Quiescent(View(t, Theme))
  }

  /**
   At rest both conditions of a Widget are right together: for each half that the Widget refers to,
   its condition says that the CRD is not available exactly when that half's watch is not active,
   unless that half is stranded by an invalidation of its own watch or skewed by an outdated read.
   */
  lemma BothConditionsTell(t: Twin, k: Key)
    requires ReachableTwin(t) && AtRest(t) && k in t.widgets
    ensures forall h :: Ref(h, t.widgets[k].spec) != "" ==>
                          ((SaysUnavailable(View(t, h), k) <==> !SideOf(t, h).w.active) <==>
                           (Stranded(View(t, h), k) <==> k in SideOf(t, h).skewed))
  {
    forall h | Ref(h, t.widgets[k].spec) != ""
      ensures (SaysUnavailable(View(t, h), k) <==> !SideOf(t, h).w.active) <==>
              (Stranded(View(t, h), k) <==> k in SideOf(t, h).skewed)
    {
      HalvesAreReachable(t, h);
      assert Quiescent(View(t, h));
      StatusTellsAvailability(View(t, h), k);
    }
  }

  // ----- how a reconcile ends

  /** Where a half stands after its call has returned `r`. */
  function PartAfter(ref: string, r: TryResult): Part {
    match OutcomeOf(ref, r)
    case None => Errored
    case Some(o) => Done(o)
  }

  /** The reconcile of `k` holds `snap`, and both calls have returned. */
  predicate Returned(t: Twin, k: Key, snap: Widget, plugin: TryResult, theme: TryResult) {
    k in t.busy
    && t.busy[k] == Running(snap, PartAfter(snap.spec.pluginRef, plugin), PartAfter(snap.spec.themeRef, theme))
  }

  /** The move that ends a reconcile: an error puts the key back. */
  function LastMove(k: Key, failed: bool, now: int): Move {
    if failed then GiveUp(k) else Patch(k, now)
  }

  /** A half without a reference has returned as soon as the Widget is read, whatever the result would be. */
  lemma UnreferencedHalfReturns(h: Half, snap: Widget, r: TryResult)
    ensures Ref(h, snap.spec) == "" ==> FirstPart(h, snap) == PartAfter(Ref(h, snap.spec), r) == Done(NoRef)
    ensures Ref(h, snap.spec) != "" ==> FirstPart(h, snap) == ToEnsure
  {
  }

  lemma GiveUpEffect(t: Twin, k: Key)
    requires BothEnded(t, k)
    ensures Allowed(t, GiveUp(k))
    ensures Moved(t, GiveUp(k)).busy == t.busy - {k} && Moved(t, GiveUp(k)).queue == t.queue + {k}
  {
  }

  lemma PatchEffect(t: Twin, k: Key, now: int)
    requires BothDone(t, k) && k in t.widgets
    ensures Allowed(t, Patch(k, now))
    ensures var u := Moved(t, Patch(k, now));
            && u.busy == t.busy - {k} && u.queue == t.queue && k in u.widgets
            && u.widgets[k].status == Patched(t.widgets[k].status, t.busy[k].snap.status, NewStatus(t, k, now))
  {
  }

  /** What one call of Reconcile over the Widget that was read answers, when both calls returned that. */
  function Answer(k: Key, snap: Widget, plugin: TryResult, theme: TryResult, patchOk: bool, now: int): World {
    AfterReconcile(World(map[k := snap], 0, false), k, true, plugin, theme, patchOk, now)
  }

  lemma AnswerOfReturned(t: Twin, k: Key, snap: Widget, plugin: TryResult, theme: TryResult, patchOk: bool, now: int)
    requires Returned(t, k, snap, plugin, theme)
    ensures var done := Answer(k, snap, plugin, theme, patchOk, now);
            && BothEnded(t, k)
            && (HandsOnError(snap.spec.pluginRef, plugin) || HandsOnError(snap.spec.themeRef, theme) ==> done.failed)
            && (!done.failed ==> BothDone(t, k) && k in done.widgets && done.widgets[k].status == NewStatus(t, k, now))
  {
    ReconcileAnswers(World(map[k := snap], 0, false), k, true, plugin, theme, patchOk, now);
    OutcomeExists(snap.spec.pluginRef, plugin);
    OutcomeExists(snap.spec.themeRef, theme);
  }

  /**
   Reconcile answers with an error exactly when the key goes back on the queue, and each half sees
   it fail: this is so when a half hands on an error other than NotFound, or the patch fails.
   Otherwise the Widget is patched with the status Reconcile computed.
   */
  lemma FailureRequeues(t: Twin, k: Key, snap: Widget, plugin: TryResult, theme: TryResult, patchOk: bool, now: int)
    requires Returned(t, k, snap, plugin, theme) && k in t.widgets && k !in t.queue
    ensures var done := Answer(k, snap, plugin, theme, patchOk, now);
            var m := LastMove(k, done.failed, now);
            && Allowed(t, m) && k !in Moved(t, m).busy
            && (done.failed <==> k in Moved(t, m).queue)
            && (forall h :: done.failed <==> Seen(t, m, h) == Some(Fail(k)))
            && (HandsOnError(snap.spec.pluginRef, plugin) || HandsOnError(snap.spec.themeRef, theme) ==> done.failed)
            && (!done.failed ==> k in Moved(t, m).widgets && k in done.widgets
                                 && Moved(t, m).widgets[k].status ==
                                    Patched(t.widgets[k].status, snap.status, done.widgets[k].status))
  {
    AnswerOfReturned(t, k, snap, plugin, theme, patchOk, now);
    if Answer(k, snap, plugin, theme, patchOk, now).failed {
      GiveUpEffect(t, k);
    } else {
      PatchEffect(t, k, now);
    }
  }

  /** The same of a reconcile that gets no Widget: only an error of the Get is a failure, not a Widget that is gone. */
  lemma FailedGetRequeues(t: Twin, k: Key, getOk: bool, plugin: TryResult, theme: TryResult, patchOk: bool, now: int)
    requires k in t.busy && t.busy[k].Fresh? && (k !in t.widgets || !getOk) && k !in t.queue
    ensures var done := AfterReconcile(World(t.widgets, 0, false), k, getOk, plugin, theme, patchOk, now);
            var m := if getOk then Get(k) else GiveUp(k);
            && Allowed(t, m) && k !in Moved(t, m).busy && Moved(t, m).widgets == t.widgets == done.widgets
            && (done.failed <==> !getOk) && (done.failed <==> k in Moved(t, m).queue)
  {
    ReconcileAnswers(World(t.widgets, 0, false), k, getOk, plugin, theme, patchOk, now);
  }
}

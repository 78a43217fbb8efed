/**
 The Widget reconciler: what one Reconcile makes of a Widget's status, the object methods that
 change it in place, and the Reconcile call itself.

 The plugin and the theme half have the same shape in the repository; here they are one
 definition with the half as a parameter.
 */
module Widgets {
  import opened Common
  import opened Conditions
  import W = Watchers

  datatype Half = Plugin | Theme

  datatype Spec = Spec(pluginRef: string, themeRef: string)

  datatype Status = Status(observedGeneration: int, conditions: seq<Condition>)

  datatype Widget = Widget(key: Key, generation: int, spec: Spec, status: Status)

  function Ref(h: Half, spec: Spec): string {
    match h
    case Plugin => spec.pluginRef
    case Theme => spec.themeRef
  }

  function ReadyKind(h: Half): string {
    match h
    case Plugin => "PluginReady"
    case Theme => "ThemeReady"
  }

  function Noun(h: Half): string {
    match h
    case Plugin => "PluginConfig"
    case Theme => "Theme"
  }

  function AppliedReason(h: Half): string {
    match h
    case Plugin => "PluginApplied"
    case Theme => "ThemeApplied"
  }

  function NotFoundReason(h: Half): string {
    match h
    case Plugin => "PluginNotFound"
    case Theme => "ThemeNotFound"
  }

  function NotAvailableReason(h: Half): string {
    match h
    case Plugin => "PluginCRDNotAvailable"
    case Theme => "ThemeCRDNotAvailable"
  }

  const OWN_KINDS: set<string> := {"PluginReady", "ThemeReady"}

  lemma KindsDiffer()
    ensures ReadyKind(Plugin) != ReadyKind(Theme)
    ensures ReadyKind(Plugin) in OWN_KINDS && ReadyKind(Theme) in OWN_KINDS
  {
    assert "PluginReady"[0] != "ThemeReady"[0];
  }

  /** The words of the API. */
  lemma Wording()
    ensures (ReadyKind(Plugin), ReadyKind(Theme)) == ("PluginReady", "ThemeReady")
    ensures (AppliedReason(Plugin), AppliedReason(Theme)) == ("PluginApplied", "ThemeApplied")
    ensures (NotFoundReason(Plugin), NotFoundReason(Theme)) == ("PluginNotFound", "ThemeNotFound")
    ensures NotAvailableReason(Plugin) == "PluginCRDNotAvailable" && NotAvailableReason(Theme) == "ThemeCRDNotAvailable"
    ensures (Noun(Plugin), Noun(Theme)) == ("PluginConfig", "Theme")
  {
  }

  lemma ReasonsDiffer(h: Half)
    ensures NotAvailableReason(h) != AppliedReason(h) && NotAvailableReason(h) != NotFoundReason(h)
  {
    assert |"PluginCRDNotAvailable"| != |"PluginApplied"| && |"PluginCRDNotAvailable"| != |"PluginNotFound"|;
    assert |"ThemeCRDNotAvailable"| != |"ThemeApplied"| && |"ThemeCRDNotAvailable"| != |"ThemeNotFound"|;
  }

  // ----- one half

  /** What a half finds out, errors apart. */
  datatype Outcome = NoRef | Applied(message: string) | NotFound | Unavailable

  type TryResult = W.TryResult

  /** None stands for an error that the half hands on to Reconcile. */
  function OutcomeOf(ref: string, r: TryResult): Option<Outcome> {
    if ref == "" then Some(NoRef)
    else if r.error == Some(W.ReadError.NotFound) then Some(NotFound)
    else if r.error.Some? then None
    else if !r.available then Some(Unavailable)
    else Some(Applied(r.content))
  }

  function AppliedMark(h: Half, message: string, generation: int): Condition {
    Condition(ReadyKind(h), true, AppliedReason(h), message, generation, 0)
  }

  function NotAvailableMark(h: Half, generation: int): Condition {
    Condition(ReadyKind(h), false, NotAvailableReason(h), Noun(h) + " CRD is not installed", generation, 0)
  }

  function NotFoundMark(h: Half, ref: string, generation: int): Condition {
    Condition(ReadyKind(h), false, NotFoundReason(h), Noun(h) + " \"" + ref + "\" not found", generation, 0)
  }

  function HalfUpdate(h: Half, ref: string, generation: int, o: Outcome): Update {
    match o
    case NoRef => Unmark(ReadyKind(h))
    case Applied(message) => Mark(AppliedMark(h, message, generation))
    case NotFound => Mark(NotFoundMark(h, ref, generation))
    case Unavailable => Mark(NotAvailableMark(h, generation))
  }

  function UpdateFor(h: Half, w: Widget, o: Outcome): Update {
    HalfUpdate(h, Ref(h, w.spec), w.generation, o)
  }

  /** The status Reconcile computes: the observed generation, then the plugin half, then the theme half. */
  function ReconciledStatus(w: Widget, plugin: Outcome, theme: Outcome, now: int): Status {
    Status(w.generation,
           Updated(Updated(w.status.conditions, UpdateFor(Plugin, w, plugin), now), UpdateFor(Theme, w, theme), now))
  }

  /** The reason the half's condition carries, if there is one. */
  function ReasonOf(h: Half, conds: seq<Condition>): Option<string> {
    match Find(conds, ReadyKind(h))
    case None => None
    case Some(c) => Some(c.reason)
  }

  /** A merge patch computed from `before` replaces the parts of the status that changed, lists as a whole. */
  function Patched(current: Status, before: Status, after: Status): Status {
    Status(
      if before.observedGeneration == after.observedGeneration then current.observedGeneration
      else after.observedGeneration,
      if before.conditions == after.conditions then current.conditions else after.conditions)
  }

  // ----- laws of Reconcile

  /** After a Reconcile each half's reason says what that half found, whatever the other half did. */
  lemma ReconciledReason(w: Widget, plugin: Outcome, theme: Outcome, now: int)
    ensures var conds := ReconciledStatus(w, plugin, theme, now).conditions;
            forall h ::
              var o := if h == Plugin then plugin else theme;
              ReasonOf(h, conds) ==
              match o
              case NoRef => None
              case Applied(_) => Some(AppliedReason(h))
              case NotFound => Some(NotFoundReason(h))
              case Unavailable => Some(NotAvailableReason(h))
  {
    KindsDiffer();
    var p, t := UpdateFor(Plugin, w, plugin), UpdateFor(Theme, w, theme);
    var mid := Updated(w.status.conditions, p, now);
    UpdateIsLocal(w.status.conditions, p, now, ReadyKind(Plugin));
    UpdateIsLocal(mid, t, now, ReadyKind(Plugin));
    UpdateIsLocal(mid, t, now, ReadyKind(Theme));
  }

  /** Reconciling again in an unchanged world, at any later time, computes the status that is already there. */
  lemma ReconcileIsIdempotent(w: Widget, plugin: Outcome, theme: Outcome, now: int, later: int)
    ensures var once := w.(status := ReconciledStatus(w, plugin, theme, now));
            ReconciledStatus(once, plugin, theme, later) == once.status
  {
    KindsDiffer();
    var p, t := UpdateFor(Plugin, w, plugin), UpdateFor(Theme, w, theme);
    var mid := Updated(w.status.conditions, p, now);
    var end := Updated(mid, t, now);
    UpdateIsLocal(w.status.conditions, p, now, ReadyKind(Plugin));
    UpdateIsLocal(mid, t, now, ReadyKind(Plugin));
    UpdateIsLocal(mid, t, now, ReadyKind(Theme));
    UpdateSettled(end, p, later);
    UpdateSettled(end, t, later);
  }

  /** The halves commute up to the order of the list; the order differs exactly when both append. */
  lemma HalvesCommute(w: Widget, plugin: Outcome, theme: Outcome, now: int)
    ensures var p, t := UpdateFor(Plugin, w, plugin), UpdateFor(Theme, w, theme);
            var swapped := Updated(Updated(w.status.conditions, t, now), p, now);
            && multiset(ReconciledStatus(w, plugin, theme, now).conditions) == multiset(swapped)
            && (ReconciledStatus(w, plugin, theme, now).conditions == swapped <==>
                !BothAppend(w.status.conditions, p, t))
  {
    KindsDiffer();
    UpdatesCommute(w.status.conditions, UpdateFor(Plugin, w, plugin), UpdateFor(Theme, w, theme), now);
  }

  /** Where neither half has a condition yet and both have something to say, the plugin's comes first. */
  lemma NewConditionsInOrder(w: Widget, plugin: Outcome, theme: Outcome, now: int)
    requires !plugin.NoRef? && !theme.NoRef?
    requires Find(w.status.conditions, "PluginReady").None? && Find(w.status.conditions, "ThemeReady").None?
    ensures var conds, n := ReconciledStatus(w, plugin, theme, now).conditions, |w.status.conditions|;
            && |conds| == n + 2 && conds[..n] == w.status.conditions
            && conds[n].kind == "PluginReady" && conds[n + 1].kind == "ThemeReady"
  {
    KindsDiffer();
    PutsAppendBoth(w.status.conditions, UpdateFor(Plugin, w, plugin).cond, UpdateFor(Theme, w, theme).cond, now);
  }

  /** Conditions of other owners keep their values and their order, and types stay unique. */
  lemma ReconcileKeepsForeign(w: Widget, plugin: Outcome, theme: Outcome, now: int)
    ensures Others(ReconciledStatus(w, plugin, theme, now).conditions, OWN_KINDS) ==
            Others(w.status.conditions, OWN_KINDS)
    ensures UniqueKinds(w.status.conditions) ==> UniqueKinds(ReconciledStatus(w, plugin, theme, now).conditions)
  {
    KindsDiffer();
    var p, t := UpdateFor(Plugin, w, plugin), UpdateFor(Theme, w, theme);
    UpdateKeepsOthers(w.status.conditions, p, now, OWN_KINDS);
    UpdateKeepsOthers(Updated(w.status.conditions, p, now), t, now, OWN_KINDS);
    if UniqueKinds(w.status.conditions) {
      UpdateKeepsUnique(w.status.conditions, p, now);
      UpdateKeepsUnique(Updated(w.status.conditions, p, now), t, now);
    }
  }

  /** The transition time of a half moves only when its status does. */
  lemma TransitionFollowsStatus(w: Widget, plugin: Outcome, theme: Outcome, now: int, h: Half)
    ensures var before, after := Find(w.status.conditions, ReadyKind(h)),
                                 Find(ReconciledStatus(w, plugin, theme, now).conditions, ReadyKind(h));
            after.Some? ==>
              after.value.transition ==
              if before.Some? && before.value.status == after.value.status then before.value.transition else now
  {
    KindsDiffer();
    var p, t := UpdateFor(Plugin, w, plugin), UpdateFor(Theme, w, theme);
    var mid := Updated(w.status.conditions, p, now);
    UpdateIsLocal(w.status.conditions, p, now, ReadyKind(Theme));
    UpdateIsLocal(mid, t, now, ReadyKind(Plugin));
    if p.Mark? {
      FindAfterPut(w.status.conditions, p.cond, now, ReadyKind(Plugin));
    } else {
      FindAfterDrop(w.status.conditions, p.kind, ReadyKind(Plugin));
    }
    if t.Mark? {
      FindAfterPut(mid, t.cond, now, ReadyKind(Theme));
    } else {
      FindAfterDrop(mid, t.kind, ReadyKind(Theme));
    }
  }

  // ----- in terms of what TryGet returned

  /** The half has a reference, and TryGet failed otherwise than with NotFound: Reconcile has to be tried again. */
  predicate HandsOnError(ref: string, r: TryResult) {
    ref != "" && r.error.Some? && r.error.value != W.ReadError.NotFound
  }

  /**
   The half's condition after a reconcile: none without a reference; otherwise NotFound, not
   available or applied, as TryGet said.
   */
  predicate TellsResult(conds: seq<Condition>, h: Half, ref: string, generation: int, r: TryResult) {
    if ref == "" then Find(conds, ReadyKind(h)).None?
    else if r.error == Some(W.ReadError.NotFound) then
      Carries(conds, h, false, NotFoundReason(h), Noun(h) + " \"" + ref + "\" not found", generation)
    else if !r.available then
      Carries(conds, h, false, NotAvailableReason(h), Noun(h) + " CRD is not installed", generation)
    else Carries(conds, h, true, AppliedReason(h), r.content, generation)
  }

  /** A status tells of both halves, for the Widget's generation. */
  ghost predicate TellsBoth(status: Status, w: Widget, plugin: TryResult, theme: TryResult) {
    && status.observedGeneration == w.generation
    && TellsResult(status.conditions, Plugin, w.spec.pluginRef, w.generation, plugin)
    && TellsResult(status.conditions, Theme, w.spec.themeRef, w.generation, theme)
  }

  lemma OutcomeExists(ref: string, r: TryResult)
    ensures OutcomeOf(ref, r).None? <==> HandsOnError(ref, r)
    ensures OutcomeOf(ref, r) == Some(NoRef) <==> ref == ""
  {
  }

  lemma HalfTells(conds: seq<Condition>, h: Half, ref: string, generation: int, r: TryResult, now: int)
    requires !HandsOnError(ref, r)
    ensures OutcomeOf(ref, r).Some?
    ensures TellsResult(Updated(conds, HalfUpdate(h, ref, generation, OutcomeOf(ref, r).value), now), h, ref,
                        generation, r)
  {
    UpdateIsLocal(conds, HalfUpdate(h, ref, generation, OutcomeOf(ref, r).value), now, ReadyKind(h));
  }

  /** The reconciled status tells what both calls returned, whatever was there before. */
  lemma ReconciledStatusTells(w: Widget, plugin: TryResult, theme: TryResult, now: int)
    requires !HandsOnError(w.spec.pluginRef, plugin) && !HandsOnError(w.spec.themeRef, theme)
    ensures var p, t := OutcomeOf(w.spec.pluginRef, plugin), OutcomeOf(w.spec.themeRef, theme);
            p.Some? && t.Some? && TellsBoth(ReconciledStatus(w, p.value, t.value, now), w, plugin, theme)
  {
    KindsDiffer();
    HalfTells(w.status.conditions, Plugin, w.spec.pluginRef, w.generation, plugin, now);
    var p, t := OutcomeOf(w.spec.pluginRef, plugin).value, OutcomeOf(w.spec.themeRef, theme).value;
    var mid := Updated(w.status.conditions, UpdateFor(Plugin, w, p), now);
    HalfTells(mid, Theme, w.spec.themeRef, w.generation, theme, now);
    UpdateIsLocal(mid, UpdateFor(Theme, w, t), now, ReadyKind(Plugin));
  }

  /** What the half's condition tells the reader. */
  predicate Carries(conds: seq<Condition>, h: Half, status: bool, reason: string, message: string, generation: int) {
    match Find(conds, ReadyKind(h))
    case None => false
    case Some(c) => (c.status, c.reason, c.message, c.observedGeneration) == (status, reason, message, generation)
  }

  /** The conditions of every other type are the same, in the same order. */
  ghost predicate SameElsewhere(before: seq<Condition>, after: seq<Condition>, kind: string) {
    && Others(after, {kind}) == Others(before, {kind})
    && forall other :: other != kind ==> Find(after, other) == Find(before, other)
  }

  lemma UpdateTouchesOne(conds: seq<Condition>, u: Update, now: int)
    ensures SameElsewhere(conds, Updated(conds, u, now), Subject(u))
    ensures u.Mark? ==> Find(Updated(conds, u, now), u.cond.kind).Some?
                        && Find(Updated(conds, u, now), u.cond.kind).value.(transition := u.cond.transition) == u.cond
  {
    UpdateKeepsOthers(conds, u, now, {Subject(u)});
    forall other ensures other != Subject(u) ==> Find(Updated(conds, u, now), other) == Find(conds, other) {
      UpdateIsLocal(conds, u, now, other);
    }
    UpdateIsLocal(conds, u, now, Subject(u));
  }

  // ----- the object

  /** A Widget in the reconciler's hands; the lifecycle methods change its conditions in place. */
  class WidgetObject {
    const key: Key
    const generation: int
    const spec: Spec
    var observedGeneration: int
    var conditions: seq<Condition>

    constructor (w: Widget)
      ensures View() == w
    {
      key, generation, spec := w.key, w.generation, w.spec;
      observedGeneration, conditions := w.status.observedGeneration, w.status.conditions;
    }

    function View(): Widget
      reads this
    {
      Widget(key, generation, spec, Status(observedGeneration, conditions))
    }

    /** meta.SetStatusCondition. */
    method SetStatusCondition(c: Condition, now: int)
      modifies this`conditions
      ensures conditions == Put(old(conditions), c, now)
    {
      var i := 0;
      while i < |conditions| && conditions[i].kind != c.kind
        invariant i <= |conditions| && conditions == old(conditions)
        invariant forall j :: 0 <= j < i ==> conditions[j].kind != c.kind
      {
        i := i + 1;
      }
      IndexIsFirst(conditions, c.kind, i);
      if i == |conditions| {
        conditions := conditions + [c.(transition := now)];
      } else {
        conditions := conditions[i := Merge(conditions[i], c, now)];
      }
    }

    /** meta.RemoveStatusCondition. */
    method RemoveStatusCondition(kind: string)
      modifies this`conditions
      ensures conditions == Drop(old(conditions), kind)
    {
      var kept: seq<Condition> := [];
      for i := 0 to |conditions|
        invariant conditions == old(conditions)
        invariant kept + Drop(conditions[i..], kind) == Drop(conditions, kind)
      {
        assert conditions[i..][1..] == conditions[i + 1..];
        if conditions[i].kind != kind {
          assert kept + ([conditions[i]] + Drop(conditions[i + 1..], kind)) ==
                 (kept + [conditions[i]]) + Drop(conditions[i + 1..], kind);
          kept := kept + [conditions[i]];
        }
      }
      assert conditions[|conditions|..] == [];
      conditions := kept;
    }

    method MarkApplied(h: Half, message: string, now: int)
      modifies this`conditions
      ensures conditions == Put(old(conditions), AppliedMark(h, message, generation), now)
      ensures Carries(conditions, h, true, AppliedReason(h), message, generation)
      ensures SameElsewhere(old(conditions), conditions, ReadyKind(h))
    {
      SetStatusCondition(Condition(ReadyKind(h), true, AppliedReason(h), message, generation, 0), now);
      UpdateTouchesOne(old(conditions), Mark(AppliedMark(h, message, generation)), now);
    }

    method MarkCRDNotAvailable(h: Half, now: int)
      modifies this`conditions
      ensures conditions == Put(old(conditions), NotAvailableMark(h, generation), now)
      ensures Carries(conditions, h, false, NotAvailableReason(h), Noun(h) + " CRD is not installed", generation)
      ensures SameElsewhere(old(conditions), conditions, ReadyKind(h))
    {
      var message := Noun(h) + " CRD is not installed";
      SetStatusCondition(Condition(ReadyKind(h), false, NotAvailableReason(h), message, generation, 0), now);
      UpdateTouchesOne(old(conditions), Mark(NotAvailableMark(h, generation)), now);
    }

    method MarkNotFound(h: Half, ref: string, now: int)
      modifies this`conditions
      ensures conditions == Put(old(conditions), NotFoundMark(h, ref, generation), now)
      ensures Carries(conditions, h, false, NotFoundReason(h), Noun(h) + " \"" + ref + "\" not found", generation)
      ensures SameElsewhere(old(conditions), conditions, ReadyKind(h))
    {
      var message := Noun(h) + " \"" + ref + "\" not found";
      SetStatusCondition(Condition(ReadyKind(h), false, NotFoundReason(h), message, generation, 0), now);
      UpdateTouchesOne(old(conditions), Mark(NotFoundMark(h, ref, generation)), now);
    }

    method RemoveCondition(h: Half)
      modifies this`conditions
      ensures conditions == Drop(old(conditions), ReadyKind(h))
      ensures forall c :: c in conditions <==> c in old(conditions) && c.kind != ReadyKind(h)
      ensures SameElsewhere(old(conditions), conditions, ReadyKind(h))
    {
      RemoveStatusCondition(ReadyKind(h));
      UpdateTouchesOne(old(conditions), Unmark(ReadyKind(h)), 0);
      forall c ensures c in conditions <==> c in old(conditions) && c.kind != ReadyKind(h) {
        DropLeaves(old(conditions), ReadyKind(h), c);
      }
    }

    /** reconcilePlugin and reconcileTheme, on the result TryGet returned. */
    method ReconcileHalf(h: Half, r: TryResult, now: int) returns (ok: bool)
      modifies this`conditions
      ensures ok == OutcomeOf(Ref(h, spec), r).Some? == !HandsOnError(Ref(h, spec), r)
      ensures Ref(h, spec) == "" ==> ok && Find(conditions, ReadyKind(h)).None?
      ensures ok ==> TellsResult(conditions, h, Ref(h, spec), generation, r)
      ensures SameElsewhere(old(conditions), conditions, ReadyKind(h))
      ensures ok ==> conditions ==
                     var o := OutcomeOf(Ref(h, spec), r).value;
                     Updated(old(conditions), HalfUpdate(h, Ref(h, spec), generation, o), now)
      ensures !ok ==> conditions == old(conditions)
    {
      var ref := Ref(h, spec);
      if !HandsOnError(ref, r) {
        HalfTells(conditions, h, ref, generation, r, now);
      }
      if ref == "" {
        RemoveCondition(h);
        return true;
      }
      if r.error.Some? {
        if r.error.value == W.ReadError.NotFound {
          MarkNotFound(h, ref, now);
          return true;
        }
        return false;
      }
      if !r.available {
        MarkCRDNotAvailable(h, now);
        return true;
      }
      MarkApplied(h, r.content, now);
      return true;
    }
  }

  // ----- the call

  /** What a Reconcile leaves behind: the Widgets, how many status patches were sent, whether it failed. */
  datatype World = World(widgets: map<Key, Widget>, patches: nat, failed: bool)

  /**
   One Reconcile with nobody else writing the Widget meanwhile. A Widget that is gone is no
   error; an error in the Get, in either half, or in the patch, writes nothing; otherwise the
   status is the one both halves computed, and a patch is sent only when it differs.
   */
  function AfterReconcile(s: World, key: Key, getOk: bool, plugin: TryResult, theme: TryResult, patchOk: bool,
                          now: int): World {
    if !getOk then s.(failed := true)
    else if key !in s.widgets then s.(failed := false)
    else
      var w := s.widgets[key];
      var p, t := OutcomeOf(w.spec.pluginRef, plugin), OutcomeOf(w.spec.themeRef, theme);
      if p.None? || t.None? then s.(failed := true)
      else
        var after := ReconciledStatus(w, p.value, t.value, now);
        if after == w.status then s.(failed := false)
        else if !patchOk then s.(failed := true)
        else World(s.widgets[key := w.(status := after)], s.patches + 1, false)
  }

  /**
   After a Reconcile that did not fail, a second one over the unchanged world, at any later time,
   writes nothing, and fails only if its Get does.
   */
  lemma SecondReconcileWritesNothing(s: World, key: Key, getOk: bool, plugin: TryResult, theme: TryResult,
                                     patchOk: bool, now: int, getAgain: bool, patchAgain: bool, later: int)
    requires !AfterReconcile(s, key, getOk, plugin, theme, patchOk, now).failed
    ensures var once := AfterReconcile(s, key, getOk, plugin, theme, patchOk, now);
            AfterReconcile(once, key, getAgain, plugin, theme, patchAgain, later) == once.(failed := !getAgain)
  {
    var once := AfterReconcile(s, key, getOk, plugin, theme, patchOk, now);
    if key in s.widgets {
      var w := s.widgets[key];
      var p, t := OutcomeOf(w.spec.pluginRef, plugin).value, OutcomeOf(w.spec.themeRef, theme).value;
      ReconcileIsIdempotent(w, p, t, now, later);
      var after := ReconciledStatus(w, p, t, now);
      assert w.(status := after) == once.widgets[key];
    }
  }

  /**
   What a Reconcile answers. It fails exactly when the Get does, or a half hands on an error, or a
   patch is needed and fails; then nothing is written. A Widget that is gone is no failure and
   nothing is written. Otherwise the Widget's status tells what the calls returned, and one patch
   was sent if that is a change.
   */
  lemma ReconcileAnswers(s: World, key: Key, getOk: bool, plugin: TryResult, theme: TryResult, patchOk: bool, now: int)
    ensures var t := AfterReconcile(s, key, getOk, plugin, theme, patchOk, now);
            && (t.failed ==> t.widgets == s.widgets && t.patches == s.patches)
            && (key !in s.widgets ==> t.widgets == s.widgets && t.patches == s.patches && t.failed == !getOk)
            && (key in s.widgets ==>
                  var w := s.widgets[key];
                  && (!getOk || HandsOnError(w.spec.pluginRef, plugin) || HandsOnError(w.spec.themeRef, theme) ==>
                        t.failed)
                  && (t.failed && patchOk ==>
                        !getOk || HandsOnError(w.spec.pluginRef, plugin) || HandsOnError(w.spec.themeRef, theme))
                  && (!t.failed ==>
                        && key in t.widgets && t.widgets == s.widgets[key := w.(status := t.widgets[key].status)]
                        && TellsBoth(t.widgets[key].status, w, plugin, theme)
                        && t.patches == s.patches + (if t.widgets == s.widgets then 0 else 1)))
  {
    if key in s.widgets {
      var w := s.widgets[key];
      OutcomeExists(w.spec.pluginRef, plugin);
      OutcomeExists(w.spec.themeRef, theme);
      if !HandsOnError(w.spec.pluginRef, plugin) && !HandsOnError(w.spec.themeRef, theme) {
        ReconciledStatusTells(w, plugin, theme, now);
        var t := AfterReconcile(s, key, getOk, plugin, theme, patchOk, now);
        if !t.failed {
          assert w.(status := w.status) == w;
          assert t.widgets == s.widgets ==> t.widgets[key].status == w.status;
          assert t.widgets[key].status == w.status ==> t.widgets == s.widgets;
        }
      }
    }
  }

  class Cluster {
    var widgets: map<Key, Widget>
    var patches: nat

    constructor ()
      ensures widgets == map[] && patches == 0
    {
      widgets, patches := map[], 0;
    }

    method Reconcile(key: Key, getOk: bool, plugin: TryResult, theme: TryResult, patchOk: bool, now: int)
      returns (failed: bool)
      modifies this
      ensures World(widgets, patches, failed) ==
              AfterReconcile(World(old(widgets), old(patches), false), key, getOk, plugin, theme, patchOk, now)
      ensures failed ==> widgets == old(widgets) && patches == old(patches)
      ensures key !in old(widgets) ==> widgets == old(widgets) && patches == old(patches) && failed == !getOk
      ensures key in old(widgets) && patchOk ==>
                var spec := old(widgets)[key].spec;
                failed == (!getOk || HandsOnError(spec.pluginRef, plugin) || HandsOnError(spec.themeRef, theme))
      ensures key in old(widgets) && !failed ==>
                && key in widgets && TellsBoth(widgets[key].status, old(widgets)[key], plugin, theme)
                && widgets == old(widgets)[key := old(widgets)[key].(status := widgets[key].status)]
                && patches == old(patches) + if widgets == old(widgets) then 0 else 1
    {
      ReconcileAnswers(World(widgets, patches, false), key, getOk, plugin, theme, patchOk, now);
      if !getOk {
        return true;
      }
      if key !in widgets {
        return false;
      }
      var oldStatus := widgets[key].status;
      var newStatus := Compute(widgets[key], plugin, theme, now);
      if newStatus.None? {
        return true;
      }
      if newStatus.value != oldStatus {
        if !patchOk {
          return true;
        }
        widgets := widgets[key := widgets[key].(status := Patched(widgets[key].status, oldStatus, newStatus.value))];
        patches := patches + 1;
      }
      return false;
    }

    /** Both halves on a copy of the Widget; both run even when the first one fails. */
    method Compute(w: Widget, plugin: TryResult, theme: TryResult, now: int) returns (status: Option<Status>)
      ensures var p, t := OutcomeOf(w.spec.pluginRef, plugin), OutcomeOf(w.spec.themeRef, theme);
              status == if p.None? || t.None? then None else Some(ReconciledStatus(w, p.value, t.value, now))
      ensures status.None? <==> HandsOnError(w.spec.pluginRef, plugin) || HandsOnError(w.spec.themeRef, theme)
      ensures status.Some? ==> TellsBoth(status.value, w, plugin, theme)
    {
      OutcomeExists(w.spec.pluginRef, plugin);
      OutcomeExists(w.spec.themeRef, theme);
      if !HandsOnError(w.spec.pluginRef, plugin) && !HandsOnError(w.spec.themeRef, theme) {
        ReconciledStatusTells(w, plugin, theme, now);
      }
      var widget := new WidgetObject(w);
      widget.observedGeneration := widget.generation;
      var pluginOk := widget.ReconcileHalf(Plugin, plugin, now);
      var themeOk := widget.ReconcileHalf(Theme, theme, now);
      if !pluginOk || !themeOk {
        return None;
      }
      return Some(widget.View().status);
    }
  }
}

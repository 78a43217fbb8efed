# Dynamic CRD watches, modelled and proved in Dafny

`dynamicwatch` lets a controller depend on a CRD that may be installed and removed while the
controller runs. One `Watcher` tracks one CRD: it registers an informer when a reconcile needs it,
promotes itself to active when the informer has synced, and tears everything down when the CRD goes
away. The state is five fields behind a mutex, but much of the work (removing the informer, resetting
the gauge, listing the parents and adding them to the queue) happens outside it, on several goroutines.

This project models that protocol, the Widget controller that uses it, and the naming and registry
code around it, and proves what holds on every interleaving.

`dafny verify dfyconfig.toml` checks the whole project.

## Layout

| file | content |
|---|---|
| `Crds.dfy` | CRD objects, the Established check, the removal decision, the cache transform |
| `Protocol.dfy` | the transition system of one watcher: states, actions, runs |
| `ProtocolInvariants.dfy` | what every step keeps: four states, waiters and the cancel handle, teardown |
| `ProtocolHistory.dfy` | statements over whole histories: matched activation, the CRD flag, accounting |
| `Informer.dfy` | which informer the cache holds: created asynchronously, removed outside the lock |
| `Generation.dfy` | the 64-bit generation word against an ideal counter |
| `Watchers.dfy` | the `Watcher` class; each method refines protocol actions, whole calls run under arbitrary schedules of the other goroutines |
| `Fleet.dfy` | many watchers on one CRD stream, and the projection to each of them |
| `Conditions.dfy`, `Widgets.dfy` | status conditions, the Widget lifecycle methods, `Reconcile` |
| `Mappers.dfy` | field indexes and requeue mappers |
| `Naming.dfy`, `Registries.dfy` | condition types from CRD names, the registry |
| `System.dfy`, `Obligations.dfy` | the controller around a watcher, and who owes a parent its requeue |
| `Calls.dfy` | a controller run is a protocol run, and the stages of a reconcile are one call of `TryGet` |
| `EndToEnd.dfy`, `Convergence.dfy` | the claims about the controller at rest, and where its runs end |
| `Stranding.dfy` | the runs that show why these claims have exceptions |
| `Twins.dfy`, `TwinConvergence.dfy` | the controller with both watchers on one queue, and its projection to each half |

## How to read the model

An action of the protocol is one critical section or one operation outside the lock. The return of
`WaitForSync` is merged with the critical section that follows it: it may come at any time, with
failure always possible, and with success once the source has created its informer or its context
was cancelled. A source creates its informer at any time after the registration that started it,
also after that watch is gone. The history of critical sections is part of the state, so statements
about whole runs are statements about reachable states.

The environment assumed: CRD events reach one watcher one at a time, with arbitrary contents; a
source may fail to start; `RemoveInformer` may fail; a read fails with the missing-informer error
exactly when the informer is absent; the work queue is a dirty set; an error puts the key back; a key
is reconciled by one worker at a time; `requeueAll` returns the complete list of the parents in the
cache; nobody else writes the condition of the half under study, while other conditions may be
written by anyone. That the other half of the same `Reconcile` keeps to this is not assumed: `Twins`
has both watchers, one queue and one patch for both halves, and proves that each half of its runs is
a run of the one-half controller.

Widgets are read from a cache that may lag. A Widget of the model has the spec that the cache has,
and a delivery of another spec enqueues it; its status is the API server's, and the cache may be any
number of status versions behind, because the delivery of a status enqueues nothing
(`internal/controller/widget_controller.go:355`).

The generation counter is ideal (modulus 0) in the protocol statements. The class has the machine's
word, and `Generation.MachineRefinesIdeal` carries the statements over.

The plugin and the theme half of the Widget controller are twins; they are one definition with the
half as a parameter, and every statement holds of both.

Where the code and its comments differ, the model follows the code: the examples at
`pkg/dynamicwatch/condition.go:75-76` show word splitting that `toPascalCase` does not do.

Some boundaries of the code show in the statements, each with a run that reaches it and with the exact
condition.

- After a failed sync `RemoveInformer` runs after `watching` was cleared, so it can hit a successor: an
  active watch can be without its informer (`Informer.ActiveWithoutInformer`,
  `Informer.WatchHasInformerExactly`).
- A source that is slow to start can create its informer after the `RemoveInformer` meant for it
  (`Informer.StrayInformer`, `Informer.RemovalIsFinal`).
- A reader that missed the informer can call `handleCacheInvalidated` when a newer watch is already
  active; that resets the newer watch and requeues nobody, so a Widget can be left with a status
  nothing corrects (`Stranding.LateInvalidationStrands`).
- A reconcile that reads an outdated status and finds nothing to change in it sends no patch of the
  conditions, so the newer, wrong condition stays (`Stranding.OutdatedReadSkews`). For both of these
  `EndToEnd.StatusTellsAvailability` says exactly when.
- A source that fails to start requeues nobody (`pkg/dynamicwatch/watcher.go:229-233`), so the watch can
  be left in Pending although the CRD is there (`Stranding.FailedStartLeavesPending`,
  `Convergence.Convergence`).

The convergence statements are about runs in which CRD events and Widget edits have stopped, sources
start, and current waiters sync. Events of the optional objects, status writes of others, deliveries
to the cache and errors of reconciles may still come; the models call them noise, and the length of a
run is bounded by the work at its beginning and the noise in it. No fairness is assumed.

## Model

| member | source | states |
|---|---|---|
| `Crds.EstablishedIffFirstIsTrue` | pkg/dynamicwatch/watcher.go:591-599 | the CRD counts as established exactly when an Established=True condition has no other Established condition before it |
| `Crds.RemovedIffNotInstalled` | pkg/dynamicwatch/watcher.go:419 | the removal decision in the CRD's own fields: removed exactly when it is being deleted or its first Established condition is not True |
| `Crds.CachedCrd.TransformForCache` | pkg/dynamicwatch/watcher.go:570-578 | trimming in place drops spec, managed fields and annotations, keeps the name, and keeps the CRD installed or not as it was |
| `Watchers.Watcher.Start` | pkg/dynamicwatch/watcher.go:158-178 | a second Start is refused and a failed one leaves the watcher not started |
| `Watchers.Watcher.Ensure` | pkg/dynamicwatch/watcher.go:208-250 | the critical section is the protocol's Ensure action; it returns true exactly when the watch is active |
| `Watchers.Watcher.HandleCacheInvalidated` | pkg/dynamicwatch/watcher.go:371-384 | the section is the protocol's invalidation, whatever state it finds |
| `Watchers.Watcher.CrdSection` | pkg/dynamicwatch/watcher.go:419-466 | the critical section of onCRDChange is the protocol's CRD event; afterwards crdExists holds exactly when the CRD is not being deleted and its first Established condition is True, and otherwise everything is torn down; its local copies are the old flags |
| `Watchers.Watcher.DecideSection` | pkg/dynamicwatch/watcher.go:500-543 | the critical section of a sync waiter: stale exactly when the generation word moved, otherwise promotion or failure |
| `Watchers.Watcher.OnCRDChange` | pkg/dynamicwatch/watcher.go:416-476 | under every schedule of the other goroutines the call returns the complete parent list exactly when an active watch met a CRD that is not installed or an installed CRD was new, removes the informer exactly when a watch met one that is not installed, and leaves crdExists set exactly when the CRD is installed and no reader invalidated meanwhile |
| `Watchers.Watcher.WaitForSyncAndRequeue` | pkg/dynamicwatch/watcher.go:495-553 | under every schedule the requests that a waiter's own actions put on the queue are the whole parent list, once and in order, after removing the informer exactly when its sync failed; those of a stale one are none |
| `Watchers.Watcher.TryGet` | pkg/dynamicwatch/watcher.go:258-317 | under every schedule the call takes the Ensure section once, and the invalidation exactly when Ensure found the watch active and the read then no informer; available means the first without the second; internal errors never escape |
| `Watchers.CallsAreLinearisable` | pkg/dynamicwatch/watcher.go:252-272 | of every such call: (true, _) has an instant in it at which the watch was active, (false, nil) one at which it was not |
| `Watchers.Watcher.TryList` | pkg/dynamicwatch/watcher.go:279-331 | the same sections under the same conditions, and (false, nil) leaves the list empty with no remaining count |
| `Watchers.ObjectList.Clear` | pkg/dynamicwatch/watcher.go:601-610 | no items and no remaining item count afterwards |
| `ProtocolInvariants.WaiterInvariant` | pkg/dynamicwatch/watcher.go:145-150 | the cancel handle is set iff watching and not active, iff there is exactly one undecided waiter of the current generation, whose handle it is; every other undecided waiter is older and cancelled |
| `ProtocolInvariants.FinishingWaiterOwnsTheHandle` | pkg/dynamicwatch/watcher.go:502-543 | a deciding waiter clears only its own handle, a sync failure never happens while active, a stale waiter changes no flag |
| `ProtocolInvariants.EnsureNeverCancels` | pkg/dynamicwatch/watcher.go:226-247 | the cancel call inside Ensure is never reached |
| `ProtocolInvariants.FourStates` | pkg/dynamicwatch/watcher.go:145-150 | of the eight combinations of the flags only those of the four states occur |
| `ProtocolInvariants.StepRefinesLifecycle` | pkg/dynamicwatch/watcher.go:208-553 | every step is an edge of the four-state machine: into Ready only from Syncing, into Syncing only from Pending |
| `ProtocolInvariants.LifecycleIsInhabited` | pkg/dynamicwatch/watcher.go:349-367 | all four states are reached |
| `ProtocolInvariants.TeardownNeverHitsSuccessor` | pkg/dynamicwatch/watcher.go:421-444 | while RemoveInformer of a removal is outstanding no source starts, and an informer appears only from a source that was started before, on every interleaving |
| `ProtocolInvariants.CrdPathRemovesOnlyWhatItToreDown` | pkg/dynamicwatch/watcher.go:416-444 | from the CRD event to the end of RemoveInformer the only informer it can remove was there before the event or comes from a source started before it |
| `ProtocolHistory.MatchedActivation` | pkg/dynamicwatch/watcher.go:235-244 | every promotion and every counted sync failure is preceded by the registration of the same waiter with no teardown, invalidation, failure, promotion or registration in between, however many stale waiters return |
| `ProtocolHistory.RegistrationNeedsEstablishedCrd` | pkg/dynamicwatch/watcher.go:220-242 | no registration between a loss of the CRD and the next Established event |
| `ProtocolHistory.CrdFlagSoundness` | pkg/dynamicwatch/watcher.go:416-468 | crdExists iff the CRD was seen established and neither torn down nor invalidated since |
| `ProtocolHistory.CrdFlagAndLastEvent` | pkg/dynamicwatch/watcher.go:416-468 | crdExists implies the last CRD event was Established, and conversely when no invalidation followed |
| `ProtocolHistory.CrdFlagTellsLastEvent` | pkg/dynamicwatch/watcher.go:416-468 | after any run crdExists says that the CRD of the last event is installed, in its own fields, and that no invalidation followed |
| `ProtocolHistory.Accounting` | pkg/dynamicwatch/watcher.go:452-455 | conservation laws of generation, spawned waiters, the four counters and the gauge, in every reachable state |
| `Informer.OnlyLateRemovalBreaksWatch` | pkg/dynamicwatch/watcher.go:503-520 | a step takes the informer from a watch whose source has created it exactly when it is the late RemoveInformer of a failed sync |
| `Informer.WatchHasInformerExactly` | pkg/dynamicwatch/watcher.go:503-520 | after any run an active watch has its informer if and only if every such late removal of the run was followed by a creation |
| `Informer.OrderlyRunsKeepInformer` | pkg/dynamicwatch/watcher.go:513-520 | a sufficient condition on the registrations alone: when none finds such a removal outstanding an active watch has its informer |
| `Informer.ActiveWithoutInformer` | pkg/dynamicwatch/watcher.go:503-520 | a run that ends active with the informer gone |
| `Informer.RemovalIsFinal` | pkg/dynamicwatch/watcher.go:439-444 | after a removal no informer comes back without a new registration, on any run, if and only if every source started before has created its own |
| `Informer.StrayInformer` | pkg/dynamicwatch/watcher.go:439-444 | a run that ends with the CRD gone and handled and an informer there |
| `Generation.GuardAgreesWhileYoung` | pkg/dynamicwatch/watcher.go:504-533 | the word comparison agrees with an unbounded counter throughout a waiter's life exactly when fewer than 2^64 bumps fall in it |
| `Generation.MachineRefinesIdeal` | pkg/dynamicwatch/watcher.go:149 | under that bound the 64-bit watcher has exactly the ideal runs, and every part of the waiter invariant carries over |
| `Generation.OldWaiterPromotesAfterWrap` | pkg/dynamicwatch/watcher.go:532-543 | a machine run of 2^64 teardowns after which a stale waiter promotes although the CRD is gone |
| `Fleet.IsolationByProjection` | pkg/dynamicwatch/watcher.go:166-169 | one watcher's views of the plays of a fleet are exactly its plays alone on the events of its own name |
| `Fleet.FleetProjects` | pkg/dynamicwatch/watcher.go:558-562 | each play of the fleet, projected, is a play of the watcher alone that ends in the projected state |
| `Fleet.MembersStayReachable` | pkg/dynamicwatch/watcher.go:558-562 | members of a fleet only reach states of the single-watcher protocol |
| `Fleet.ConsumeHearsOwnName` | pkg/dynamicwatch/watcher.go:558-562 | taking an event off the stream is a CRD event of the watcher exactly when the CRD bears its name, and touches no other watcher |
| `Fleet.WatcherHearsItsOwn` | pkg/dynamicwatch/watcher.go:558-562 | on every play a watcher hears the published CRDs that bear its name and no others, each once and in the order of publication |
| `Fleet.UnnamedWatcherSleeps` | pkg/dynamicwatch/watcher.go:558-562 | a watcher whose name no published CRD bears never learns of one and never starts a watch |
| `Conditions.UpdateIsLocal` | api/v1alpha1/widget_lifecycle.go:32-69 | a Mark or Remove decides the condition of its own type and no other |
| `Conditions.UpdatesCommute` | api/v1alpha1/widget_lifecycle.go:32-124 | updates of different types commute as multisets, and as lists exactly unless both append |
| `Widgets.WidgetObject.SetStatusCondition` | api/v1alpha1/widget_lifecycle.go:32-40 | in-place update of the first condition of the type, or append; the transition time moves only with the status |
| `Widgets.WidgetObject.RemoveStatusCondition` | api/v1alpha1/widget_lifecycle.go:67-69 | removes every condition of the type and keeps the order of the rest |
| `Widgets.WidgetObject.MarkApplied` | api/v1alpha1/widget_lifecycle.go:32-40 | afterwards the half's condition reads True, the applied reason, the given message and the Widget's generation; all others keep value and order |
| `Widgets.WidgetObject.MarkCRDNotAvailable` | api/v1alpha1/widget_lifecycle.go:44-52 | afterwards it reads False with the CRD-not-available reason; all others keep value and order |
| `Widgets.WidgetObject.MarkNotFound` | api/v1alpha1/widget_lifecycle.go:56-64 | afterwards it reads False with the not-found reason and the reference in the message; all others keep value and order |
| `Widgets.WidgetObject.RemoveCondition` | api/v1alpha1/widget_lifecycle.go:67-69 | exactly the half's conditions are gone |
| `Widgets.WidgetObject.ReconcileHalf` | internal/controller/widget_controller.go:85-119 | on every result of TryGet: an error other than NotFound of a half with a reference is handed on and changes nothing; otherwise the half has no condition without a reference, and else one that says not found, not available or applied; all other conditions stay |
| `Widgets.Cluster.Compute` | internal/controller/widget_controller.go:64-73 | both halves on a copy of the Widget: no status exactly when a half hands on an error, else the observed generation and both conditions tell the results |
| `Widgets.Cluster.Reconcile` | internal/controller/widget_controller.go:58-82 | it fails exactly when the Get, a half with a reference or a needed patch does, and then writes nothing; a missing Widget is no failure; otherwise the status tells both results, and one patch is sent exactly when that is a change |
| `Widgets.ReconcileAnswers` | internal/controller/widget_controller.go:58-82 | the same of the function that the method is equal to |
| `Widgets.ReconciledStatusTells` | internal/controller/widget_controller.go:64-69 | the computed status has the Widget's generation, and each half's condition tells what TryGet returned, whatever was there before |
| `Widgets.NewConditionsInOrder` | internal/controller/widget_controller.go:68-69 | where neither condition exists the plugin's is appended before the theme's |
| `Widgets.Wording` | api/v1alpha1/widget_lifecycle.go:11-87 | the condition types and reasons of the API |
| `Widgets.ReconciledReason` | internal/controller/widget_controller.go:85-156 | afterwards each half's reason tells its own outcome, whatever the other half did |
| `Widgets.ReconcileIsIdempotent` | internal/controller/widget_controller.go:64-79 | reconciling again at any later time computes the status already there |
| `Widgets.SecondReconcileWritesNothing` | internal/controller/widget_controller.go:58-82 | over an unchanged world a second Reconcile sends no patch, and fails only if its Get does |
| `Widgets.HalvesCommute` | internal/controller/widget_controller.go:68-69 | the halves in either order give the same conditions up to order, and the same list exactly unless both append |
| `Widgets.ReconcileKeepsForeign` | internal/controller/widget_controller.go:58-82 | conditions of other types keep value and order, types stay unique |
| `Widgets.TransitionFollowsStatus` | api/v1alpha1/widget_lifecycle.go:31-119 | a half's transition time is unchanged when its status is |
| `Mappers.BothSetupsIndexTheSame` | internal/controller/widget_controller.go:421-467 | inline and table-driven index functions extract the same keys for every object and field |
| `Mappers.ObjectToWidgets` | internal/controller/widget_controller.go:174-192 | the index-driven mapper returns the plain scan for Widgets naming the object, or nothing when the List fails |
| `Mappers.AllWidgetsWithRef` | internal/controller/widget_controller.go:200-218 | the has-reference mapper returns the plain scan for Widgets with a reference |
| `Mappers.HasRefIndexIsScan` | internal/controller/widget_controller.go:321-335 | the has-reference index lists exactly the scan |
| `Mappers.RefIndexIsScan` | internal/controller/widget_controller.go:289-303 | the reference index lists exactly the scan |
| `Mappers.MappersAreComplete` | internal/controller/widget_controller.go:94-97 | every Widget whose reconcile reads an object is returned for that object and for its CRD |
| `Mappers.MappersAreExact` | internal/controller/widget_controller.go:174-218 | beyond those only Widgets naming the object from another namespace are returned |
| `Naming.ValidNameShape` | pkg/dynamicwatch/builder.go:193-200 | a name is valid exactly when it is a non-empty dotless plural, a dot and a non-empty group |
| `Naming.PluralIsBeforeDot` | pkg/dynamicwatch/condition.go:78 | the plural is what comes before the first dot |
| `Naming.PascalCaseShape` | pkg/dynamicwatch/condition.go:90-112 | exactly the leading abbreviations and the character after them are capitalised |
| `Naming.PascalCaseRoundTrip` | pkg/dynamicwatch/condition.go:90-112 | lowercasing gives the word back exactly when it has no capitals, for any abbreviations in any order |
| `Naming.KnownPrefixesInAnyOrder` | pkg/dynamicwatch/condition.go:96-105 | the order in which the known abbreviations are tried does not matter |
| `Naming.ConditionTypeIdentifiesPlural` | pkg/dynamicwatch/condition.go:77-112 | derived types agree exactly when the plurals differ at most in the case of what the type capitalises; of plurals in lower case, exactly when they are equal |
| `Naming.ConditionTypeIsTypeOf` | pkg/dynamicwatch/condition.go:77-112 | the derived type, character by character: the plural with its leading abbreviations, written out, and the next character in upper case, the rest unchanged, then Available; and no other string is such a type |
| `Registries.StatusIsLifecycle` | pkg/dynamicwatch/watcher.go:349-367 | what Status reports of a started watcher is the state of the four-state machine its run leads to, under the age bound on waiters |
| `Registries.ConditionTellsTheFlags` | pkg/dynamicwatch/condition.go:17-34 | the condition of a started watcher determines its three flags, under the age bound on waiters |
| `Registries.NotStartedIsReported` | pkg/dynamicwatch/watcher.go:349-352 | NotStarted is reported exactly before Start, with whatever flags, and never as available |
| `Registries.ConditionInWords` | pkg/dynamicwatch/condition.go:17-65 | the condition has the watcher's type and reason, and the message of its state, word by word |
| `Registries.Registry.Register` | pkg/dynamicwatch/registry.go:56-67 | one watcher per CRD name, whatever the name and the watcher; a second registration changes nothing |
| `Registries.Registry.Build` | pkg/dynamicwatch/builder.go:204-315 | a watcher is built exactly for a valid name and a complete builder, with the override or the derived type, which ends in Available |
| `Registries.Registry.RegisterOn` | pkg/dynamicwatch/builder.go:325-352 | registered exactly when the name is new and valid and the builder complete; otherwise the registry is unchanged |
| `Registries.Registry.Conditions` | pkg/dynamicwatch/condition.go:39-51 | one condition for each watcher, in some order of the map |
| `Registries.Registry.ConditionTypesAreDistinct` | pkg/dynamicwatch/condition.go:39-51 | without overrides the types are pairwise distinct exactly when no two names have plurals that agree in that sense; among names in lower case, exactly when no two share a plural |
| `Obligations.SysInvKept` | pkg/dynamicwatch/watcher.go:208-553 | the invariants of the whole controller survive every step of every actor |
| `Obligations.DebtsKept` | pkg/dynamicwatch/watcher.go:462-552 | an owed requeue passes to the next stage or into the queue; no step loses it within a generation |
| `Obligations.OnlySpecsEnqueue` | internal/controller/widget_controller.go:353-355 | a new spec and a deletion enqueue the Widget; a status, whoever writes it, and its delivery do not |
| `Obligations.WriteShowsOutcome` | internal/controller/widget_controller.go:75-79 | the patch makes the status say what the half found, whatever status the reconcile had read, exactly when the reconcile is not skewed |
| `Obligations.SkewTakesStaleRead` | internal/controller/widget_controller.go:59-79 | a reconcile whose read agrees with the current condition is never skewed |
| `Calls.RunsAreProtocolRuns` | pkg/dynamicwatch/watcher.go:208-553 | what a run of the controller does to the watcher is a run of the protocol |
| `Calls.WatcherOfReachableSys` | pkg/dynamicwatch/watcher.go:208-553 | the watcher of a reachable controller is in a reachable state of the protocol, so every statement about those holds of it |
| `Calls.StagesAreTryGet` | internal/controller/widget_controller.go:94-116 | the stages of a reconcile, with all other actors in between, are one call of TryGet as its contract describes it, and the half settles on what it makes of that call's result |
| `Calls.FetchSettlesWithoutReference` | internal/controller/widget_controller.go:88-92 | without a reference nothing is called, and the half settles at once on the outcome it would have with any result |
| `EndToEnd.NoLostWakeUp` | pkg/dynamicwatch/watcher.go:532-552 | a parent last told unavailable while the watch is active is queued, or the promoting waiter owes its requeue |
| `EndToEnd.SightIsLastCall` | pkg/dynamicwatch/watcher.go:208-250 | what the other statements say a parent was last told is what its last call in the run found: active or not, a failed start in Pending or not |
| `EndToEnd.NoStaleAvailability` | pkg/dynamicwatch/watcher.go:452-475 | a parent last told available while the watch is inactive is queued, owed by the removal handler, or an invalidation found the watch active since |
| `EndToEnd.StatusTellsAvailability` | internal/controller/widget_controller.go:58-119 | at rest the status says CRD-not-available exactly when the watch is not active, if and only if the Widget is neither stranded by an invalidation nor skewed by an outdated read, or is both |
| `EndToEnd.StatusIsRightWithoutLosses` | internal/controller/widget_controller.go:58-119 | without an invalidation of an active watch it is right for a Widget with a reference exactly when that is not skewed |
| `EndToEnd.PendingAtRestOnlyAfterFailedStarts` | pkg/dynamicwatch/watcher.go:226-233 | at rest in Pending every parent's last Ensure failed to start the source |
| `EndToEnd.ListingExists` | internal/controller/widget_controller.go:200-208 | the cache of a reachable controller has a listing, each Widget once under its own key |
| `EndToEnd.MapperAnswersCompletely` | internal/controller/widget_controller.go:200-218 | in every reachable state the has-reference mapper gives requeueAll its complete answer |
| `EndToEnd.WriteIsReconcile` | internal/controller/widget_controller.go:58-82 | the system's write step patches with what one call of Reconcile makes of the Widget that was read, and is that call when nobody wrote in between |
| `Convergence.NoisyRunsAreFinite` | pkg/dynamicwatch/watcher.go:208-553 | from any state every run is bounded by a measure of the state plus seven steps for each noise |
| `Convergence.CalmRunsCanFinish` | pkg/dynamicwatch/watcher.go:208-553 | and can be continued without noise until the controller has no step left |
| `Convergence.Convergence` | pkg/dynamicwatch/watcher.go:220-247 | from any reachable state, when the controller has no step left, the watch is in NotFound if the CRD is not known or a reader invalidated the watch on the way, else in Ready if it was registered or somebody was coming to call Ensure or came on the way, else in Pending; and every parent's status says so, unless skewed |
| `Convergence.StepDecides` | pkg/dynamicwatch/watcher.go:208-553 | one step, noise included: the CRD is lost by an invalidation only, and while it is known somebody is coming afterwards exactly when somebody was before or the step brings a parent to the queue from outside |
| `Convergence.UndisturbedRunsKeepTheWatch` | pkg/dynamicwatch/watcher.go:305-317 | noise or not, no reader invalidates the watch when no removal of a failed sync is owed and no reader has found or can find the informer missing |
| `Stranding.LateInvalidationStrands` | pkg/dynamicwatch/watcher.go:306-311 | a reachable state at rest in which a Widget's status is wrong, after a late invalidation |
| `Stranding.FailedStartLeavesPending` | pkg/dynamicwatch/watcher.go:229-233 | a reachable state at rest in Pending with the CRD there and nobody coming, after a failed source start |
| `Stranding.OutdatedReadSkews` | internal/controller/widget_controller.go:59-79 | a reachable state at rest with the watch active and a status that denies it, after a reconcile that read an outdated status |
| `Twins.RunProjects` | internal/controller/widget_controller.go:58-82 | every run of the controller with both watchers, seen from either half, is a run of the one-half controller |
| `Twins.BothConditionsTell` | internal/controller/widget_controller.go:58-156 | at rest both conditions of a Widget are right together, each under the condition that StatusTellsAvailability names for its own half |
| `Twins.PluginGoesFirst` | internal/controller/widget_controller.go:68-69 | the theme half calls its watcher only after the plugin half has ended, with an error or without |
| `Twins.FailureRequeues` | internal/controller/widget_controller.go:71-79 | Reconcile answers with an error exactly when the key goes back on the queue, which it does when a half hands on an error; otherwise its status is patched in |
| `Twins.FailedGetRequeues` | internal/controller/widget_controller.go:59-62 | a failing Get puts the key back, a Widget that is gone does not |
| `TwinConvergence.BothConverge` | internal/controller/widget_controller.go:58-156 | runs of both watchers on one queue, noise included, are bounded and end at rest with each half in NotFound, Ready or Pending as above, where a requeue by the other half also brings somebody |
| `TwinConvergence.CalmMovesCanFinish` | internal/controller/widget_controller.go:58-156 | and can be continued without noise until no move is left |

## Left out

- controller-runtime and client-go: caches, informers, `source.Kind`, the manager and the work queue are an informer flag, start and sync results that may go either way, and a dirty set.
- What ends the start of a source: a source that has not created its informer may do so at any later time, even where the library would have given up.
- Two caches of Widgets that lag differently: the mappers' listing and the reads of Reconcile see the same one.
- A Widget List that fails inside a mapper drops its requests (stated by `Mappers.ObjectToWidgets`); the controller-wide claims assume that it does not.
- Real time: the sync timeout is a waiter that may fail at any step; the two halves of one Reconcile use the same clock value.
- Callers of TryGet and TryList outside Reconcile: the class has them, the controller model does not.
- The quoting rules of `%q`: messages put the reference between plain quotes.
- CRD names outside ASCII.
- Builder setters, nil panics, GVK derivation and cache creation: one flag says whether the rest of the builder is in order.
- `mergeResults`: its inputs are always zero here.
- Kubernetes events, logging, metric registration, TLS, flags and `cmd/main.go`.

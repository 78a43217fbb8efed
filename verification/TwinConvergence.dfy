/**
 Convergence of the controller with both its watchers. The halves disturb each other only by
 requests on the shared queue: every run still ends soon after the last noise, and ends well for
 both.
 */
module TwinConvergence {
  import opened Common
  import opened Protocol
  import opened ProtocolInvariants
  import opened System
  import opened Obligations
  import opened EndToEnd
  import opened Convergence
  import opened Twins
  import opened Widgets

  /** A read of the reconcile of `k` has failed for another reason than a missing object. */
  predicate HasError(t: Twin, k: Key) {
    k in t.busy && t.busy[k].Running? && (t.busy[k].plugin.Errored? || t.busy[k].theme.Errored?)
  }

  /** As in module Convergence, for both halves; errors that are already there still end their reconcile. */
  ghost predicate CalmMove(t: Twin, m: Move) {
    Allowed(t, m) &&
    match m
    case Outside(_) => false
    case AskEnsure(_, _, startOk) => startOk
    case ReadFails(_, _) => false
    case GiveUp(k) => HasError(t, k) || (BothDone(t, k) && k !in t.widgets)
    case Behind(h, a) => CalmAction(SideOf(t, h).w, a)
    case _ => true
  }

  /** What may still come from outside, and errors. */
  ghost predicate NoiseMove(t: Twin, m: Move) {
    Allowed(t, m) &&
    match m
    case Outside(step) => !step.Edit? && !step.Delete?
    case ReadFails(_, _) => true
    case GiveUp(_) => true
    case _ => false
  }

  ghost predicate NoisyMoves(t: Twin, run: seq<Move>)
    decreases |run|
  {
    run == [] || ((CalmMove(t, run[0]) || NoiseMove(t, run[0])) && NoisyMoves(Moved(t, run[0]), run[1..]))
  }

  ghost function NoiseAmong(t: Twin, run: seq<Move>): nat
    requires NoisyMoves(t, run)
    decreases |run|
  {
    if run == [] then 0 else (if CalmMove(t, run[0]) then 0 else 1) + NoiseAmong(Moved(t, run[0]), run[1..])
  }

  ghost predicate Exhausted(t: Twin) {
    forall m :: !CalmMove(t, m)
  }

  predicate EndsInError(t: Twin, m: Move) {
    m.GiveUp? && HasError(t, m.key)
  }

  /** But for such an end, a half sees a calm move as a calm step, as a request on the queue, or not at all. */
  lemma CalmMoveSeen(t: Twin, m: Move, h: Half)
    requires CalmMove(t, m) && !EndsInError(t, m) && Projects(t, m, h)
    ensures match Seen(t, m, h)
            case None => true
            case Some(Enqueue(k)) => m.Behind? && m.half != h && Added(SideOf(t, m.half).w, m.action) == Some(k)
            case Some(step) => CalmStep(View(t, h), step)
  {
  }

  // ----- the measure

  ghost function ErrorsIn(t: Twin): set<Key> {
    set k | k in t.busy && HasError(t, k)
  }

  /** The protocol work counts twice: a request that one half adds is a request for the other too. */
  ghost function Load(s: Sys): nat {
    Measure(s) + ProtocolWork(s.w, |s.widgets|)
  }

  ghost function TwinMeasure(t: Twin): nat {
    Load(View(t, Plugin)) + Load(View(t, Theme)) + 13 * |ErrorsIn(t)|
  }

  lemma NoiseLoad(s: Sys, step: Step)
    requires Noise(s, step)
    ensures Load(Stepped(s, step)) <= Load(s) + 6
  {
    NoiseIncreases(s, step);
    assert |Stepped(s, step).widgets| == |Stepped(s, step).widgets.Keys| == |s.widgets|;
  }

  /** A calm step takes off the load, and what it puts on the other half's queue besides. */
  lemma CalmStepLoad(s: Sys, step: Step)
    requires CalmStep(s, step)
    ensures Load(Stepped(s, step)) + Price(s, step) < Load(s)
  {
    CalmStepDecreases(s, step);
    CalmProtocolWork(s, step);
    assert |Stepped(s, step).widgets| == |Stepped(s, step).widgets.Keys| == |s.widgets|;
  }


  /** A calm move brings no error. */
  lemma ErrorsStay(t: Twin, m: Move)
    requires CalmMove(t, m) && !EndsInError(t, m)
    ensures |ErrorsIn(Moved(t, m))| <= |ErrorsIn(t)|
  {
    SubsetSize(ErrorsIn(Moved(t, m)), ErrorsIn(t));
  }

  /** Noise is noise to each half, or nothing. */
  lemma NoiseSeen(t: Twin, m: Move, h: Half)
    requires NoiseMove(t, m) && Projects(t, m, h)
    ensures match Seen(t, m, h) case None => m.ReadFails? case Some(step) => Noise(View(t, h), step)
    ensures Load(View(Moved(t, m), h)) <= Load(View(t, h)) + if m.ReadFails? then 0 else 6
  {
    if Seen(t, m, h).Some? {
      NoiseLoad(View(t, h), Seen(t, m, h).value);
    }
  }

  /** A reconcile that gives up counts with the noise here, even when an error from before makes it. */
  lemma NoiseMoveIncreases(t: Twin, m: Move)
    requires TwinInv(t) && NoiseMove(t, m)
    ensures TwinMeasure(Moved(t, m)) <= TwinMeasure(t) + 13
    ensures EndsInError(t, m) ==> TwinMeasure(Moved(t, m)) < TwinMeasure(t)
  {
    MoveProjects(t, m, Plugin);
    MoveProjects(t, m, Theme);
    NoiseSeen(t, m, Plugin);
    NoiseSeen(t, m, Theme);
    ErrorsAfterNoise(t, m);
  }

  lemma ErrorsAfterNoise(t: Twin, m: Move)
    requires NoiseMove(t, m)
    ensures |ErrorsIn(Moved(t, m))| <= |ErrorsIn(t)| + if m.ReadFails? then 1 else 0
    ensures EndsInError(t, m) ==> |ErrorsIn(Moved(t, m))| + 1 <= |ErrorsIn(t)|
  {
    var u := Moved(t, m);
    if EndsInError(t, m) {
      SubsetSize(ErrorsIn(u), ErrorsIn(t) - {m.key});
    } else if m.ReadFails? {
      SubsetSize(ErrorsIn(u), ErrorsIn(t) + {m.key});
    } else {
      SubsetSize(ErrorsIn(u), ErrorsIn(t));
    }
  }

  /** What the halves see of a move: its own half a step, and the other half, if that adds a request, the request. */
  lemma SeenByBoth(t: Twin, m: Move, h: Half)
    requires CalmMove(t, m)
    ensures m.Behind? && m.half == h ==> Seen(t, m, h) == Some(Background(m.action))
    ensures m.Behind? && m.half != h ==>
              Seen(t, m, h) ==
              match Added(SideOf(t, m.half).w, m.action) case None => None case Some(k) => Some(Enqueue(k))
    ensures !m.Behind? ==> (Seen(t, m, h).Some? ==> !Seen(t, m, h).value.Enqueue?)
    ensures !m.Behind? && (HalfMove(m) ==> m.half == h) ==> Seen(t, m, h).Some?
  {
  }

  /** What a move puts on the queue of the half whose move it is not. */
  function Surcharge(t: Twin, m: Move): nat {
    if m.Behind? && Enabled(SideOf(t, m.half).w, m.action) && Added(SideOf(t, m.half).w, m.action).Some? then 6 else 0
  }

  /** The half whose move it is, or either half when it is both's. */
  lemma OwnLoad(t: Twin, m: Move, h: Half)
    requires CalmMove(t, m) && !EndsInError(t, m) && Projects(t, m, h)
    requires HalfMove(m) || m.Behind? ==> m.half == h
    ensures Load(View(Moved(t, m), h)) + Surcharge(t, m) < Load(View(t, h))
  {
    CalmMoveSeen(t, m, h);
    SeenByBoth(t, m, h);
    CalmStepLoad(View(t, h), Seen(t, m, h).value);
  }

  lemma OtherLoad(t: Twin, m: Move, h: Half)
    requires CalmMove(t, m) && !EndsInError(t, m) && Projects(t, m, h)
    requires HalfMove(m) || m.Behind? ==> m.half != h
    ensures Load(View(Moved(t, m), h)) <= Load(View(t, h)) + Surcharge(t, m)
  {
    CalmMoveSeen(t, m, h);
    SeenByBoth(t, m, h);
    match Seen(t, m, h)
    case None =>
    case Some(Enqueue(k)) => NoiseLoad(View(t, h), Enqueue(k));
    case Some(step) => CalmStepLoad(View(t, h), step);
  }

  lemma CalmMoveLoads(t: Twin, m: Move, own: Half)
    requires CalmMove(t, m) && !EndsInError(t, m) && Projects(t, m, own) && Projects(t, m, OtherHalf(own))
    requires HalfMove(m) || m.Behind? ==> m.half == own
    ensures Load(View(Moved(t, m), own)) + Load(View(Moved(t, m), OtherHalf(own))) <
            Load(View(t, own)) + Load(View(t, OtherHalf(own)))
  {
    OwnLoad(t, m, own);
    OtherLoad(t, m, OtherHalf(own));
  }

  lemma CalmMoveDecreases(t: Twin, m: Move)
    requires TwinInv(t) && CalmMove(t, m)
    ensures TwinMeasure(Moved(t, m)) < TwinMeasure(t)
  {
    if EndsInError(t, m) {
      NoiseMoveIncreases(t, m);
    } else {
      ErrorsStay(t, m);
      MoveProjects(t, m, Plugin);
      MoveProjects(t, m, Theme);
      var own := if HalfMove(m) || m.Behind? then m.half else Plugin;
      CalmMoveLoads(t, m, own);
    }
  }

  lemma {:induction false} NoisyMovesAreFinite(t: Twin, run: seq<Move>)
    requires TwinInv(t) && NoisyMoves(t, run)
    ensures |run| <= TwinMeasure(t) + 14 * NoiseAmong(t, run)
    decreases |run|
  {
    if run != [] {
      if CalmMove(t, run[0]) {
        CalmMoveDecreases(t, run[0]);
      } else {
        NoiseMoveIncreases(t, run[0]);
      }
      TwinInvKept(t, run[0]);
      NoisyMovesAreFinite(Moved(t, run[0]), run[1..]);
    }
  }

  lemma {:induction false} CalmMovesCanFinish(t: Twin) returns (run: seq<Move>)
    requires TwinInv(t)
    ensures NoisyMoves(t, run) && NoiseAmong(t, run) == 0 && AllowedRun(t, run) && Exhausted(MovedRun(t, run))
    decreases TwinMeasure(t)
  {
    if m :| CalmMove(t, m) {
      CalmMoveDecreases(t, m);
      TwinInvKept(t, m);
      var rest := CalmMovesCanFinish(Moved(t, m));
      run := [m] + rest;
      assert run[1..] == rest;
    } else {
      run := [];
    }
  }

  // ----- where the runs end

  /** While a reconcile is in progress, some move of it is possible. */
  lemma ReconcileCanMove(t: Twin, k: Key)
    requires k in t.busy
    ensures exists m :: CalmMove(t, m)
  {
    if t.busy[k].Fresh? {
      assert CalmMove(t, Get(k));
    } else if !Ended(t.busy[k].plugin) {
      HalfCanMove(t, Plugin, k);
    } else if !Ended(t.busy[k].theme) {
      HalfCanMove(t, Theme, k);
    } else if HasError(t, k) || k !in t.widgets {
      assert CalmMove(t, GiveUp(k));
    } else {
      assert CalmMove(t, Patch(k, 0));
    }
  }

  lemma HalfCanMove(t: Twin, h: Half, k: Key)
    requires k in t.busy && t.busy[k].Running? && At(t, h, k, PartOf(t.busy[k], h)) && !Ended(PartOf(t.busy[k], h))
    ensures exists m :: CalmMove(t, m)
  {
    match PartOf(t.busy[k], h)
    case ToEnsure => assert CalmMove(t, AskEnsure(h, k, true));
    case ToRead => assert CalmMove(t, Read(h, k, None));
    case ToInvalidate => assert CalmMove(t, Reset(h, k));
  }

  lemma ExhaustedMeansAtRest(t: Twin)
    requires TwinInv(t) && Exhausted(t)
    ensures AtRest(t) && Idling(t.plugin.w) && Idling(t.theme.w)
  {
    if k :| k in t.busy {
      ReconcileCanMove(t, k);
    }
    if k :| k in t.queue {
      assert CalmMove(t, Take(k));
    }
    forall h: Half ensures Idling(SideOf(t, h).w) {
      forall a ensures !CalmStep(View(t, h), Background(a)) {
        assert !CalmMove(t, Behind(h, a));
      }
      BackgroundExhausted(View(t, h));
    }
    assert Idling(SideOf(t, Plugin).w) && Idling(SideOf(t, Theme).w);
  }

  /** A reader of half `h` found the informer missing and invalidates the watch. */
  predicate Resets(run: seq<Move>, h: Half) {
    run != [] && ((run[0].Reset? && run[0].half == h) || Resets(run[1..], h))
  }

  /** The move brings a parent of half `h` to the queue: an event, an error, or a requeue by the other half. */
  ghost predicate Rescues(t: Twin, m: Move, h: Half) {
    match Seen(t, m, h)
    case None => false
    case Some(step) => Brings(View(t, h), step)
  }

  ghost predicate Rescued(t: Twin, run: seq<Move>, h: Half)
    requires AllowedRun(t, run)
    decreases |run|
  {
    run != [] && (Rescues(t, run[0], h) || Rescued(Moved(t, run[0]), run[1..], h))
  }

  /** What half `h` sees is a step of which StepDecides speaks. */
  lemma MoveSeen(t: Twin, m: Move, h: Half)
    requires (CalmMove(t, m) || NoiseMove(t, m)) && Projects(t, m, h)
    ensures match Seen(t, m, h)
            case None => true
            case Some(step) => CalmStep(View(t, h), step) || Noise(View(t, h), step)
    ensures (Seen(t, m, h).Some? && Seen(t, m, h).value.CallInvalidate?) <==> m.Reset? && m.half == h
  {
    if !NoiseMove(t, m) {
      CalmMoveSeen(t, m, h);
    }
  }

  /** What a move decides for half `h`. */
  lemma MoveDecides(t: Twin, m: Move, h: Half)
    requires (CalmMove(t, m) || NoiseMove(t, m)) && Projects(t, m, h) && SysInv(View(t, h))
    ensures var s, u := View(t, h), View(Moved(t, m), h);
            && (u.w.crdExists <==> s.w.crdExists && !(m.Reset? && m.half == h))
            && (u.w.crdExists ==> (Coming(u) <==> Coming(s) || Rescues(t, m, h)))
            && (forall k :: IsParent(u, k) <==> IsParent(s, k))
  {
    MoveSeen(t, m, h);
    if Seen(t, m, h).Some? {
      StepDecides(View(t, h), Seen(t, m, h).value);
    }
  }

  lemma {:induction false} NoisyMovesAreMoves(t: Twin, run: seq<Move>)
    requires NoisyMoves(t, run)
    ensures AllowedRun(t, run)
    decreases |run|
  {
    if run != [] {
      NoisyMovesAreMoves(Moved(t, run[0]), run[1..]);
    }
  }

  lemma {:induction false} TwinFate(t: Twin, run: seq<Move>, h: Half)
    requires TwinInv(t) && NoisyMoves(t, run) && AllowedRun(t, run)
    ensures TwinInv(MovedRun(t, run))
    ensures var s, u := View(t, h), View(MovedRun(t, run), h);
            && (u.w.crdExists <==> s.w.crdExists && !Resets(run, h))
            && (u.w.crdExists ==> (Coming(u) <==> Coming(s) || Rescued(t, run, h)))
            && (forall k :: IsParent(u, k) <==> IsParent(s, k))
    decreases |run|
  {
    if run != [] {
      TwinInvKept(t, run[0]);
      MoveProjects(t, run[0], h);
      assert SysInv(View(t, h));
      MoveDecides(t, run[0], h);
      TwinFate(Moved(t, run[0]), run[1..], h);
    }
  }

  /** What becomes of half `h` along a run. */
  ghost function FateOf(t: Twin, run: seq<Move>, h: Half): Lifecycle
    requires AllowedRun(t, run)
  {
    if !SideOf(t, h).w.crdExists || Resets(run, h) then Lifecycle.NotFound
    else if Coming(View(t, h)) || Rescued(t, run, h) then Ready
    else Pending
  }

  /** At the end of the run half `h` has met its fate, and every parent knows it. */
  ghost predicate EndsWell(t: Twin, run: seq<Move>, h: Half)
    requires AllowedRun(t, run)
  {
    var u := MovedRun(t, run);
    && LifecycleOf(SideOf(u, h).w) == FateOf(t, run, h)
    && forall k :: IsParent(View(t, h), k) ==> IsParent(View(u, h), k) && KnowsFate(View(u, h), k)
  }

  lemma HalfEnds(t: Twin, run: seq<Move>, h: Half)
    requires TwinInv(t) && NoisyMoves(t, run) && AllowedRun(t, run)
    requires Quiescent(View(MovedRun(t, run), h)) && Idling(SideOf(MovedRun(t, run), h).w)
    ensures EndsWell(t, run, h)
  {
    var u := MovedRun(t, run);
    TwinFate(t, run, h);
    assert SysInv(View(u, h));
    RestTellsFate(View(u, h));
    assert forall k :: IsParent(View(t, h), k) ==> IsParent(View(u, h), k);
  }

  /**
   From any reachable state every run of the controller with both watchers is bounded by the work at
   its beginning and the noise on its way; and whenever the controller has no step of its own left
   it is at rest, each half in the state that the beginning and the run decide: NotFound when its
   CRD was not known or a reader invalidated its watch, else Ready when somebody was coming to it,
   or an event, an error or the other half brought somebody, else Pending. Every parent of either
   half knows.
   */
  lemma BothConverge(t: Twin, run: seq<Move>)
    requires ReachableTwin(t) && NoisyMoves(t, run)
    ensures |run| <= TwinMeasure(t) + 14 * NoiseAmong(t, run) && AllowedRun(t, run)
    ensures var u := MovedRun(t, run);
            Exhausted(u) ==> AtRest(u) && EndsWell(t, run, Plugin) && EndsWell(t, run, Theme)
  {
    HalvesAreReachable(t, Plugin);
    NoisyMovesAreFinite(t, run);
    NoisyMovesAreMoves(t, run);
    TwinFate(t, run, Plugin);
    var u := MovedRun(t, run);
    if Exhausted(u) {
      ExhaustedMeansAtRest(u);
      HalfEnds(t, run, Plugin);
      HalfEnds(t, run, Theme);
    }
  }
}

/** The registry: one watcher for each CRD name, and one condition for each watcher. */
module Registries {
  import opened Naming
  import W = Watchers
  import Protocol
  import Invariants = ProtocolInvariants
  import Generation

  datatype WatchCondition = WatchCondition(kind: string, status: bool, reason: W.Reason, message: string)

  function ConditionMessage(crdName: string, reason: W.Reason): string {
    match reason
    case CRDNotFound => "CRD " + crdName + " is not installed"
    case Syncing => "Watch for " + crdName + " is syncing"
    case Pending => "Watch for " + crdName + " is pending registration"
    case NotStarted => "Watcher for " + crdName + " has not started"
    case Ready => "Watch for " + crdName + " is in state Ready"
  }

  function ConditionOf(w: W.Watcher): WatchCondition
    reads w
  {
    var s := w.Status();
    if s.available then WatchCondition(w.conditionType, true, s.reason, "Watch for " + w.crdName + " is active")
    else WatchCondition(w.conditionType, false, s.reason, ConditionMessage(w.crdName, s.reason))
  }

  /**
   The condition of a started watcher tells the state of its three flags: True means all of
   them hold, and the reason tells the other states apart. It holds of the 64-bit watcher after
   any run in which no undecided waiter gets too old.
   */
  lemma ConditionTellsTheFlags(w: W.Watcher, run: seq<Protocol.Action>)
    requires w.started && Generation.YoungRun(Protocol.Init(0), run)
    requires Protocol.Valid(Protocol.Init(Generation.WORD), run)
    requires w.View() == Protocol.Exec(Protocol.Init(Generation.WORD), run)
    ensures ConditionOf(w).status <==> w.active
    ensures (w.crdExists, w.watching, w.active) ==
            match ConditionOf(w).reason
            case Ready => (true, true, true)
            case Syncing => (true, true, false)
            case Pending => (true, false, false)
            case CRDNotFound => (false, false, false)
            case NotStarted => (false, false, true)
  {
    Generation.MachineRefinesIdeal(run);
    assert Invariants.FlagsInv(w.View());
  }

  /** Before Start has returned the watcher says so and nothing else, whatever its flags are. */
  lemma NotStartedIsReported(w: W.Watcher)
    ensures w.Status().reason == W.NotStarted <==> !w.started
    ensures !w.started ==> !w.Status().available && !ConditionOf(w).status
    ensures w.Status().available <==> w.Status().reason == W.Reason.Ready
  {
  }

  /** The words of the condition, state by state. */
  lemma ConditionInWords(w: W.Watcher)
    ensures var c := ConditionOf(w);
            && c.kind == w.conditionType && c.reason == w.Status().reason
            && c.message ==
               if !w.started then "Watcher for " + w.crdName + " has not started"
               else if w.active then "Watch for " + w.crdName + " is active"
               else if !w.crdExists then "CRD " + w.crdName + " is not installed"
               else if w.watching then "Watch for " + w.crdName + " is syncing"
               else "Watch for " + w.crdName + " is pending registration"
  {
  }

  function ReasonIn(l: Invariants.Lifecycle): W.Reason {
    match l
    case NotFound => W.CRDNotFound
    case Pending => W.Reason.Pending
    case Syncing => W.Reason.Syncing
    case Ready => W.Reason.Ready
  }

  /**
   What Status reports of a started watcher is the state of the four-state machine, and after any
   run in which no undecided waiter gets too old that is the state the ideal watcher is in.
   */
  lemma StatusIsLifecycle(w: W.Watcher, run: seq<Protocol.Action>)
    requires w.started && Generation.YoungRun(Protocol.Init(0), run)
    requires Protocol.Valid(Protocol.Init(Generation.WORD), run)
    requires w.View() == Protocol.Exec(Protocol.Init(Generation.WORD), run)
    ensures Protocol.Valid(Protocol.Init(0), run)
    ensures var l := Invariants.LifecycleOf(Protocol.Exec(Protocol.Init(0), run));
            && w.Status() == W.WatcherStatus(l.Ready?, ReasonIn(l))
            && (w.crdExists, w.watching, w.active) == Invariants.FlagsOf(l)
  {
    Generation.MachineRefinesIdeal(run);
    var s := Protocol.Exec(Protocol.Init(0), run);
    assert Protocol.Reachable(s);
    Invariants.FourStates(s);
  }

  predicate Distinct(names: seq<string>) {
    forall i, j :: 0 <= i < j < |names| ==> names[i] != names[j]
  }

  class Registry {
    var watchers: map<string, W.Watcher>

    constructor ()
      ensures watchers == map[]
    {
      watchers := map[];
    }

    /** Every watcher is stored under its own, valid, CRD name. */
    ghost predicate Valid()
      reads this
    {
      forall name :: name in watchers ==> watchers[name].crdName == name && ValidCRDName(name)
    }

    predicate Has(crdName: string)
      reads this
    {
      crdName in watchers
    }

    method Register(crdName: string, w: W.Watcher) returns (ok: bool)
      modifies this
      ensures ok == (crdName !in old(watchers))
      ensures watchers == if ok then old(watchers)[crdName := w] else old(watchers)
      ensures old(Valid()) && (ok ==> w.crdName == crdName && ValidCRDName(crdName)) ==> Valid()
    {
      if crdName in watchers {
        return false;
      }
      watchers := watchers[crdName := w];
      return true;
    }

    /** Build, as far as the name and the condition type go; `complete` says the rest of the builder is in order. */
    method Build(crdName: string, override_: string, complete: bool) returns (w: W.Watcher?)
      ensures w != null <==> ValidCRDName(crdName) && complete
      ensures w != null ==> fresh(w) && w.crdName == crdName && !w.started
                            && w.conditionType == if override_ == "" then ConditionType(crdName) else override_
      ensures w != null && override_ == "" ==> IsTypeOf(w.conditionType, Plural(crdName))
    {
      ConditionTypeIsTypeOf(crdName);
      if !ValidCRDName(crdName) {
        return null;
      }
      if !complete {
        return null;
      }
      var conditionType := override_;
      if conditionType == "" {
        conditionType := ConditionType(crdName);
      }
      w := new W.Watcher(crdName, conditionType);
    }

    /** A second registration of a name is refused before anything is built, and a failed one changes nothing. */
    method RegisterOn(crdName: string, override_: string, complete: bool) returns (w: W.Watcher?)
      requires Valid()
      modifies this
      ensures Valid()
      ensures w != null <==> crdName !in old(watchers) && ValidCRDName(crdName) && complete
      ensures w == null ==> watchers == old(watchers)
      ensures w != null ==> watchers == old(watchers)[crdName := w] && w.crdName == crdName && fresh(w)
                            && w.conditionType == if override_ == "" then ConditionType(crdName) else override_
      ensures w != null && override_ == "" ==> IsTypeOf(w.conditionType, Plural(crdName))
    {
      if Has(crdName) {
        return null;
      }
      w := Build(crdName, override_, complete);
      if w == null {
        return null;
      }
      var ok := Register(crdName, w);
    }

    /** `conditions` holds the condition of each watcher once, in the order `order` of their names. */
    ghost predicate InOrder(order: seq<string>, conditions: seq<WatchCondition>)
      reads this, watchers.Values
    {
      && Distinct(order) && (forall name :: name in order <==> name in watchers)
      && |conditions| == |order|
      && (forall i :: 0 <= i < |order| ==> conditions[i] == ConditionOf(watchers[order[i]]))
    }

    /** One condition for each watcher, in the arbitrary order in which a map is ranged over. */
    method Conditions() returns (conditions: seq<WatchCondition>)
      requires Valid()
      ensures exists order :: InOrder(order, conditions)
    {
      conditions := [];
      ghost var order: seq<string> := [];
      var rest := watchers.Keys;
      while rest != {}
        invariant rest <= watchers.Keys
        invariant Distinct(order) && (forall name :: name in order <==> name in watchers && name !in rest)
        invariant |conditions| == |order|
        invariant forall i :: 0 <= i < |order| ==> conditions[i] == ConditionOf(watchers[order[i]])
        decreases |rest|
      {
        var name :| name in rest;
        conditions := conditions + [ConditionOf(watchers[name])];
        order := order + [name];
        rest := rest - {name};
      }
      assert InOrder(order, conditions);
    }

    /** No watcher of the registry has an overridden condition type. */
    ghost predicate AllDerived()
      reads this
    {
      forall name :: name in watchers ==> watchers[name].conditionType == ConditionType(name)
    }

    /**
     Without overrides the types of the returned conditions are pairwise distinct exactly when no
     two of the CRD names have plurals that are the same up to the case of what the type puts in
     upper case; among names in lower case, exactly when no two share a plural.
     */
    lemma ConditionTypesAreDistinct(order: seq<string>)
      requires AllDerived() && Distinct(order) && forall name :: name in order <==> name in watchers
      ensures (forall i, j :: 0 <= i < j < |order| ==>
                 ConditionOf(watchers[order[i]]).kind != ConditionOf(watchers[order[j]]).kind) <==>
              (forall a, b :: a in watchers && b in watchers && a != b ==> !SameInType(Plural(a), Plural(b)))
      ensures (forall name :: name in watchers ==> NoCapitals(name)) ==>
                ((forall a, b :: a in watchers && b in watchers && a != b ==> !SameInType(Plural(a), Plural(b))) <==>
                 (forall a, b :: a in watchers && b in watchers && a != b ==> Plural(a) != Plural(b)))
    {
      if forall name :: name in watchers ==> NoCapitals(name) {
        forall a, b | a in watchers && b in watchers
          ensures SameInType(Plural(a), Plural(b)) <==> Plural(a) == Plural(b)
        {
          CutKeepsCase(a);
          CutKeepsCase(b);
          ConditionTypeIdentifiesPlural(a, b);
        }
      }
      forall i | 0 <= i < |order| ensures ConditionOf(watchers[order[i]]).kind == ConditionType(order[i]) {
        assert order[i] in watchers;
      }
      DistinctTypes(order);
      PluralsOfOrder(order, watchers.Keys);
    }
  }

  lemma CutKeepsCase(name: string)
    requires NoCapitals(name)
    ensures NoCapitals(Plural(name))
  {
    CutAtDot(name);
  }

  /** Types derived from distinct names are distinct exactly when no two plurals are the same in the type. */
  lemma DistinctTypes(names: seq<string>)
    requires Distinct(names)
    ensures (forall i, j :: 0 <= i < j < |names| ==> ConditionType(names[i]) != ConditionType(names[j])) <==>
            (forall i, j :: 0 <= i < j < |names| ==> !SameInType(Plural(names[i]), Plural(names[j])))
  {
    forall i, j | 0 <= i < j < |names|
      ensures ConditionType(names[i]) == ConditionType(names[j]) <==> SameInType(Plural(names[i]), Plural(names[j]))
    {
      ConditionTypeIdentifiesPlural(names[i], names[j]);
    }
  }

  lemma PluralsOfOrder(order: seq<string>, names: set<string>)
    requires Distinct(order) && forall name :: name in order <==> name in names
    ensures (forall i, j :: 0 <= i < j < |order| ==> !SameInType(Plural(order[i]), Plural(order[j]))) <==>
            (forall a, b :: a in names && b in names && a != b ==> !SameInType(Plural(a), Plural(b)))
  {
    if forall i, j :: 0 <= i < j < |order| ==> !SameInType(Plural(order[i]), Plural(order[j])) {
      forall a, b | a in names && b in names && a != b ensures !SameInType(Plural(a), Plural(b)) {
        assert a in order && b in order;
        var i :| 0 <= i < |order| && order[i] == a;
        var j :| 0 <= j < |order| && order[j] == b;
        assert i < j || j < i;
      }
    }
    if forall a, b :: a in names && b in names && a != b ==> !SameInType(Plural(a), Plural(b)) {
      forall i, j | 0 <= i < j < |order| ensures !SameInType(Plural(order[i]), Plural(order[j])) {
        assert order[i] in names && order[j] in names;
      }
    }
  }
}

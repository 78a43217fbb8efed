/**
 Any number of watchers on one shared CRD event stream. Each watcher consumes the stream at its
 own pace, and its name predicate drops the events of other CRDs before they reach onCRDChange.
 The watchers share nothing else: each has a private object cache.
 */
module Fleet {
  import opened Crds
  import opened Protocol

  /** One watcher of the fleet, and how much of the shared stream it has consumed. */
  datatype Member = Member(cursor: nat, state: State)

  datatype Fleet = Fleet(stream: seq<Crd>, members: map<string, Member>)

  datatype Move =
    | Publish(crd: Crd)                       // the CRD informer sees a change
    | Consume(name: string)                   // this watcher takes its next event off the stream
    | Act(name: string, action: Action)       // anything else happens to this watcher

  predicate CanMove(f: Fleet, m: Move) {
    match m
    case Publish(_) => true
    case Consume(name) =>
      && name in f.members
      && f.members[name].cursor < |f.stream|
      && (Matches(name, f.stream[f.members[name].cursor]) ==> f.members[name].state.tail.Idle?)
    case Act(name, a) => name in f.members && !a.CrdEvent? && Enabled(f.members[name].state, a)
  }

  function Moved(f: Fleet, m: Move): Fleet
    requires CanMove(f, m)
  {
    match m
    case Publish(crd) => f.(stream := f.stream + [crd])
    case Consume(name) =>
      var mem := f.members[name];
      var crd := f.stream[mem.cursor];
      f.(members := f.members[name := Member(
           mem.cursor + 1,
           if Matches(name, crd) then Apply(mem.state, CrdEvent(crd)) else mem.state)])
    case Act(name, a) =>
      f.(members := f.members[name := f.members[name].(state := Apply(f.members[name].state, a))])
  }

  function Launch(names: set<string>): Fleet {
    Fleet([], map name | name in names :: Member(0, Init(0)))
  }

  predicate Playable(f: Fleet, moves: seq<Move>)
    decreases |moves|
  {
    moves == [] || (CanMove(f, moves[0]) && Playable(Moved(f, moves[0]), moves[1..]))
  }

  function Play(f: Fleet, moves: seq<Move>): Fleet
    requires Playable(f, moves)
    decreases |moves|
  {
    if moves == [] then f else Play(Moved(f, moves[0]), moves[1..])
  }

  // ----- one watcher alone

  /** A watcher alone on a stream that holds nothing but events of its own CRD. */
  datatype Solo = Solo(stream: seq<Crd>, cursor: nat, state: State)

  datatype SoloMove = Arrive(crd: Crd) | Take | Step(action: Action)

  predicate SoloCan(s: Solo, m: SoloMove) {
    match m
    case Arrive(_) => true
    case Take => s.cursor < |s.stream| && s.state.tail.Idle?
    case Step(a) => !a.CrdEvent? && Enabled(s.state, a)
  }

  function SoloMoved(s: Solo, m: SoloMove): Solo
    requires SoloCan(s, m)
  {
    match m
    case Arrive(crd) => s.(stream := s.stream + [crd])
    case Take => s.(cursor := s.cursor + 1, state := Apply(s.state, CrdEvent(s.stream[s.cursor])))
    case Step(a) => s.(state := Apply(s.state, a))
  }

  predicate SoloPlayable(s: Solo, moves: seq<SoloMove>)
    decreases |moves|
  {
    moves == [] || (SoloCan(s, moves[0]) && SoloPlayable(SoloMoved(s, moves[0]), moves[1..]))
  }

  function SoloPlay(s: Solo, moves: seq<SoloMove>): Solo
    requires SoloPlayable(s, moves)
    decreases |moves|
  {
    if moves == [] then s else SoloPlay(SoloMoved(s, moves[0]), moves[1..])
  }

  // ----- the view one watcher has of the fleet

  /** The entries of the stream that bear this name, in stream order. */
  function Own(name: string, stream: seq<Crd>): seq<Crd> {
    if stream == [] then []
    else Own(name, stream[..|stream| - 1]) + if stream[|stream| - 1].name == name then [stream[|stream| - 1]] else []
  }

  predicate CursorsInRange(f: Fleet) {
    forall name :: name in f.members ==> f.members[name].cursor <= |f.stream|
  }

  function ViewOf(name: string, f: Fleet): Solo
    requires name in f.members && CursorsInRange(f)
  {
    Solo(Own(name, f.stream), |Own(name, f.stream[..f.members[name].cursor])|, f.members[name].state)
  }

  /** What a move of the fleet is in that view: at most one move of the watcher alone. */
  function ProjectMove(name: string, f: Fleet, m: Move): seq<SoloMove>
    requires CanMove(f, m)
  {
    match m
    case Publish(crd) => if crd.name == name then [Arrive(crd)] else []
    case Consume(n) => if n == name && f.stream[f.members[n].cursor].name == name then [Take] else []
    case Act(n, a) => if n == name then [Step(a)] else []
  }

  function Project(name: string, f: Fleet, moves: seq<Move>): seq<SoloMove>
    requires Playable(f, moves)
    decreases |moves|
  {
    if moves == [] then []
    else ProjectMove(name, f, moves[0]) + Project(name, Moved(f, moves[0]), moves[1..])
  }

  lemma OwnAppend(name: string, stream: seq<Crd>, crd: Crd)
    ensures Own(name, stream + [crd]) == Own(name, stream) + if crd.name == name then [crd] else []
  {
    assert (stream + [crd])[..|stream|] == stream;
  }

  /** The own events of a longer prefix extend those of a shorter one. */
  lemma {:induction false} OwnOfPrefix(name: string, stream: seq<Crd>, n: nat)
    requires n <= |stream|
    ensures |Own(name, stream[..n])| <= |Own(name, stream)|
    ensures Own(name, stream[..n]) == Own(name, stream)[..|Own(name, stream[..n])|]
    decreases |stream|
  {
    if n == |stream| {
      assert stream[..n] == stream;
    } else {
      var init := stream[..|stream| - 1];
      OwnOfPrefix(name, init, n);
      assert init[..n] == stream[..n];
    }
  }

  /** Taking the event at the cursor off the shared stream takes the event at the own cursor. */
  lemma OwnAtCursor(name: string, stream: seq<Crd>, n: nat)
    requires n < |stream|
    ensures var k := |Own(name, stream[..n])|;
            if stream[n].name == name
            then k < |Own(name, stream)| && Own(name, stream)[k] == stream[n] && |Own(name, stream[..n + 1])| == k + 1
            else |Own(name, stream[..n + 1])| == k
  {
    assert stream[..n + 1] == stream[..n] + [stream[n]];
    OwnAppend(name, stream[..n], stream[n]);
    OwnOfPrefix(name, stream, n + 1);
  }

  lemma MoveProjects(name: string, f: Fleet, m: Move)
    requires name in f.members && CursorsInRange(f) && CanMove(f, m)
    ensures name in Moved(f, m).members && CursorsInRange(Moved(f, m))
    ensures var p := ProjectMove(name, f, m);
            if p == [] then ViewOf(name, Moved(f, m)) == ViewOf(name, f)
            else SoloCan(ViewOf(name, f), p[0]) && ViewOf(name, Moved(f, m)) == SoloMoved(ViewOf(name, f), p[0])
  {
    match m
    case Publish(crd) =>
      OwnAppend(name, f.stream, crd);
      assert (f.stream + [crd])[..f.members[name].cursor] == f.stream[..f.members[name].cursor];
    case Consume(n) =>
      OwnAtCursor(name, f.stream, f.members[n].cursor);
    case Act(n, a) =>
  }

  /** Every play of the fleet, seen from one watcher, is a play of that watcher alone on its own events. */
  lemma {:induction false} FleetProjects(name: string, f: Fleet, moves: seq<Move>)
    requires name in f.members && CursorsInRange(f) && Playable(f, moves)
    ensures name in Play(f, moves).members && CursorsInRange(Play(f, moves))
    ensures SoloPlayable(ViewOf(name, f), Project(name, f, moves))
    ensures SoloPlay(ViewOf(name, f), Project(name, f, moves)) == ViewOf(name, Play(f, moves))
    decreases |moves|
  {
    if moves != [] {
      MoveProjects(name, f, moves[0]);
      FleetProjects(name, Moved(f, moves[0]), moves[1..]);
      var p, rest := ProjectMove(name, f, moves[0]), Project(name, Moved(f, moves[0]), moves[1..]);
      if p == [] {
        assert p + rest == rest;
      } else {
        assert (p + rest)[0] == p[0] && (p + rest)[1..] == rest;
      }
    }
  }

  // ----- and every play of one watcher alone occurs

  function LiftMove(name: string, m: SoloMove): Move {
    match m
    case Arrive(crd) => Publish(crd)
    case Take => Consume(name)
    case Step(a) => Act(name, a)
  }

  function Lift(name: string, moves: seq<SoloMove>): seq<Move> {
    if moves == [] then [] else [LiftMove(name, moves[0])] + Lift(name, moves[1..])
  }

  /** The stream a watcher is alone on carries nothing but its own CRD. */
  predicate OwnArrivals(name: string, moves: seq<SoloMove>) {
    forall m :: m in moves && m.Arrive? ==> m.crd.name == name
  }

  predicate OwnStream(name: string, f: Fleet) {
    forall crd :: crd in f.stream ==> crd.name == name
  }

  lemma {:induction false} OwnOfOwn(name: string, stream: seq<Crd>)
    requires forall crd :: crd in stream ==> crd.name == name
    ensures Own(name, stream) == stream
  {
    if stream != [] {
      var init := stream[..|stream| - 1];
      assert stream == init + [stream[|stream| - 1]];
      OwnOfOwn(name, init);
    }
  }

  lemma MoveLifts(name: string, f: Fleet, m: SoloMove)
    requires name in f.members && CursorsInRange(f) && OwnStream(name, f)
    requires SoloCan(ViewOf(name, f), m) && (m.Arrive? ==> m.crd.name == name)
    ensures CanMove(f, LiftMove(name, m)) && ProjectMove(name, f, LiftMove(name, m)) == [m]
    ensures OwnStream(name, Moved(f, LiftMove(name, m)))
  {
    OwnOfOwn(name, f.stream);
    OwnOfOwn(name, f.stream[..f.members[name].cursor]);
  }

  lemma {:induction false} SoloLifts(name: string, f: Fleet, moves: seq<SoloMove>)
    requires name in f.members && CursorsInRange(f) && OwnStream(name, f) && OwnArrivals(name, moves)
    requires SoloPlayable(ViewOf(name, f), moves)
    ensures Playable(f, Lift(name, moves)) && Project(name, f, Lift(name, moves)) == moves
    decreases |moves|
  {
    if moves != [] {
      var m := LiftMove(name, moves[0]);
      assert moves[0] in moves;
      MoveLifts(name, f, moves[0]);
      MoveProjects(name, f, m);
      assert OwnArrivals(name, moves[1..]) by {
        forall x | x in moves[1..] && x.Arrive? ensures x.crd.name == name {
          assert x in moves;
        }
      }
      SoloLifts(name, Moved(f, m), moves[1..]);
      assert Lift(name, moves)[1..] == Lift(name, moves[1..]);
      assert [moves[0]] + moves[1..] == moves;
    }
  }

  /**
   The views one watcher has of the plays of the fleet are exactly its plays alone on events of
   its own CRD: nothing the other watchers or other CRDs do shows, and nothing is prevented.
   */
  lemma IsolationByProjection(names: set<string>, name: string, solo: seq<SoloMove>)
    requires name in names
    ensures (SoloPlayable(Solo([], 0, Init(0)), solo) && forall m :: m in solo && m.Arrive? ==> m.crd.name == name) <==>
            exists moves :: Playable(Launch(names), moves) && Project(name, Launch(names), moves) == solo
  {
    var f := Launch(names);
    assert ViewOf(name, f) == Solo([], 0, Init(0));
    assert OwnArrivals(name, solo) <==> forall m :: m in solo && m.Arrive? ==> m.crd.name == name;
    if SoloPlayable(Solo([], 0, Init(0)), solo) && OwnArrivals(name, solo) {
      SoloLifts(name, f, solo);
    }
    if moves :| Playable(f, moves) && Project(name, f, moves) == solo {
      FleetProjects(name, f, moves);
      ProjectionsAreOwn(name, f, moves);
    }
  }

  lemma {:induction false} ProjectionsAreOwn(name: string, f: Fleet, moves: seq<Move>)
    requires Playable(f, moves)
    ensures OwnArrivals(name, Project(name, f, moves))
    decreases |moves|
  {
    if moves != [] {
      ProjectionsAreOwn(name, Moved(f, moves[0]), moves[1..]);
    }
  }

  /** The protocol actions a play of one watcher alone is made of. */
  function ActionsOf(s: Solo, moves: seq<SoloMove>): seq<Action>
    requires SoloPlayable(s, moves)
    decreases |moves|
  {
    if moves == [] then []
    else
      (match moves[0]
       case Arrive(_) => []
       case Take => [CrdEvent(s.stream[s.cursor])]
       case Step(a) => [a]) + ActionsOf(SoloMoved(s, moves[0]), moves[1..])
  }

  lemma {:induction false} SoloPlaysAreRuns(s: Solo, moves: seq<SoloMove>)
    requires SoloPlayable(s, moves)
    ensures Valid(s.state, ActionsOf(s, moves))
    ensures Exec(s.state, ActionsOf(s, moves)) == SoloPlay(s, moves).state
    decreases |moves|
  {
    if moves != [] {
      var t := SoloMoved(s, moves[0]);
      SoloPlaysAreRuns(t, moves[1..]);
      match moves[0]
      case Arrive(_) => assert ActionsOf(s, moves) == ActionsOf(t, moves[1..]);
      case Take => ExecOne(s.state, CrdEvent(s.stream[s.cursor]), ActionsOf(t, moves[1..]));
      case Step(a) => ExecOne(s.state, a, ActionsOf(t, moves[1..]));
    }
  }

  /** So every member of a fleet only ever is in states its protocol reaches. */
  lemma MembersStayReachable(names: set<string>, name: string, moves: seq<Move>)
    requires name in names && Playable(Launch(names), moves)
    ensures name in Play(Launch(names), moves).members
    ensures Reachable(Play(Launch(names), moves).members[name].state)
  {
    var f := Launch(names);
    assert ViewOf(name, f) == Solo([], 0, Init(0));
    FleetProjects(name, f, moves);
    SoloPlaysAreRuns(Solo([], 0, Init(0)), Project(name, f, moves));
  }

  // ----- what a watcher hears

  /** Taking an event off the stream is a CRD event of the watcher exactly when the CRD bears its name. */
  lemma ConsumeHearsOwnName(f: Fleet, name: string)
    requires CanMove(f, Consume(name))
    ensures var mem, g := f.members[name], Moved(f, Consume(name));
            var crd := f.stream[mem.cursor];
            && g.members[name].state == (if crd.name == name then DoCrdEvent(mem.state, crd) else mem.state)
            && g.members[name].cursor == mem.cursor + 1
            && g.stream == f.stream && g.members.Keys == f.members.Keys
            && (forall other :: other in f.members && other != name ==> g.members[other] == f.members[other])
  {
  }

  /** The CRD objects of the events among these actions. */
  function Heard(actions: seq<Action>): seq<Crd> {
    if actions == [] then []
    else (if actions[0].CrdEvent? then [actions[0].crd] else []) + Heard(actions[1..])
  }

  /** Alone, a watcher hears its stream from its cursor on, entry by entry. */
  lemma {:induction false} SoloHears(s: Solo, moves: seq<SoloMove>)
    requires SoloPlayable(s, moves) && s.cursor <= |s.stream|
    ensures var t := SoloPlay(s, moves);
            && s.cursor <= t.cursor <= |t.stream| && s.stream <= t.stream
            && Heard(ActionsOf(s, moves)) == t.stream[s.cursor..t.cursor]
    decreases |moves|
  {
    if moves != [] {
      var u, t := SoloMoved(s, moves[0]), SoloPlay(s, moves);
      SoloHears(u, moves[1..]);
      match moves[0]
      case Arrive(_) => assert ActionsOf(s, moves) == ActionsOf(u, moves[1..]);
      case Take =>
        assert ActionsOf(s, moves)[1..] == ActionsOf(u, moves[1..]);
        assert t.stream[s.cursor] == s.stream[s.cursor];
        assert t.stream[s.cursor..t.cursor] == [s.stream[s.cursor]] + t.stream[s.cursor + 1..t.cursor];
      case Step(_) => assert ActionsOf(s, moves)[1..] == ActionsOf(u, moves[1..]);
    }
  }

  /** What was published, in order. */
  function Published(moves: seq<Move>): seq<Crd> {
    if moves == [] then [] else (if moves[0].Publish? then [moves[0].crd] else []) + Published(moves[1..])
  }

  lemma {:induction false} StreamIsPublished(f: Fleet, moves: seq<Move>)
    requires Playable(f, moves)
    ensures Play(f, moves).stream == f.stream + Published(moves)
    decreases |moves|
  {
    if moves != [] {
      StreamIsPublished(Moved(f, moves[0]), moves[1..]);
    }
  }

  /**
   Whatever is published and whatever the other watchers do, a watcher hears the CRDs that bear its
   own name and no others, each once, in the order of their publication, up to where it has read.
   */
  lemma WatcherHearsItsOwn(names: set<string>, name: string, moves: seq<Move>) returns (actions: seq<Action>)
    requires name in names && Playable(Launch(names), moves)
    ensures var f := Play(Launch(names), moves);
            && name in f.members && f.members[name].cursor <= |f.stream| && f.stream == Published(moves)
            && Valid(Init(0), actions) && Exec(Init(0), actions) == f.members[name].state
            && Heard(actions) == Own(name, f.stream[..f.members[name].cursor])
  {
    var f, start := Launch(names), Solo([], 0, Init(0));
    assert ViewOf(name, f) == start;
    FleetProjects(name, f, moves);
    StreamIsPublished(f, moves);
    var solo := Project(name, f, moves);
    SoloPlaysAreRuns(start, solo);
    SoloHears(start, solo);
    actions := ActionsOf(start, solo);
    var g := Play(f, moves);
    OwnOfPrefix(name, g.stream, g.members[name].cursor);
  }

  /** So a watcher whose name nothing bears that was published never learns of a CRD and never starts a watch. */
  lemma UnnamedWatcherSleeps(names: set<string>, name: string, moves: seq<Move>)
    requires name in names && Playable(Launch(names), moves)
    requires forall crd :: crd in Published(moves) ==> crd.name != name
    ensures var f := Play(Launch(names), moves);
            name in f.members && !f.members[name].state.crdExists && f.members[name].state.waiters == []
  {
    var actions := WatcherHearsItsOwn(names, name, moves);
    var f := Play(Launch(names), moves);
    NothingOwn(name, f.stream[..f.members[name].cursor]);
    DeafRunsDoNothing(Init(0), actions);
  }

  lemma {:induction false} NothingOwn(name: string, stream: seq<Crd>)
    requires forall crd :: crd in stream ==> crd.name != name
    ensures Own(name, stream) == []
  {
    if stream != [] {
      assert stream[|stream| - 1] in stream;
      NothingOwn(name, stream[..|stream| - 1]);
    }
  }

  lemma {:induction false} DeafRunsDoNothing(s: State, actions: seq<Action>)
    requires Valid(s, actions) && Heard(actions) == [] && !s.crdExists && s.waiters == []
    ensures !Exec(s, actions).crdExists && Exec(s, actions).waiters == []
    decreases |actions|
  {
    if actions != [] {
      DeafRunsDoNothing(Apply(s, actions[0]), actions[1..]);
    }
  }
}

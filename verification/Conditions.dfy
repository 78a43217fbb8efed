/**
 Status conditions as the Widget lifecycle methods use them: a list keyed by type, updated in
 place, one entry for each of the two optional integrations, and possibly entries of others.
 */
module Conditions {
  import opened Common

  datatype Condition = Condition(
    kind: string, status: bool, reason: string, message: string, observedGeneration: int, transition: int)

  /** Position of the first condition of this type, or the length of the list. */
  function IndexOf(conds: seq<Condition>, kind: string): (i: nat)
    ensures i <= |conds|
    ensures i < |conds| ==> conds[i].kind == kind
    ensures forall j :: 0 <= j < i ==> conds[j].kind != kind
  {
    if conds == [] then 0
    else if conds[0].kind == kind then 0
    else
      var i := IndexOf(conds[1..], kind);
      assert forall j :: 0 < j < |conds| ==> conds[j] == conds[1..][j - 1];
      i + 1
  }

  function Find(conds: seq<Condition>, kind: string): Option<Condition> {
    var i := IndexOf(conds, kind);
    if i < |conds| then Some(conds[i]) else None
  }

  /** The transition time moves only when the status does. */
  function Merge(old_: Condition, c: Condition, now: int): Condition {
    c.(transition := if old_.status == c.status then old_.transition else now)
  }

  function Put(conds: seq<Condition>, c: Condition, now: int): seq<Condition> {
    var i := IndexOf(conds, c.kind);
    if i < |conds| then conds[i := Merge(conds[i], c, now)] else conds + [c.(transition := now)]
  }

  function Drop(conds: seq<Condition>, kind: string): seq<Condition> {
    if conds == [] then []
    else if conds[0].kind == kind then Drop(conds[1..], kind)
    else [conds[0]] + Drop(conds[1..], kind)
  }

  /** One change of the list: a Mark call or a Remove call. */
  datatype Update = Mark(cond: Condition) | Unmark(kind: string)

  function Subject(u: Update): string {
    match u
    case Mark(c) => c.kind
    case Unmark(kind) => kind
  }

  function Updated(conds: seq<Condition>, u: Update, now: int): seq<Condition> {
    match u
    case Mark(c) => Put(conds, c, now)
    case Unmark(kind) => Drop(conds, kind)
  }

  predicate UniqueKinds(conds: seq<Condition>) {
    forall i, j :: 0 <= i < j < |conds| ==> conds[i].kind != conds[j].kind
  }

  /** The conditions of types outside `kinds`, in order. */
  function Others(conds: seq<Condition>, kinds: set<string>): seq<Condition> {
    if conds == [] then []
    else if conds[0].kind in kinds then Others(conds[1..], kinds)
    else [conds[0]] + Others(conds[1..], kinds)
  }

  // ----- what one update does

  lemma IndexIsFirst(conds: seq<Condition>, kind: string, i: nat)
    requires i <= |conds| && (i < |conds| ==> conds[i].kind == kind)
    requires forall j :: 0 <= j < i ==> conds[j].kind != kind
    ensures IndexOf(conds, kind) == i
  {
  }

  lemma {:induction false} DropLeaves(conds: seq<Condition>, kind: string, c: Condition)
    ensures c in Drop(conds, kind) <==> c in conds && c.kind != kind
  {
    if conds != [] {
      DropLeaves(conds[1..], kind, c);
    }
  }

  lemma {:induction false} FindAfterDrop(conds: seq<Condition>, kind: string, other: string)
    ensures Find(Drop(conds, kind), other) == if other == kind then None else Find(conds, other)
  {
    if other == kind {
      forall c | c in Drop(conds, kind) ensures c.kind != kind {
        DropLeaves(conds, kind, c);
      }
      IndexIsFirst(Drop(conds, kind), kind, |Drop(conds, kind)|);
    } else if conds != [] {
      FindAfterDrop(conds[1..], kind, other);
      FindFromTail(conds, other);
      if conds[0].kind != kind {
        assert Drop(conds, kind)[1..] == Drop(conds[1..], kind);
        FindFromTail(Drop(conds, kind), other);
      }
    }
  }

  lemma FindFromTail(conds: seq<Condition>, kind: string)
    requires conds != []
    ensures Find(conds, kind) == if conds[0].kind == kind then Some(conds[0]) else Find(conds[1..], kind)
  {
    if conds[0].kind == kind {
      IndexIsFirst(conds, kind, 0);
    } else {
      var i := IndexOf(conds[1..], kind);
      assert forall j :: 0 < j < |conds| ==> conds[j] == conds[1..][j - 1];
      IndexIsFirst(conds, kind, i + 1);
    }
  }

  lemma FindAfterPut(conds: seq<Condition>, c: Condition, now: int, kind: string)
    ensures kind != c.kind ==> Find(Put(conds, c, now), kind) == Find(conds, kind)
    ensures Find(Put(conds, c, now), c.kind) ==
            Some(if Find(conds, c.kind).Some? then Merge(Find(conds, c.kind).value, c, now) else c.(transition := now))
  {
    var i := IndexOf(conds, c.kind);
    var after := Put(conds, c, now);
    IndexIsFirst(after, c.kind, i);
    if kind != c.kind {
      var k := IndexOf(conds, kind);
      if k < |conds| {
        IndexIsFirst(after, kind, k);
      } else {
        IndexIsFirst(after, kind, |after|);
      }
    }
  }

  /** An update decides the entry of its own type and leaves the entry of every other type alone. */
  lemma UpdateIsLocal(conds: seq<Condition>, u: Update, now: int, kind: string)
    ensures kind != Subject(u) ==> Find(Updated(conds, u, now), kind) == Find(conds, kind)
    ensures u.Unmark? ==> Find(Updated(conds, u, now), u.kind) == None
    ensures u.Mark? ==> Find(Updated(conds, u, now), u.cond.kind).Some?
                        && Find(Updated(conds, u, now), u.cond.kind).value.(transition := u.cond.transition) == u.cond
  {
    match u
    case Mark(c) => FindAfterPut(conds, c, now, kind);
    case Unmark(k) =>
      FindAfterDrop(conds, k, kind);
      FindAfterDrop(conds, k, k);
  }

  /** A condition that is already as the update wants it stays as it is: an update is idempotent on what it finds. */
  lemma UpdateSettled(conds: seq<Condition>, u: Update, now: int)
    requires match u
             case Mark(c) => Find(conds, c.kind).Some? && Find(conds, c.kind).value.(transition := c.transition) == c
             case Unmark(kind) => Find(conds, kind).None?
    ensures Updated(conds, u, now) == conds
  {
    if u.Unmark? {
      DropNothing(conds, u.kind);
    }
  }

  lemma {:induction false} DropNothing(conds: seq<Condition>, kind: string)
    requires Find(conds, kind).None?
    ensures Drop(conds, kind) == conds
  {
    if conds != [] {
      FindFromTail(conds, kind);
      DropNothing(conds[1..], kind);
    }
  }

  lemma {:induction false} DropKeepsUnique(conds: seq<Condition>, kind: string)
    requires UniqueKinds(conds)
    ensures UniqueKinds(Drop(conds, kind))
  {
    if conds != [] {
      DropKeepsUnique(conds[1..], kind);
      var rest := Drop(conds[1..], kind);
      forall j | 0 <= j < |rest| ensures rest[j].kind != conds[0].kind {
        DropLeaves(conds[1..], kind, rest[j]);
        var k :| 0 <= k < |conds[1..]| && conds[1..][k] == rest[j];
        assert conds[k + 1] == rest[j];
      }
    }
  }

  /** No update ever makes two conditions share a type. */
  lemma UpdateKeepsUnique(conds: seq<Condition>, u: Update, now: int)
    requires UniqueKinds(conds)
    ensures UniqueKinds(Updated(conds, u, now))
  {
    if u.Unmark? {
      DropKeepsUnique(conds, u.kind);
    }
  }

  lemma OthersAppend(a: seq<Condition>, b: seq<Condition>, kinds: set<string>)
    ensures Others(a + b, kinds) == Others(a, kinds) + Others(b, kinds)
  {
    if a == [] {
      assert a + b == b;
    } else {
      assert (a + b)[1..] == a[1..] + b;
      OthersAppend(a[1..], b, kinds);
    }
  }

  lemma {:induction false} OthersAfterDrop(conds: seq<Condition>, kind: string, kinds: set<string>)
    requires kind in kinds
    ensures Others(Drop(conds, kind), kinds) == Others(conds, kinds)
  {
    if conds != [] {
      OthersAfterDrop(conds[1..], kind, kinds);
      if conds[0].kind != kind {
        assert Drop(conds, kind)[1..] == Drop(conds[1..], kind);
      }
    }
  }

  /** Conditions of other types keep their values and their order. */
  lemma UpdateKeepsOthers(conds: seq<Condition>, u: Update, now: int, kinds: set<string>)
    requires Subject(u) in kinds
    ensures Others(Updated(conds, u, now), kinds) == Others(conds, kinds)
  {
    match u
    case Unmark(kind) => OthersAfterDrop(conds, kind, kinds);
    case Mark(c) =>
      var i := IndexOf(conds, c.kind);
      if i < |conds| {
        var m := Merge(conds[i], c, now);
        assert conds == conds[..i] + [conds[i]] + conds[i + 1..];
        assert Put(conds, c, now) == conds[..i] + [m] + conds[i + 1..];
        OthersAppend(conds[..i] + [conds[i]], conds[i + 1..], kinds);
        OthersAppend(conds[..i], [conds[i]], kinds);
        OthersAppend(conds[..i] + [m], conds[i + 1..], kinds);
        OthersAppend(conds[..i], [m], kinds);
      } else {
        OthersAppend(conds, [c.(transition := now)], kinds);
      }
  }

  // ----- two updates of different types

  /** Both updates append: the one case in which their order shows. */
  predicate BothAppend(conds: seq<Condition>, u: Update, v: Update) {
    u.Mark? && v.Mark? && Find(conds, Subject(u)).None? && Find(conds, Subject(v)).None?
  }

  lemma IndexAfterPut(conds: seq<Condition>, c: Condition, now: int, kind: string)
    requires kind != c.kind
    ensures IndexOf(Put(conds, c, now), kind) ==
            if IndexOf(conds, kind) < |conds| then IndexOf(conds, kind) else |Put(conds, c, now)|
  {
    var k := IndexOf(conds, kind);
    IndexIsFirst(Put(conds, c, now), kind, if k < |conds| then k else |Put(conds, c, now)|);
  }

  lemma {:induction false} PutThenDrop(conds: seq<Condition>, c: Condition, now: int, kind: string)
    requires kind != c.kind
    ensures Drop(Put(conds, c, now), kind) == Put(Drop(conds, kind), c, now)
  {
    if conds == [] {
      assert Drop([c.(transition := now)], kind) == [c.(transition := now)] + Drop([], kind);
    } else {
      PutThenDrop(conds[1..], c, now, kind);
      PutFromTail(conds, c, now);
      if conds[0].kind != kind {
        assert Drop(conds, kind)[1..] == Drop(conds[1..], kind);
        PutFromTail(Drop(conds, kind), c, now);
      }
      var m := if conds[0].kind == c.kind then Merge(conds[0], c, now) else conds[0];
      var tail := if conds[0].kind == c.kind then conds[1..] else Put(conds[1..], c, now);
      assert Put(conds, c, now)[0] == m && Put(conds, c, now)[1..] == tail;
    }
  }

  lemma PutFromTail(conds: seq<Condition>, c: Condition, now: int)
    requires conds != []
    ensures Put(conds, c, now) ==
            if conds[0].kind == c.kind then [Merge(conds[0], c, now)] + conds[1..]
            else [conds[0]] + Put(conds[1..], c, now)
  {
    if conds[0].kind == c.kind {
      IndexIsFirst(conds, c.kind, 0);
    } else {
      var i := IndexOf(conds[1..], c.kind);
      assert forall j :: 0 < j < |conds| ==> conds[j] == conds[1..][j - 1];
      IndexIsFirst(conds, c.kind, i + 1);
    }
  }

  lemma {:induction false} DropsCommute(conds: seq<Condition>, k1: string, k2: string)
    ensures Drop(Drop(conds, k1), k2) == Drop(Drop(conds, k2), k1)
  {
    if conds != [] {
      DropsCommute(conds[1..], k1, k2);
      if conds[0].kind != k1 {
        assert Drop(conds, k1)[1..] == Drop(conds[1..], k1);
      }
      if conds[0].kind != k2 {
        assert Drop(conds, k2)[1..] == Drop(conds[1..], k2);
      }
    }
  }

  /** Put, given where the first condition of the type is. */
  function PutAt(conds: seq<Condition>, i: nat, c: Condition, now: int): seq<Condition>
    requires i <= |conds|
  {
    if i < |conds| then conds[i := Merge(conds[i], c, now)] else conds + [c.(transition := now)]
  }

  lemma PutAtTwice(conds: seq<Condition>, i: nat, j: nat, c: Condition, d: Condition, now: int)
    requires i < |conds| && j <= |conds| && i != j
    ensures var pc, pd := PutAt(conds, i, c, now), PutAt(conds, j, d, now);
            PutAt(pc, j, d, now) == PutAt(pd, i, c, now)
  {
    var pc, pd := PutAt(conds, i, c, now), PutAt(conds, j, d, now);
    assert |pc| == |conds| && |pd| >= |conds|;
    assert PutAt(pc, j, d, now) == PutAt(pd, i, c, now);
  }

  lemma PutsCommuteInPlace(conds: seq<Condition>, c: Condition, d: Condition, now: int)
    requires c.kind != d.kind && IndexOf(conds, c.kind) < |conds|
    ensures Put(Put(conds, c, now), d, now) == Put(Put(conds, d, now), c, now)
  {
    IndexAfterPut(conds, c, now, d.kind);
    IndexAfterPut(conds, d, now, c.kind);
    PutAtTwice(conds, IndexOf(conds, c.kind), IndexOf(conds, d.kind), c, d, now);
  }

  lemma PutsAppendBoth(conds: seq<Condition>, c: Condition, d: Condition, now: int)
    requires c.kind != d.kind && BothAppend(conds, Mark(c), Mark(d))
    ensures Put(Put(conds, c, now), d, now) == conds + [c.(transition := now), d.(transition := now)]
  {
    IndexAfterPut(conds, c, now, d.kind);
  }

  lemma PutsCommute(conds: seq<Condition>, c: Condition, d: Condition, now: int)
    requires c.kind != d.kind
    ensures multiset(Put(Put(conds, c, now), d, now)) == multiset(Put(Put(conds, d, now), c, now))
    ensures Put(Put(conds, c, now), d, now) == Put(Put(conds, d, now), c, now) <==> !BothAppend(conds, Mark(c), Mark(d))
  {
    if IndexOf(conds, c.kind) < |conds| {
      PutsCommuteInPlace(conds, c, d, now);
    } else if IndexOf(conds, d.kind) < |conds| {
      PutsCommuteInPlace(conds, d, c, now);
    } else {
      PutsAppendBoth(conds, c, d, now);
      PutsAppendBoth(conds, d, c, now);
      var c', d' := c.(transition := now), d.(transition := now);
      assert (conds + [c', d'])[|conds|] != (conds + [d', c'])[|conds|];
    }
  }

  /**
   Updates of different types commute up to the order of the list, and the order differs
   exactly when both append a new condition.
   */
  lemma UpdatesCommute(conds: seq<Condition>, u: Update, v: Update, now: int)
    requires Subject(u) != Subject(v)
    ensures var uv, vu := Updated(Updated(conds, u, now), v, now), Updated(Updated(conds, v, now), u, now);
            multiset(uv) == multiset(vu) && (uv == vu <==> !BothAppend(conds, u, v))
  {
    match (u, v)
    case (Mark(c), Mark(d)) => PutsCommute(conds, c, d, now);
    case (Mark(c), Unmark(kind)) => PutThenDrop(conds, c, now, kind);
    case (Unmark(kind), Mark(c)) => PutThenDrop(conds, c, now, kind);
    case (Unmark(k1), Unmark(k2)) => DropsCommute(conds, k1, k2);
  }
}

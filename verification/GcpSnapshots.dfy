/**
 Snapshot resources of Cloud SQL instances and their objects in the bucket, as the Postgres
 and the snapshot controller share them: the state, what every state and every call must
 satisfy, and why each call does.
 */
module GcpSnapshots {

  datatype Phase = Unset | InProgress | Complete | Failed | DeleteInProgress

  /** marked: has a deletion timestamp. resource: the Postgres resource it is a snapshot of. */
  datatype Snap = Snap(resource: string, created: int, phase: Phase, marked: bool, finalizer: bool, skipDelete: bool)

  /** Snapshot resources by name; the object of a snapshot carries the snapshot's name. */
  datatype Store = Store(snaps: map<string, Snap>, objects: set<string>)

  predicate Done(s: Store, x: string) {
    x in s.snaps && s.snaps[x].phase.Complete?
  }

  predicate Same(s: Store, x: string, y: string)
    requires x in s.snaps && y in s.snaps
  {
    s.snaps[x].resource == s.snaps[y].resource
  }

  /** The newest completed snapshot of its instance. */
  ghost predicate IsNewest(s: Store, x: string) {
    Done(s, x) && forall y :: Done(s, y) && Same(s, x, y) ==> s.snaps[y].created <= s.snaps[x].created
  }

  ghost predicate DistinctTimes(s: Store) {
    forall x, y :: x in s.snaps && y in s.snaps && Same(s, x, y) && s.snaps[x].created == s.snaps[y].created ==> x == y
  }

  /** A completed snapshot of the same instance that is newer and not on its way out. */
  ghost predicate HasSuccessor(s: Store, x: string)
    requires x in s.snaps
  {
    exists y :: Done(s, y) && Same(s, x, y) && !s.snaps[y].marked && s.snaps[x].created < s.snaps[y].created
  }

  /** What holds whatever happens. */
  ghost predicate Base(s: Store) {
    && DistinctTimes(s)
    && (forall x :: x in s.snaps && s.snaps[x].marked ==> s.snaps[x].finalizer)
    && (forall x :: Done(s, x) && !s.snaps[x].marked ==> s.snaps[x].finalizer && x in s.objects)
  }

  /** What holds as long as no error exposes a marked snapshot: each of those has been superseded. */
  ghost predicate Inv(s: Store) {
    Base(s) && forall x :: Done(s, x) && s.snaps[x].marked ==> HasSuccessor(s, x)
  }

  lemma EmptyStoreHolds()
    ensures Inv(Store(map[], {}))
  {
  }

  /** The newest completed snapshot is not marked for deletion and its object is in the bucket. */
  lemma NewestIsKept(s: Store, x: string)
    requires Inv(s) && IsNewest(s, x)
    ensures !s.snaps[x].marked && x in s.objects
  {
  }

  /** Every completed snapshot has the newest one of its instance above it. */
  lemma {:induction false} NewestExists(s: Store, x: string, among: set<string>) returns (n: string)
    requires DistinctTimes(s) && Done(s, x)
    requires forall y :: Done(s, y) && Same(s, x, y) && s.snaps[y].created > s.snaps[x].created ==> y in among
    ensures IsNewest(s, n) && Same(s, x, n) && s.snaps[x].created <= s.snaps[n].created
    decreases |among|
  {
    if y :| Done(s, y) && Same(s, x, y) && s.snaps[y].created > s.snaps[x].created {
      n := NewestExists(s, y, among - {y});
    } else {
      n := x;
    }
  }

  /** What every call keeps to. */
  ghost predicate Careful(s: Store, s': Store) {
    // a flag is withdrawn only once the newest snapshot carries it
    && (forall x :: x in s.snaps && x in s'.snaps && s.snaps[x].skipDelete && !s'.snaps[x].skipDelete ==>
          FlagPassedOn(s, x))
    // an object goes only for a marked snapshot without the flag
    && (forall x :: x in s.objects && x !in s'.objects ==> x in s.snaps && s.snaps[x].marked && !s.snaps[x].skipDelete)
  }

  ghost predicate KeepsNewest(s: Store, s': Store) {
    // completed work is not lost
    && (forall x :: Done(s, x) && !s.snaps[x].marked ==> Done(s', x) && SameIdentity(s.snaps[x], s'.snaps[x]))
    // only superseded snapshots are marked
    && (forall x :: IsNewest(s, x) ==> x in s'.snaps && !s'.snaps[x].marked)
  }

  /** An error is written over a completed phase. */
  ghost predicate Regresses(s: Store, s': Store) {
    exists x :: RegressesAt(s, s', x)
  }

  ghost predicate RegressesAt(s: Store, s': Store, x: string) {
    Done(s, x) && !s.snaps[x].marked && s' == Put(s, x, s.snaps[x].(phase := Failed))
  }

  /** The same, for a snapshot that was all a marked one was superseded by. */
  ghost predicate Exposes(s: Store, s': Store) {
    exists x :: RegressesAt(s, s', x) && LastSuccessor(s, x)
  }

  /** What one call may do. */
  ghost predicate GoodCall(s: Store, s': Store) {
    Base(s') && Careful(s, s') && (Inv(s) ==> Regresses(s, s') || (Inv(s') && KeepsNewest(s, s')))
  }

  /** Only an exposing error breaks the invariant. */
  lemma CallKeepsInv(s: Store, s': Store)
    requires Inv(s) && GoodCall(s, s') && !Exposes(s, s')
    ensures Inv(s')
  {
    if Regresses(s, s') {
      var x :| RegressesAt(s, s', x);
      RegressBreaksIff(s, x);
    }
  }

  predicate SameIdentity(a: Snap, b: Snap) {
    a.resource == b.resource && a.created == b.created
  }

  ghost predicate FlagPassedOn(s: Store, x: string)
    requires x in s.snaps
  {
    exists n :: IsNewest(s, n) && Same(s, x, n) && n != x && s.snaps[n].skipDelete
  }

  // ---------------------------------------------------------------- calls

  function Put(s: Store, x: string, snap: Snap): Store {
    s.(snaps := s.snaps[x := snap])
  }

  /** The API server's side of a deletion. */
  function Mark(s: Store, x: string): Store
    requires x in s.snaps
  {
    if s.snaps[x].finalizer then Put(s, x, s.snaps[x].(marked := true)) else s.(snaps := s.snaps - {x})
  }

  lemma MarkSafe(s: Store, x: string, n: string)
    requires Inv(s) && x in s.snaps && IsNewest(s, n) && Same(s, x, n) && x != n
    ensures Inv(Mark(s, x)) && KeepsNewest(s, Mark(s, x))
  {
    var s' := Mark(s, x);
    NewestIsKept(s, n);
    forall y | Done(s', y) && s'.snaps[y].marked ensures HasSuccessor(s', y) {
      MarkLeavesSuccessor(s, x, n, y);
    }
    MarkIsGood(s, x, n);
  }

  lemma MarkLeavesSuccessor(s: Store, x: string, n: string, y: string)
    requires Inv(s) && x in s.snaps && IsNewest(s, n) && Same(s, x, n) && x != n
    requires Done(Mark(s, x), y) && Mark(s, x).snaps[y].marked
    ensures HasSuccessor(Mark(s, x), y)
  {
    var s' := Mark(s, x);
    NewestIsKept(s, n);
    assert Done(s, y);
    if Same(s, n, y) {
      assert s.snaps[y].created < s.snaps[n].created && Done(s', n) && Same(s', y, n);
    } else {
      var z :| Done(s, z) && Same(s, y, z) && !s.snaps[z].marked && s.snaps[y].created < s.snaps[z].created;
      assert Done(s', z) && Same(s', y, z);
    }
  }

  lemma MarkIsGood(s: Store, x: string, n: string)
    requires Inv(s) && x in s.snaps && IsNewest(s, n) && Same(s, x, n) && x != n
    ensures KeepsNewest(s, Mark(s, x))
  {
    var s' := Mark(s, x);
    assert s.snaps[x].created != s.snaps[n].created;
    forall y | IsNewest(s, y) ensures y in s'.snaps && !s'.snaps[y].marked {
      NewestIsKept(s, y);
    }
    assert forall y :: Done(s, y) && !s.snaps[y].marked ==> s.snaps[y].finalizer && Done(s', y);
  }

  /** Writes that keep identity and mark, and leave a completed snapshot completed. */
  lemma PutSafe(s: Store, x: string, snap: Snap)
    requires Inv(s) && x in s.snaps && SameIdentity(s.snaps[x], snap) && snap.marked == s.snaps[x].marked
    requires s.snaps[x].finalizer ==> snap.finalizer
    requires Done(s, x) && !snap.marked ==> snap.phase.Complete?
    requires snap.phase.Complete? && !Done(s, x) ==> snap.finalizer && !snap.marked && x in s.objects
    requires s.snaps[x].skipDelete && !snap.skipDelete ==> FlagPassedOn(s, x)
    ensures Inv(Put(s, x, snap)) && KeepsNewest(s, Put(s, x, snap))
  {
    var s' := Put(s, x, snap);
    forall y | Done(s', y) && s'.snaps[y].marked ensures HasSuccessor(s', y) {
      assert Done(s, y) && HasSuccessor(s, y);
      var z :| Done(s, z) && Same(s, y, z) && !s.snaps[z].marked && s.snaps[y].created < s.snaps[z].created;
      assert Done(s', z) && Same(s', y, z);
    }
    assert DistinctTimes(s') by {
      assert forall y, z :: y in s.snaps && z in s.snaps ==> (Same(s', y, z) <==> Same(s, y, z));
      assert forall y :: y in s.snaps ==> s'.snaps[y].created == s.snaps[y].created;
    }
    assert forall y :: IsNewest(s, y) ==> !s.snaps[y].marked;
  }

  lemma AddSafe(s: Store, x: string, snap: Snap)
    requires Inv(s) && x !in s.snaps && !snap.phase.Complete? && !snap.marked
    requires forall y :: y in s.snaps && s.snaps[y].resource == snap.resource ==> s.snaps[y].created != snap.created
    ensures Inv(Put(s, x, snap)) && KeepsNewest(s, Put(s, x, snap))
  {
    var s' := Put(s, x, snap);
    forall y | Done(s', y) && s'.snaps[y].marked ensures HasSuccessor(s', y) {
      assert Done(s, y) && HasSuccessor(s, y);
      var z :| Done(s, z) && Same(s, y, z) && !s.snaps[z].marked && s.snaps[y].created < s.snaps[z].created;
      assert Done(s', z) && Same(s', y, z);
    }
    assert forall y, z :: y in s.snaps && z in s.snaps ==> (Same(s', y, z) <==> Same(s, y, z));
    assert forall y :: IsNewest(s, y) ==> !s.snaps[y].marked;
  }

  lemma DropSafe(s: Store, x: string)
    requires Inv(s) && x in s.snaps && s.snaps[x].marked
    ensures Inv(s.(snaps := s.snaps - {x})) && KeepsNewest(s, s.(snaps := s.snaps - {x}))
  {
    var s' := s.(snaps := s.snaps - {x});
    forall y | Done(s', y) && s'.snaps[y].marked ensures HasSuccessor(s', y) {
      assert Done(s, y) && HasSuccessor(s, y);
      var z :| Done(s, z) && Same(s, y, z) && !s.snaps[z].marked && s.snaps[y].created < s.snaps[z].created;
      assert Done(s', z) && Same(s', y, z);
    }
    assert forall y, z :: y in s'.snaps && z in s'.snaps ==> (Same(s', y, z) <==> Same(s, y, z));
    assert forall y :: IsNewest(s, y) ==> !s.snaps[y].marked && y != x;
  }

  lemma ObjectsSafe(s: Store, objects: set<string>)
    requires Inv(s)
    requires forall x :: x in s.objects && x !in objects ==> x in s.snaps && s.snaps[x].marked && !s.snaps[x].skipDelete
    ensures Inv(s.(objects := objects)) && KeepsNewest(s, s.(objects := objects))
  {
    var s' := s.(objects := objects);
    assert forall x :: Done(s, x) <==> Done(s', x);
    forall y | Done(s', y) && s'.snaps[y].marked ensures HasSuccessor(s', y) {
      assert HasSuccessor(s, y);
      var z :| Done(s, z) && Same(s, y, z) && !s.snaps[z].marked && s.snaps[y].created < s.snaps[z].created;
      assert Done(s', z) && Same(s', y, z);
    }
    assert forall y :: IsNewest(s, y) ==> !s.snaps[y].marked;
  }

  // ---------------------------------------------------------------- the same calls after an exposing error

  lemma MarkIsGoodCall(s: Store, x: string, n: string)
    requires Base(s) && x in s.snaps && IsNewest(s, n) && Same(s, x, n) && x != n
    ensures GoodCall(s, Mark(s, x))
  {
    assert forall y, z :: y in s.snaps && z in s.snaps && y in Mark(s, x).snaps && z in Mark(s, x).snaps ==>
        (Same(Mark(s, x), y, z) <==> Same(s, y, z));
    if Inv(s) {
      MarkSafe(s, x, n);
    }
  }

  lemma PutIsGoodCall(s: Store, x: string, snap: Snap)
    requires Base(s) && x in s.snaps && SameIdentity(s.snaps[x], snap) && snap.marked == s.snaps[x].marked
    requires s.snaps[x].finalizer ==> snap.finalizer
    requires Done(s, x) && !snap.marked ==> snap.phase.Complete? || snap == s.snaps[x].(phase := Failed)
    requires snap.phase.Complete? && !Done(s, x) ==> snap.finalizer && !snap.marked && x in s.objects
    requires s.snaps[x].skipDelete && !snap.skipDelete ==> FlagPassedOn(s, x)
    ensures GoodCall(s, Put(s, x, snap))
  {
    assert forall y, z :: y in s.snaps && z in s.snaps ==> (Same(Put(s, x, snap), y, z) <==> Same(s, y, z));
    if Done(s, x) && !snap.marked && !snap.phase.Complete? {
      assert RegressesAt(s, Put(s, x, snap), x);
    } else if Inv(s) {
      PutSafe(s, x, snap);
    }
  }

  lemma AddIsGoodCall(s: Store, x: string, snap: Snap)
    requires Base(s) && x !in s.snaps && !snap.phase.Complete? && !snap.marked
    requires forall y :: y in s.snaps && s.snaps[y].resource == snap.resource ==> s.snaps[y].created != snap.created
    ensures GoodCall(s, Put(s, x, snap))
  {
    assert forall y, z :: y in s.snaps && z in s.snaps ==> (Same(Put(s, x, snap), y, z) <==> Same(s, y, z));
    if Inv(s) {
      AddSafe(s, x, snap);
    }
  }

  lemma DropIsGoodCall(s: Store, x: string)
    requires Base(s) && x in s.snaps && s.snaps[x].marked
    ensures GoodCall(s, s.(snaps := s.snaps - {x}))
  {
    var s' := s.(snaps := s.snaps - {x});
    assert forall y, z :: y in s'.snaps && z in s'.snaps ==> (Same(s', y, z) <==> Same(s, y, z));
    if Inv(s) {
      DropSafe(s, x);
    }
  }

  lemma ObjectsAreGoodCall(s: Store, objects: set<string>)
    requires Base(s)
    requires forall x :: x in s.objects && x !in objects ==> x in s.snaps && s.snaps[x].marked && !s.snaps[x].skipDelete
    ensures GoodCall(s, s.(objects := objects))
  {
    var s' := s.(objects := objects);
    assert forall x :: Done(s, x) <==> Done(s', x);
    assert forall y, z :: y in s'.snaps && z in s'.snaps ==> (Same(s', y, z) <==> Same(s, y, z));
    if Inv(s) {
      ObjectsSafe(s, objects);
    }
  }

  // ---------------------------------------------------------------- a completed phase that regresses

  /**
   The controller stores Failed whenever a reconcile ends in an error, also over a completed
   phase. For a completed, unmarked snapshot x that breaks the invariant exactly when some
   snapshot already marked has no other completed successor.
   */
  lemma RegressBreaksIff(s: Store, x: string)
    requires Inv(s) && Done(s, x) && !s.snaps[x].marked
    ensures Inv(Put(s, x, s.snaps[x].(phase := Failed))) <==> !LastSuccessor(s, x)
  {
    var s' := Put(s, x, s.snaps[x].(phase := Failed));
    assert forall y, z :: y in s.snaps && z in s.snaps ==> (Same(s', y, z) <==> Same(s, y, z));
    if LastSuccessor(s, x) {
      var m :| Done(s, m) && s.snaps[m].marked && OnlySuccessor(s, m, x);
      assert Done(s', m) && !HasSuccessor(s', m);
    } else {
      forall y | Done(s', y) && s'.snaps[y].marked ensures HasSuccessor(s', y) {
        assert Done(s, y) && HasSuccessor(s, y) && !OnlySuccessor(s, y, x);
        var z :| Done(s, z) && z != x && Same(s, y, z) && !s.snaps[z].marked && s.snaps[y].created < s.snaps[z].created;
        assert Done(s', z) && Same(s', y, z);
      }
    }
  }

  ghost predicate OnlySuccessor(s: Store, m: string, x: string)
    requires m in s.snaps
  {
    forall z :: Done(s, z) && Same(s, m, z) && !s.snaps[z].marked && s.snaps[m].created < s.snaps[z].created ==> z == x
  }

  ghost predicate LastSuccessor(s: Store, x: string) {
    exists m :: Done(s, m) && s.snaps[m].marked && OnlySuccessor(s, m, x)
  }

  /** An error on the newest of two snapshots leaves the marked one as the newest completed. */
  lemma RegressExposesMarked()
    ensures var older, newer := Snap("db", 1, Complete, true, true, false), Snap("db", 2, Complete, false, true, true);
            var s := Store(map["a" := older, "b" := newer], {"a", "b"});
            var s' := Put(s, "b", newer.(phase := Failed));
            Inv(s) && IsNewest(s, "b") && IsNewest(s', "a") && s'.snaps["a"].marked && Exposes(s, s')
  {
    var older, newer := Snap("db", 1, Complete, true, true, false), Snap("db", 2, Complete, false, true, true);
    var s := Store(map["a" := older, "b" := newer], {"a", "b"});
    assert Done(s, "b") && Same(s, "a", "b");
    assert HasSuccessor(s, "a");
    assert RegressesAt(s, Put(s, "b", newer.(phase := Failed)), "b") && OnlySuccessor(s, "a", "b");
  }

  // ---------------------------------------------------------------- passing the flag on

  /**
   reconcileSkipDelete of snapshot x when n is the newest completed snapshot, as read at the
   start: the newest gets the flag; the others lose it only if the newest had it when it was read.
   */
  function HandOver(s: Store, x: string, n: string): Store
    requires x in s.snaps && n in s.snaps
  {
    var flagged := if x == n then Put(s, x, s.snaps[x].(skipDelete := true)) else s;
    if s.snaps[n].skipDelete then ClearOthers(flagged, n) else flagged
  }

  /**
   The flag of y after a pass over x, in terms of the flags before it: the newest gains it if it
   is the one looked at; another snapshot of the instance loses it if the newest had it, and
   otherwise keeps what it had; other instances are not touched.
   */
  predicate FlagAfter(s: Store, x: string, n: string, y: string)
    requires n in s.snaps && y in s.snaps
  {
    if y == n then s.snaps[n].skipDelete || x == n
    else if s.snaps[y].resource == s.snaps[n].resource then s.snaps[y].skipDelete && !s.snaps[n].skipDelete
    else s.snaps[y].skipDelete
  }

  lemma HandOverFlagOf(s: Store, x: string, n: string, y: string)
    requires x in s.snaps && n in s.snaps && y in s.snaps
    ensures y in HandOver(s, x, n).snaps && HandOver(s, x, n).snaps[y].skipDelete == FlagAfter(s, x, n, y)
  {
  }

  function ClearOthers(s: Store, n: string): Store
    requires n in s.snaps
  {
    s.(snaps := map y | y in s.snaps ::
         if y != n && Same(s, y, n) then s.snaps[y].(skipDelete := false) else s.snaps[y])
  }

  ghost predicate OnlyFlagged(s: Store, n: string)
    requires n in s.snaps
  {
    forall y :: y in s.snaps && Same(s, y, n) ==> (s.snaps[y].skipDelete <==> y == n)
  }

  ghost predicate FlagsOnly(s: Store, s': Store) {
    && s'.objects == s.objects && s'.snaps.Keys == s.snaps.Keys
    && forall y :: y in s.snaps ==> s'.snaps[y] == s.snaps[y].(skipDelete := s'.snaps[y].skipDelete)
  }

  lemma FlagsKeepNewest(s: Store, s': Store, n: string)
    requires FlagsOnly(s, s') && IsNewest(s, n)
    ensures IsNewest(s', n)
  {
    assert forall y :: Done(s', y) <==> Done(s, y);
    assert forall y :: y in s.snaps ==> (Same(s', n, y) <==> Same(s, n, y));
  }

  /** A pass changes flags only; the newest ends with the flag, and alone with it if it had it before. */
  lemma HandOverFlags(s: Store, n: string)
    requires n in s.snaps
    ensures FlagsOnly(s, HandOver(s, n, n))
    ensures HandOver(s, n, n).snaps[n].skipDelete
    ensures s.snaps[n].skipDelete ==> OnlyFlagged(HandOver(s, n, n), n)
  {
  }

  /** Two passes over the newest reach the state where it alone has the flag, and it is the newest still. */
  lemma HandOverSettles(s: Store, n: string)
    requires IsNewest(s, n)
    ensures n in HandOver(s, n, n).snaps
    ensures var s2 := HandOver(HandOver(s, n, n), n, n); n in s2.snaps && IsNewest(s2, n) && OnlyFlagged(s2, n)
  {
    var s1 := HandOver(s, n, n);
    HandOverFlags(s, n);
    HandOverFlags(s1, n);
    FlagsKeepNewest(s, s1, n);
    FlagsKeepNewest(s1, HandOver(s1, n, n), n);
  }

  lemma SettledStays(s: Store, x: string, n: string)
    requires x in s.snaps && n in s.snaps && OnlyFlagged(s, n)
    ensures HandOver(s, x, n) == s
  {
    assert Same(s, n, n);
    assert forall y :: y in s.snaps && y != n && Same(s, y, n) ==> s.snaps[y].(skipDelete := false) == s.snaps[y];
    assert Put(s, n, s.snaps[n].(skipDelete := true)).snaps == s.snaps;
    assert ClearOthers(s, n).snaps == s.snaps;
  }
}

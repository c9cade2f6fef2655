/**
 The two controllers that work on snapshots: the retention pass of the Postgres provider
 (pkg/providers/gcp/provider_postgres.go) and the snapshot provider
 (pkg/providers/gcp/provider_postgressnapshot.go) under its controller.
 */
module GcpSnapshotReconcile {
  import opened GcpSnapshots
  import opened Listings
  import opened Sorting
  import opened Wrappers

  // ---------------------------------------------------------------- runs

  ghost predicate BaseAt(trace: seq<Store>, i: int)
    requires 0 <= i < |trace|
  {
    Base(trace[i])
  }

  ghost predicate GoodCallAt(trace: seq<Store>, i: int)
    requires 0 <= i < |trace| - 1
  {
    GoodCall(trace[i], trace[i + 1])
  }

  /** A run from a good start, one entry per call that changed something. */
  ghost predicate GoodTrace(trace: seq<Store>) {
    && trace != [] && Inv(trace[0])
    && (forall i :: 0 <= i < |trace| ==> BaseAt(trace, i))
    && (forall i :: 0 <= i < |trace| - 1 ==> GoodCallAt(trace, i))
  }

  lemma GoodTraceGrows(trace: seq<Store>, s: Store)
    requires GoodTrace(trace) && GoodCall(trace[|trace| - 1], s)
    ensures GoodTrace(trace + [s])
  {
    var longer := trace + [s];
    forall i | 0 <= i < |longer| ensures BaseAt(longer, i) {
      assert i < |trace| ==> BaseAt(trace, i);
    }
    forall i | 0 <= i < |longer| - 1 ensures GoodCallAt(longer, i) {
      assert i < |trace| - 1 ==> GoodCallAt(trace, i);
    }
  }

  ghost predicate Extends(earlier: seq<Store>, later: seq<Store>) {
    |earlier| <= |later| && forall i :: 0 <= i < |earlier| ==> later[i] == earlier[i]
  }

  class Cluster {
    var store: Store
    ghost var trace: seq<Store>
    /** Whether calls never fail; every safety claim is made for false as well. */
    const reliable: bool

    ghost predicate Valid()
      reads this
    {
      GoodTrace(trace) && trace[|trace| - 1] == store
    }

    lemma HoldsNow()
      requires Valid()
      ensures Base(store)
    {
      assert BaseAt(trace, |trace| - 1);
    }

    constructor (s: Store, reliable: bool)
      requires Inv(s)
      ensures Valid() && store == s && trace == [s] && this.reliable == reliable
    {
      assert Inv([s][0]);
      store, trace, this.reliable := s, [s], reliable;
    }

    method Happen(s: Store)
      requires Valid() && GoodCall(store, s)
      modifies this
      ensures Valid() && store == s && trace == old(trace) + [s]
    {
      GoodTraceGrows(trace, s);
      store, trace := s, trace + [s];
    }

    /** A call: it takes effect, or fails and changes nothing. */
    method Call(s: Store) returns (ok: bool)
      requires Valid() && GoodCall(store, s)
      modifies this
      ensures Valid() && Extends(old(trace), trace)
      ensures store == if ok then s else old(store)
      ensures reliable ==> ok
    {
      ok := Answers();
      if ok {
        Happen(s);
      }
    }

    method Answers() returns (ok: bool)
      ensures reliable ==> ok
    {
      ok := *;
      if reliable {
        ok := true;
      }
    }
  }

  // ---------------------------------------------------------------- listing

  datatype Entry = Entry(name: string, snap: Snap)

  ghost predicate Lists(entries: seq<Entry>, s: Store, resource: string) {
    && (forall i :: 0 <= i < |entries| ==> IsEntry(entries[i], s, resource))
    && (forall x :: x in s.snaps && s.snaps[x].resource == resource ==> Entry(x, s.snaps[x]) in entries)
  }

  predicate IsEntry(e: Entry, s: Store, resource: string) {
    e.name in s.snaps && s.snaps[e.name] == e.snap && e.snap.resource == resource
  }

  method GetAllSnapshotsForInstance(s: Store, resource: string) returns (r: seq<Entry>)
    ensures Lists(r, s, resource)
    ensures forall i, j :: 0 <= i < j < |r| ==> r[i].name != r[j].name
  {
    var all := Listing(s.snaps.Keys);
    r := [];
    for i := 0 to |all|
      invariant forall k :: 0 <= k < |r| ==> IsEntry(r[k], s, resource) && r[k].name in all[..i]
      invariant forall k :: 0 <= k < i && s.snaps[all[k]].resource == resource ==> Entry(all[k], s.snaps[all[k]]) in r
      invariant forall j, k :: 0 <= j < k < |r| ==> r[j].name != r[k].name
    {
      if s.snaps[all[i]].resource == resource {
        assert all[i] !in all[..i];
        r := r + [Entry(all[i], s.snaps[all[i]])];
      }
    }
  }

  predicate Newer(a: Entry, b: Entry) {
    a.snap.created > b.snap.created
  }

  lemma NewerOrders()
    ensures OrdersByKey(Newer)
  {
  }

  method SortNewestFirst(entries: seq<Entry>) returns (r: seq<Entry>)
    ensures |r| == |entries| && forall e :: e in r <==> e in entries
    ensures forall i, j :: 0 <= i < j < |r| ==> r[j].snap.created <= r[i].snap.created
  {
    NewerOrders();
    r := SortBy(entries, Newer);
    forall e ensures e in r <==> e in entries {
      assert e in multiset(r) <==> e in multiset(entries);
    }
    forall i, j | 0 <= i < j < |r| ensures r[j].snap.created <= r[i].snap.created {
      assert !Newer(r[j], r[i]);
    }
  }

  /** getLatestPostgresSnapshot: newest first, then the first that is complete. */
  method GetLatestSnapshot(s: Store, resource: string) returns (r: Option<Entry>)
    ensures r.Some? ==> IsEntry(r.value, s, resource) && IsNewest(s, r.value.name)
    ensures r.None? <==> forall x :: Done(s, x) ==> s.snaps[x].resource != resource
  {
    var listed := GetAllSnapshotsForInstance(s, resource);
    var sorted := SortNewestFirst(listed);
    assert forall i :: 0 <= i < |sorted| ==> sorted[i] in listed;
    for i := 0 to |sorted|
      invariant forall k :: 0 <= k < i ==> !sorted[k].snap.phase.Complete?
    {
      if sorted[i].snap.phase.Complete? {
        FirstCompleteIsNewest(s, resource, sorted, i);
        return Some(sorted[i]);
      }
    }
    assert forall e :: e in sorted ==> !e.snap.phase.Complete?;
    assert forall x :: x in s.snaps && s.snaps[x].resource == resource ==> Entry(x, s.snaps[x]) in sorted;
    return None;
  }

  lemma FirstCompleteIsNewest(s: Store, resource: string, sorted: seq<Entry>, i: int)
    requires 0 <= i < |sorted| && sorted[i].snap.phase.Complete?
    requires forall k :: 0 <= k < |sorted| ==> IsEntry(sorted[k], s, resource)
    requires forall x :: x in s.snaps && s.snaps[x].resource == resource ==> Entry(x, s.snaps[x]) in sorted
    requires forall j, k :: 0 <= j < k < |sorted| ==> sorted[k].snap.created <= sorted[j].snap.created
    requires forall k :: 0 <= k < i ==> !sorted[k].snap.phase.Complete?
    ensures IsNewest(s, sorted[i].name)
  {
    forall y | Done(s, y) && Same(s, sorted[i].name, y) ensures s.snaps[y].created <= s.snaps[sorted[i].name].created {
      var k :| 0 <= k < |sorted| && sorted[k] == Entry(y, s.snaps[y]);
      assert k >= i;
    }
  }

  // ---------------------------------------------------------------- retention

  predicate Past(snap: Snap, duration: int, now: int) {
    now > snap.created + duration
  }

  /** Past its retention and not the newest completed one. */
  ghost predicate ShouldGo(s: Store, x: string, n: string, retention: int, now: int)
    requires n in s.snaps
  {
    x in s.snaps && Same(s, x, n) && x != n && Past(s.snaps[x], retention, now)
  }

  /** Marked, or gone at once when it never got its finalizer. */
  ghost predicate Disposed(s: Store, s': Store, x: string)
    requires x in s.snaps
  {
    if s.snaps[x].finalizer then x in s'.snaps && s'.snaps[x] == s.snaps[x].(marked := true) else x !in s'.snaps
  }

  ghost predicate Kept(s: Store, s': Store, x: string)
    requires x in s.snaps
  {
    x in s'.snaps && s'.snaps[x] == s.snaps[x]
  }

  /** Exactly the expired snapshots of this instance, save the newest completed one, are disposed of. */
  ghost predicate Retained(s: Store, s': Store, n: string, retention: int, now: int)
    requires n in s.snaps
  {
    && s'.objects == s.objects && s'.snaps.Keys <= s.snaps.Keys
    && forall x :: x in s.snaps ==> if ShouldGo(s, x, n, retention, now) then Disposed(s, s', x) else Kept(s, s', x)
  }

  /** The same for the first entries of the list, nothing for the others. */
  ghost predicate RetainedFor(s: Store, s': Store, entries: seq<Entry>, n: string, retention: int, now: int)
    requires n in s.snaps
  {
    && s'.objects == s.objects && s'.snaps.Keys <= s.snaps.Keys
    && (forall i :: 0 <= i < |entries| ==> entries[i].name in s.snaps)
    && (forall x :: x in s.snaps ==> RetainedAt(s, s', entries, n, retention, now, x))
  }

  ghost predicate RetainedAt(s: Store, s': Store, entries: seq<Entry>, n: string, retention: int, now: int, x: string)
    requires n in s.snaps && x in s.snaps
  {
    if Among(x, entries) && ShouldGo(s, x, n, retention, now) then Disposed(s, s', x) else Kept(s, s', x)
  }

  predicate Among(x: string, entries: seq<Entry>) {
    exists i :: 0 <= i < |entries| && entries[i].name == x
  }

  lemma AmongOneMore(x: string, entries: seq<Entry>, i: int)
    requires 0 <= i < |entries|
    ensures Among(x, entries[..i + 1]) <==> Among(x, entries[..i]) || x == entries[i].name
  {
    assert entries[..i + 1][i].name == entries[i].name;
    if Among(x, entries[..i + 1]) {
      var k :| 0 <= k <= i && entries[..i + 1][k].name == x;
      assert k < i ==> entries[..i][k].name == x;
    }
    if Among(x, entries[..i]) {
      var k :| 0 <= k < i && entries[..i][k].name == x;
      assert entries[..i + 1][k].name == x;
    }
  }

  method DeleteSnapshotResource(c: Cluster, x: string, n: string) returns (ok: bool)
    requires c.Valid() && x in c.store.snaps && IsNewest(c.store, n) && Same(c.store, x, n) && x != n
    modifies c
    ensures c.Valid() && Extends(old(c.trace), c.trace)
    ensures c.store == if ok then Mark(old(c.store), x) else old(c.store)
    ensures IsNewest(c.store, n)
    ensures c.reliable ==> ok
  {
    c.HoldsNow();
    MarkIsGoodCall(c.store, x, n);
    MarkKeepsNewest(c.store, x, n);
    ok := c.Call(Mark(c.store, x));
  }

  lemma MarkKeepsNewest(s: Store, x: string, n: string)
    requires x in s.snaps && IsNewest(s, n) && x != n
    ensures IsNewest(Mark(s, x), n)
  {
    assert forall y :: Done(Mark(s, x), y) ==> Done(s, y);
  }

  /** What the loop does for one entry. */
  function AfterRetention(s: Store, e: Entry, n: string, retention: int, now: int): Store
    requires e.name in s.snaps
  {
    if e.name != n && Past(e.snap, retention, now) then Mark(s, e.name) else s
  }

  method ExpireOne(c: Cluster, e: Entry, n: string, retention: int, now: int) returns (ok: bool)
    requires c.Valid() && e.name in c.store.snaps && IsNewest(c.store, n) && Same(c.store, e.name, n)
    modifies c
    ensures c.Valid() && Extends(old(c.trace), c.trace)
    ensures c.store == if ok then AfterRetention(old(c.store), e, n, retention, now) else old(c.store)
    ensures IsNewest(c.store, n) && c.store.snaps[n] == old(c.store).snaps[n]
    ensures c.reliable ==> ok
  {
    ok := true;
    if e.name != n && Past(e.snap, retention, now) {
      ok := DeleteSnapshotResource(c, e.name, n);
    }
  }

  /** The loop over the snapshots of the instance. */
  method ExpireSnapshots(c: Cluster, entries: seq<Entry>, resource: string, n: string, retention: int, now: int)
    returns (ok: bool)
    requires c.Valid() && Lists(entries, c.store, resource) && IsNewest(c.store, n)
    requires c.store.snaps[n].resource == resource
    requires forall i, j :: 0 <= i < j < |entries| ==> entries[i].name != entries[j].name
    modifies c
    ensures c.Valid() && Extends(old(c.trace), c.trace)
    ensures ok ==> Retained(old(c.store), c.store, n, retention, now)
    ensures c.store.objects == old(c.store).objects && c.store.snaps.Keys <= old(c.store).snaps.Keys
    ensures forall y :: y in old(c.store).snaps ==> StaysOrGoes(old(c.store), c.store, y)
    ensures forall y :: y in old(c.store).snaps && (old(c.store).snaps[y].resource != resource || y == n
                                                    || now <= old(c.store).snaps[y].created + retention) ==>
              y in c.store.snaps && c.store.snaps[y] == old(c.store).snaps[y]
    ensures ok ==>
              forall y :: y in old(c.store).snaps && old(c.store).snaps[y].resource == resource && y != n
                          && old(c.store).snaps[y].created + retention < now ==>
                Disposed(old(c.store), c.store, y)
    ensures c.reliable ==> ok
  {
    ghost var s := c.store;
    for i := 0 to |entries|
      invariant c.Valid() && Extends(old(c.trace), c.trace) && IsNewest(c.store, n)
      invariant c.store.snaps[n].resource == resource
      invariant RetainedFor(s, c.store, entries[..i], n, retention, now)
    {
      ghost var before := c.store;
      assert Kept(s, before, entries[i].name) by { assert !Among(entries[i].name, entries[..i]); }
      ok := ExpireOne(c, entries[i], n, retention, now);
      if !ok {
        NoMoreThanDue(s, c.store, entries[..i], n, retention, now);
        return;
      }
      RetentionStep(s, before, c.store, entries, i, n, retention, now);
    }
    ok := true;
    assert entries[..|entries|] == entries;
    forall x | x in s.snaps && s.snaps[x].resource == resource ensures Among(x, entries) {
      assert Entry(x, s.snaps[x]) in entries;
    }
    NoMoreThanDue(s, c.store, entries, n, retention, now);
    AllThatIsDue(s, c.store, entries, n, retention, now);
  }

  /** Unchanged, or marked, or gone without ever having had a finalizer. */
  ghost predicate StaysOrGoes(s: Store, s': Store, y: string)
    requires y in s.snaps
  {
    Kept(s, s', y) || Disposed(s, s', y)
  }

  lemma NoMoreThanDue(s: Store, s': Store, entries: seq<Entry>, n: string, retention: int, now: int)
    requires n in s.snaps && RetainedFor(s, s', entries, n, retention, now)
    ensures forall y :: y in s.snaps ==> StaysOrGoes(s, s', y)
    ensures forall y :: y in s.snaps && (s.snaps[y].resource != s.snaps[n].resource || y == n
                                         || now <= s.snaps[y].created + retention) ==>
              Kept(s, s', y)
  {
    forall y | y in s.snaps ensures StaysOrGoes(s, s', y) {
      assert RetainedAt(s, s', entries, n, retention, now, y);
    }
    forall y | y in s.snaps && (s.snaps[y].resource != s.snaps[n].resource || y == n
                                || now <= s.snaps[y].created + retention)
      ensures Kept(s, s', y)
    {
      assert RetainedAt(s, s', entries, n, retention, now, y);
    }
  }

  lemma AllThatIsDue(s: Store, s': Store, entries: seq<Entry>, n: string, retention: int, now: int)
    requires n in s.snaps && RetainedFor(s, s', entries, n, retention, now)
    requires forall y :: y in s.snaps && s.snaps[y].resource == s.snaps[n].resource ==> Among(y, entries)
    ensures forall y :: y in s.snaps && s.snaps[y].resource == s.snaps[n].resource && y != n
                        && s.snaps[y].created + retention < now ==>
              Disposed(s, s', y)
  {
    forall y | y in s.snaps && s.snaps[y].resource == s.snaps[n].resource && y != n
               && s.snaps[y].created + retention < now
      ensures Disposed(s, s', y)
    {
      assert RetainedAt(s, s', entries, n, retention, now, y);
    }
  }

  lemma RetentionStep(s: Store, before: Store, after: Store, entries: seq<Entry>, i: int,
                      n: string, retention: int, now: int)
    requires n in s.snaps && 0 <= i < |entries| && RetainedFor(s, before, entries[..i], n, retention, now)
    requires entries[i].name in s.snaps && Kept(s, before, entries[i].name)
    requires s.snaps[entries[i].name] == entries[i].snap && Same(s, entries[i].name, n)
    requires after == AfterRetention(before, entries[i], n, retention, now)
    ensures RetainedFor(s, after, entries[..i + 1], n, retention, now)
  {
    assert forall k :: 0 <= k < i ==> entries[..i][k].name in s.snaps;
    forall x | x in s.snaps ensures RetainedAt(s, after, entries[..i + 1], n, retention, now, x) {
      assert RetainedAt(s, before, entries[..i], n, retention, now, x);
      AmongOneMore(x, entries, i);
      if x != entries[i].name {
        assert x in after.snaps <==> x in before.snaps;
      }
    }
  }

  function NewSnap(resource: string, at: int): Snap {
    Snap(resource, at, Unset, false, false, false)
  }

  /** Neither the generated name nor the second of creation is taken. */
  predicate Available(s: Store, x: string, resource: string, at: int) {
    x !in s.snaps && forall y :: y in s.snaps && s.snaps[y].resource == resource ==> s.snaps[y].created != at
  }

  /** createSnapshot; the API server picks name and time, both new. */
  method CreateSnapshotResource(c: Cluster, x: string, resource: string, at: int) returns (ok: bool)
    requires c.Valid() && Available(c.store, x, resource, at)
    modifies c
    ensures c.Valid() && Extends(old(c.trace), c.trace)
    ensures c.store == if ok then Put(old(c.store), x, NewSnap(resource, at)) else old(c.store)
    ensures c.reliable ==> ok
  {
    c.HoldsNow();
    AddIsGoodCall(c.store, x, NewSnap(resource, at));
    ok := c.Call(Put(c.store, x, NewSnap(resource, at)));
  }

  ghost predicate NoneOf(s: Store, resource: string) {
    forall x :: x in s.snaps ==> s.snaps[x].resource != resource
  }

  ghost predicate NoneDone(s: Store, resource: string) {
    forall x :: Done(s, x) ==> s.snaps[x].resource != resource
  }

  /** A pass is asked to look after the snapshots of one instance; a duration that does not parse is None. */
  datatype Retaining = Retaining(resource: string, now: int, retention: Option<int>, frequency: Option<int>)

  /** It is the newest completed one, of another instance, or not past its retention. */
  ghost predicate MustStay(s: Store, q: Retaining, y: string)
    requires y in s.snaps
  {
    || s.snaps[y].resource != q.resource || IsNewest(s, y)
    || q.retention.None? || q.now <= s.snaps[y].created + q.retention.value
  }

  /** What a retention pass does, whether it ends with an error or not. x and at: name and time of a new snapshot. */
  ghost predicate RetentionDone(s: Store, q: Retaining, x: string, at: int, s': Store, ok: bool, reliable: bool) {
    && s'.objects == s.objects
    // nothing goes that must stay, and what goes is marked, or gone without ever having had a finalizer
    && (forall y :: y in s.snaps && MustStay(s, q, y) ==> y in s'.snaps && s'.snaps[y] == s.snaps[y])
    && (forall y :: y in s.snaps && y in s'.snaps ==>
          s'.snaps[y] == s.snaps[y] || s'.snaps[y] == s.snaps[y].(marked := true))
    && (forall y :: y in s.snaps && y !in s'.snaps ==> !s.snaps[y].finalizer)
    // on success all goes that need not stay, once there is a completed snapshot
    && (ok && !NoneDone(s, q.resource) ==>
          forall y :: y in s.snaps && !MustStay(s, q, y) ==> y !in s'.snaps || s'.snaps[y].marked)
    && (NoneDone(s, q.resource) ==> forall y :: y in s.snaps ==> y in s'.snaps && s'.snaps[y] == s.snaps[y])
    // at most one snapshot is new: if there was none, or if all are older than the frequency
    && (forall y :: y in s'.snaps && y !in s.snaps ==>
          y == x && s'.snaps[x] == Snap(q.resource, at, Unset, false, false, false))
    && (x in s'.snaps ==> ok)
    && (ok ==> (x in s'.snaps <==> NoneOf(s, q.resource) || (!NoneDone(s, q.resource) && AllOlder(s, q))))
    // errors: a call that fails, or a duration that is needed and does not parse
    && (ok ==> q.retention.Some? && (q.frequency.Some? || NoneDone(s, q.resource)))
    && (reliable && q.retention.Some? && (q.frequency.Some? || NoneDone(s, q.resource)) ==> ok)
  }

  ghost predicate AllOlder(s: Store, q: Retaining) {
    q.frequency.Some? &&
    forall y :: y in s.snaps && s.snaps[y].resource == q.resource ==> s.snaps[y].created + q.frequency.value < q.now
  }

  /** reconcileCloudSqlInstanceSnapshots. */
  method RetentionPass(c: Cluster, q: Retaining, x: string, at: int) returns (ok: bool)
    requires c.Valid() && Available(c.store, x, q.resource, at)
    modifies c
    ensures c.Valid() && Extends(old(c.trace), c.trace)
    ensures RetentionDone(old(c.store), q, x, at, c.store, ok, c.reliable)
  {
    ok := c.Answers();
    if !ok || q.retention.None? {
      return false;
    }
    ghost var s := c.store;
    var entries := GetAllSnapshotsForInstance(c.store, q.resource);
    if entries == [] {
      assert NoneOf(s, q.resource) by {
        assert forall y :: y in s.snaps && s.snaps[y].resource == q.resource ==> Entry(y, s.snaps[y]) in entries;
      }
      ok := CreateSnapshotResource(c, x, q.resource, at);
      return;
    }
    assert !NoneOf(s, q.resource) by { assert IsEntry(entries[0], s, q.resource); }
    var latest := GetLatestSnapshot(c.store, q.resource);
    if latest.None? {
      return;
    }
    ok := RetainListed(c, q, entries, latest.value.name, x, at);
  }

  /** The deletions, then the question whether a new snapshot is due. */
  method RetainListed(c: Cluster, q: Retaining, entries: seq<Entry>, n: string, x: string, at: int) returns (ok: bool)
    requires c.Valid() && Available(c.store, x, q.resource, at) && q.retention.Some?
    requires Lists(entries, c.store, q.resource) && entries != []
    requires forall i, j :: 0 <= i < j < |entries| ==> entries[i].name != entries[j].name
    requires IsNewest(c.store, n) && c.store.snaps[n].resource == q.resource
    modifies c
    ensures c.Valid() && Extends(old(c.trace), c.trace)
    ensures RetentionDone(old(c.store), q, x, at, c.store, ok, c.reliable)
  {
    ghost var s := c.store;
    assert DistinctTimes(s) by { c.HoldsNow(); }
    OnlyOneNewest(s, n);
    ok := ExpireSnapshots(c, entries, q.resource, n, q.retention.value, q.now);
    ghost var kept := c.store;
    if !ok || q.frequency.None? {
      DeletionsDone(s, q, x, at, kept, kept, n, false, c.reliable);
      return false;
    }
    var newest := SortNewestFirst(entries);
    NewestDecides(s, q.resource, entries, newest, q.frequency.value, q.now);
    if Past(newest[0].snap, q.frequency.value, q.now) {
      ok := CreateSnapshotResource(c, x, q.resource, at);
    }
    DeletionsDone(s, q, x, at, kept, c.store, n, ok, c.reliable);
  }

  lemma DeletionsDone(s: Store, q: Retaining, x: string, at: int, kept: Store, s': Store,
                      n: string, ok: bool, reliable: bool)
    requires q.retention.Some? && x !in s.snaps && IsNewest(s, n) && s.snaps[n].resource == q.resource
    requires forall m :: IsNewest(s, m) && s.snaps[m].resource == q.resource ==> m == n
    requires kept.objects == s.objects && kept.snaps.Keys <= s.snaps.Keys
    requires forall y :: y in s.snaps ==> StaysOrGoes(s, kept, y)
    requires forall y :: y in s.snaps && (s.snaps[y].resource != q.resource || y == n
                                          || q.now <= s.snaps[y].created + q.retention.value) ==>
               Kept(s, kept, y)
    requires ok ==> forall y :: y in s.snaps && s.snaps[y].resource == q.resource && y != n
                                && s.snaps[y].created + q.retention.value < q.now ==>
                      Disposed(s, kept, y)
    requires s' == kept || (ok && s' == Put(kept, x, NewSnap(q.resource, at)))
    requires ok ==> q.frequency.Some? && (s' != kept <==> AllOlder(s, q))
    requires reliable && q.frequency.Some? ==> ok
    ensures RetentionDone(s, q, x, at, s', ok, reliable)
  {
    assert Done(s, n) && !NoneDone(s, q.resource) && !NoneOf(s, q.resource);
    assert x !in kept.snaps;
    assert x in s'.snaps <==> s' != kept;
    forall y | y in s.snaps
      ensures StaysOrGoes(s, kept, y) && (y in s'.snaps <==> y in kept.snaps)
      ensures y in s'.snaps ==> s'.snaps[y] == kept.snaps[y]
      ensures MustStay(s, q, y) ==> Kept(s, kept, y)
    {
      if IsNewest(s, y) && s.snaps[y].resource == q.resource {
        assert y == n;
      }
    }
  }

  lemma OnlyOneNewest(s: Store, n: string)
    requires DistinctTimes(s) && IsNewest(s, n)
    ensures forall m :: IsNewest(s, m) && s.snaps[m].resource == s.snaps[n].resource ==> m == n
  {
    forall m | IsNewest(s, m) && s.snaps[m].resource == s.snaps[n].resource ensures m == n {
      assert Same(s, m, n) && Same(s, n, m);
    }
  }

  /** The newest entry alone tells whether a new snapshot is due. */
  lemma NewestDecides(s: Store, resource: string, entries: seq<Entry>, newest: seq<Entry>, frequency: int, now: int)
    requires Lists(entries, s, resource) && entries != [] && |newest| == |entries|
    requires forall e :: e in newest <==> e in entries
    requires forall i, j :: 0 <= i < j < |newest| ==> newest[j].snap.created <= newest[i].snap.created
    ensures newest[0].snap.created + frequency < now <==>
              forall y :: y in s.snaps && s.snaps[y].resource == resource ==> s.snaps[y].created + frequency < now
  {
    assert newest[0] in entries;
    forall y | y in s.snaps && s.snaps[y].resource == resource ensures s.snaps[y].created <= newest[0].snap.created {
      assert Entry(y, s.snaps[y]) in newest;
    }
  }

  // ---------------------------------------------------------------- the skipDelete flag

  method SetFlag(c: Cluster, x: string, flag: bool) returns (ok: bool)
    requires c.Valid() && x in c.store.snaps
    requires c.store.snaps[x].skipDelete && !flag ==> FlagPassedOn(c.store, x)
    modifies c
    ensures c.Valid() && Extends(old(c.trace), c.trace)
    ensures c.store == if ok then Put(old(c.store), x, old(c.store).snaps[x].(skipDelete := flag)) else old(c.store)
    ensures c.reliable ==> ok
  {
    c.HoldsNow();
    PutIsGoodCall(c.store, x, c.store.snaps[x].(skipDelete := flag));
    ok := c.Call(Put(c.store, x, c.store.snaps[x].(skipDelete := flag)));
  }

  /** ClearOthers, as far as the first entries are concerned. */
  ghost predicate ClearedFor(s: Store, s': Store, entries: seq<Entry>, n: string) {
    && FlagsOnly(s, s')
    && forall y :: y in s.snaps ==> s'.snaps[y].skipDelete == (s.snaps[y].skipDelete && !(y != n && Among(y, entries)))
  }

  /** The loop that withdraws the flag from all but the newest. */
  method ClearFlags(c: Cluster, resource: string, n: string) returns (ok: bool)
    requires c.Valid() && IsNewest(c.store, n) && c.store.snaps[n].resource == resource && c.store.snaps[n].skipDelete
    modifies c
    ensures c.Valid() && Extends(old(c.trace), c.trace)
    ensures FlagsOnly(old(c.store), c.store)
    ensures ok ==> c.store == ClearOthers(old(c.store), n)
    ensures c.reliable ==> ok
  {
    ghost var s := c.store;
    var entries := GetAllSnapshotsForInstance(c.store, resource);
    for i := 0 to |entries|
      invariant c.Valid() && Extends(old(c.trace), c.trace)
      invariant ClearedFor(s, c.store, entries[..i], n)
    {
      ghost var before := c.store;
      assert IsEntry(entries[i], s, resource);
      if entries[i].name != n {
        assert FlagPassedOn(before, entries[i].name) by {
          FlagsKeepNewest(s, before, n);
          assert Same(before, entries[i].name, n);
        }
        ok := SetFlag(c, entries[i].name, false);
        if !ok {
          return;
        }
      }
      ClearedStep(s, before, c.store, entries, i, n);
    }
    ok := true;
    AllCleared(s, c.store, entries, resource, n);
  }

  lemma ClearedStep(s: Store, before: Store, after: Store, entries: seq<Entry>, i: int, n: string)
    requires 0 <= i < |entries| && ClearedFor(s, before, entries[..i], n) && entries[i].name in s.snaps
    requires after == if entries[i].name != n
                      then Put(before, entries[i].name, before.snaps[entries[i].name].(skipDelete := false)) else before
    ensures ClearedFor(s, after, entries[..i + 1], n)
  {
    forall y | y in s.snaps
      ensures after.snaps[y].skipDelete == (s.snaps[y].skipDelete && !(y != n && Among(y, entries[..i + 1])))
    {
      AmongOneMore(y, entries, i);
    }
  }

  lemma AllCleared(s: Store, s': Store, entries: seq<Entry>, resource: string, n: string)
    requires Lists(entries, s, resource) && n in s.snaps && s.snaps[n].resource == resource
    requires ClearedFor(s, s', entries[..|entries|], n)
    ensures s' == ClearOthers(s, n)
  {
    assert entries[..|entries|] == entries;
    forall y | y in s.snaps ensures s'.snaps[y] == ClearOthers(s, n).snaps[y] {
      assert s.snaps[y].resource == resource ==> Entry(y, s.snaps[y]) in entries;
    }
    assert s'.snaps == ClearOthers(s, n).snaps;
  }

  /** reconcileSkipDelete; when no call fails it is HandOver for the newest completed snapshot, if there is one. */
  method ReconcileSkipDelete(c: Cluster, x: string) returns (ok: bool)
    requires c.Valid() && x in c.store.snaps
    modifies c
    ensures c.Valid() && Extends(old(c.trace), c.trace)
    ensures FlagsOnly(old(c.store), c.store)
    ensures ok && NoneDone(old(c.store), old(c.store).snaps[x].resource) ==> c.store == old(c.store)
    ensures ok ==> forall n :: IsNewest(old(c.store), n) && Same(old(c.store), x, n) ==>
                     c.store == HandOver(old(c.store), x, n)
    ensures ok ==> forall n, y :: IsNewest(old(c.store), n) && Same(old(c.store), x, n) && y in old(c.store).snaps ==>
                     c.store.snaps[y].skipDelete == FlagAfter(old(c.store), x, n, y)
    ensures c.reliable ==> ok
  {
    ok := c.Answers();
    if !ok {
      return;
    }
    ghost var s := c.store;
    var resource := c.store.snaps[x].resource;
    var latest := GetLatestSnapshot(c.store, resource);
    if latest.None? {
      return;
    }
    var n := latest.value.name;
    assert DistinctTimes(s) by { c.HoldsNow(); }
    OnlyOneNewest(s, n);
    ok := PassFlagOn(c, x, n, latest.value.snap.skipDelete);
    forall y | y in s.snaps ensures HandOver(s, x, n).snaps[y].skipDelete == FlagAfter(s, x, n, y) {
      HandOverFlagOf(s, x, n, y);
    }
  }

  /** had: whether the newest had the flag when it was read. */
  method PassFlagOn(c: Cluster, x: string, n: string, had: bool) returns (ok: bool)
    requires c.Valid() && x in c.store.snaps && IsNewest(c.store, n) && Same(c.store, x, n)
    requires had == c.store.snaps[n].skipDelete
    modifies c
    ensures c.Valid() && Extends(old(c.trace), c.trace)
    ensures FlagsOnly(old(c.store), c.store)
    ensures ok ==> c.store == HandOver(old(c.store), x, n)
    ensures c.reliable ==> ok
  {
    ghost var s := c.store;
    ok := true;
    if x == n {
      ok := SetFlag(c, x, true);
      if !ok {
        return;
      }
      FlagsKeepNewest(s, c.store, n);
    }
    if had {
      ok := ClearFlags(c, c.store.snaps[n].resource, n);
    }
  }

  // ---------------------------------------------------------------- one snapshot

  /** UpdateSnapshotPhase; an error is written over a completed phase as over any other. */
  method UpdatePhase(c: Cluster, x: string, phase: Phase) returns (ok: bool)
    requires c.Valid() && x in c.store.snaps
    requires phase.Complete? ==> c.store.snaps[x].finalizer && !c.store.snaps[x].marked && x in c.store.objects
    requires phase.InProgress? || phase.DeleteInProgress? ==> Done(c.store, x) ==> c.store.snaps[x].marked
    requires !phase.Unset?
    modifies c
    ensures c.Valid() && Extends(old(c.trace), c.trace)
    ensures c.store == if ok then Put(old(c.store), x, old(c.store).snaps[x].(phase := phase)) else old(c.store)
    ensures c.reliable ==> ok
  {
    var snap := c.store.snaps[x];
    c.HoldsNow();
    PutIsGoodCall(c.store, x, snap.(phase := phase));
    ok := c.Call(Put(c.store, x, snap.(phase := phase)));
  }

  datatype Outcome = Errored | Started | Found

  /** CreatePostgresSnapshot: finalizer, then export or, once the object is there, the hand-over of the flag. */
  method CreatePostgresSnapshot(c: Cluster, x: string) returns (r: Outcome)
    requires c.Valid() && x in c.store.snaps && !c.store.snaps[x].marked
    modifies c
    ensures c.Valid() && Extends(old(c.trace), c.trace)
    ensures x in c.store.snaps && c.store.snaps[x].phase == old(c.store).snaps[x].phase && !c.store.snaps[x].marked
    ensures c.store.objects == old(c.store).objects
    ensures r.Found? ==> x in c.store.objects && c.store.snaps[x].finalizer
    ensures r.Started? ==> x !in c.store.objects && c.store.snaps[x].finalizer
    ensures c.reliable ==> (r.Found? <==> x in old(c.store).objects) && !r.Errored?
    ensures r.Found? && old(c.store).snaps[x].finalizer ==>
              forall n :: IsNewest(old(c.store), n) && Same(old(c.store), x, n) ==>
                c.store == HandOver(old(c.store), x, n)
    ensures TouchesOnly(old(c.store), x, c.store)
    ensures r.Found? ==>
              forall n, y :: IsNewest(old(c.store), n) && Same(old(c.store), x, n) && y in old(c.store).snaps ==>
                c.store.snaps[y].skipDelete == FlagAfter(old(c.store), x, n, y)
    ensures r.Started? ==> forall y :: y in old(c.store).snaps ==>
                                         c.store.snaps[y].skipDelete == old(c.store).snaps[y].skipDelete
  {
    ghost var s := c.store;
    var ok := AddFinalizer(c, x);
    ghost var held := c.store;
    FinalizerKeepsNewest(s, held, x);
    if !ok {
      return Errored;
    }
    ok := c.Answers();
    if !ok {
      return Errored;
    }
    if x !in c.store.objects {
      return Started;
    }
    ok := ReconcileSkipDelete(c, x);
    return if ok then Found else Errored;
  }

  /** Flags may change, and of x also the phase, and it may have got its finalizer. */
  ghost predicate TouchesOnly(s: Store, x: string, s': Store) {
    && s'.objects == s.objects && s'.snaps.Keys == s.snaps.Keys
    && (forall y :: y in s.snaps && y != x ==> s'.snaps[y] == s.snaps[y].(skipDelete := s'.snaps[y].skipDelete))
    && (x in s.snaps ==>
          && SameIdentity(s.snaps[x], s'.snaps[x]) && s'.snaps[x].marked == s.snaps[x].marked
          && (s.snaps[x].finalizer ==> s'.snaps[x].finalizer))
  }

  lemma FinalizerKeepsNewest(s: Store, held: Store, x: string)
    requires x in s.snaps && (held == s || held == Put(s, x, s.snaps[x].(finalizer := true)))
    ensures forall n :: IsNewest(s, n) ==> IsNewest(held, n)
    ensures forall n, y :: n in s.snaps && y in s.snaps ==> FlagAfter(held, x, n, y) == FlagAfter(s, x, n, y)
  {
    assert forall y :: Done(held, y) <==> Done(s, y);
    assert forall y, z :: y in s.snaps && z in s.snaps ==> (Same(held, y, z) <==> Same(s, y, z));
  }

  method AddFinalizer(c: Cluster, x: string) returns (ok: bool)
    requires c.Valid() && x in c.store.snaps
    modifies c
    ensures c.Valid() && Extends(old(c.trace), c.trace)
    ensures c.store == if ok then Put(old(c.store), x, old(c.store).snaps[x].(finalizer := true)) else old(c.store)
    ensures c.reliable ==> ok
    ensures ok && old(c.store).snaps[x].finalizer ==> c.store == old(c.store)
  {
    c.HoldsNow();
    PutIsGoodCall(c.store, x, c.store.snaps[x].(finalizer := true));
    ok := c.Call(Put(c.store, x, c.store.snaps[x].(finalizer := true)));
  }

  /**
   deletePostgresSnapshot: the object first, unless the flag keeps it; then the finalizer, and
   with it the resource.
   */
  method DeletePostgresSnapshot(c: Cluster, x: string) returns (ok: bool)
    requires c.Valid() && x in c.store.snaps && c.store.snaps[x].marked
    modifies c
    ensures c.Valid() && Extends(old(c.trace), c.trace)
    ensures old(c.store).snaps[x].skipDelete ==> c.store.objects == old(c.store).objects
    ensures c.store.objects == old(c.store).objects || c.store.objects == old(c.store).objects - {x}
    ensures c.store.snaps == old(c.store).snaps || c.store.snaps == old(c.store).snaps - {x}
    ensures x !in c.store.snaps ==> old(c.store).snaps[x].skipDelete || x !in c.store.objects
    ensures c.reliable ==> x !in c.store.snaps
  {
    if !c.store.snaps[x].skipDelete {
      ok := DeleteObject(c, x);
      if !ok || x in c.store.objects {
        return;
      }
      ok := c.Answers();
      if !ok {
        return;
      }
    }
    c.HoldsNow();
    DropIsGoodCall(c.store, x);
    ok := c.Call(c.store.(snaps := c.store.snaps - {x}));
  }

  /** The deletion of an object may still be under way when the call returns. */
  method DeleteObject(c: Cluster, x: string) returns (ok: bool)
    requires c.Valid() && x in c.store.snaps && c.store.snaps[x].marked && !c.store.snaps[x].skipDelete
    modifies c
    ensures c.Valid() && Extends(old(c.trace), c.trace)
    ensures c.store == old(c.store) || c.store == old(c.store).(objects := old(c.store).objects - {x})
    ensures c.reliable ==> ok && x !in c.store.objects
  {
    var atOnce := c.Answers();
    if !atOnce {
      ok := *;
      return;
    }
    c.HoldsNow();
    ObjectsAreGoodCall(c.store, c.store.objects - {x});
    ok := c.Call(c.store.(objects := c.store.objects - {x}));
  }

  /** What a reconcile of a snapshot does. */
  ghost predicate SnapshotDone(s: Store, x: string, s': Store, reliable: bool) {
    && (x !in s.snaps ==> s' == s)
    && (x in s.snaps && s.snaps[x].marked ==> DeletionDone(s, x, s', reliable))
    && (x in s.snaps && !s.snaps[x].marked ==> CreationDone(s, x, s', reliable))
  }

  /** A marked snapshot: its object goes unless the flag keeps it, then the resource; nothing else changes. */
  ghost predicate DeletionDone(s: Store, x: string, s': Store, reliable: bool)
    requires x in s.snaps
  {
    && s'.snaps - {x} == s.snaps - {x}
    && (s'.objects == s.objects || (!s.snaps[x].skipDelete && s'.objects == s.objects - {x}))
    && (x !in s'.snaps ==> s.snaps[x].skipDelete || x !in s'.objects)
    && (x in s'.snaps ==>
          && s'.snaps[x] == s.snaps[x].(phase := s'.snaps[x].phase)
          && (|| s'.snaps[x].phase == s.snaps[x].phase
              || s'.snaps[x].phase.Failed? || s'.snaps[x].phase.DeleteInProgress?))
    && (reliable ==> x !in s'.snaps)
  }

  /** Any other: complete exactly once its object is there; only its finalizer and the flags change besides. */
  ghost predicate CreationDone(s: Store, x: string, s': Store, reliable: bool)
    requires x in s.snaps
  {
    && x in s'.snaps && TouchesOnly(s, x, s')
    && (s'.snaps[x].phase == s.snaps[x].phase || s'.snaps[x].phase.Failed?
        || s'.snaps[x].phase == if x in s.objects then Complete else InProgress)
    && (s'.snaps[x].phase.Complete? ==> x in s.objects)
    && (reliable ==> s'.snaps[x].finalizer && s'.snaps[x].phase == if x in s.objects then Complete else InProgress)
    && (reliable && x in s.objects ==>
          forall n, y :: IsNewest(s, n) && Same(s, x, n) && y in s.snaps ==>
            s'.snaps[y].skipDelete == FlagAfter(s, x, n, y))
  }

  /** The snapshot controller's Reconcile. */
  method SnapshotReconcile(c: Cluster, x: string)
    requires c.Valid()
    modifies c
    ensures c.Valid() && Extends(old(c.trace), c.trace)
    ensures SnapshotDone(old(c.store), x, c.store, c.reliable)
    ensures c.reliable && IsNewest(old(c.store), x) && !old(c.store).snaps[x].marked ==>
              c.store == HandOver(old(c.store), x, x)
    ensures c.reliable && IsNewest(old(c.store), x) && !old(c.store).snaps[x].marked && OnlyFlagged(old(c.store), x) ==>
              c.store == old(c.store)
  {
    if x !in c.store.snaps {
      return;
    }
    if c.store.snaps[x].marked {
      ReconcileMarked(c, x);
    } else {
      ReconcileUnmarked(c, x);
    }
  }

  method ReconcileMarked(c: Cluster, x: string)
    requires c.Valid() && x in c.store.snaps && c.store.snaps[x].marked
    modifies c
    ensures c.Valid() && Extends(old(c.trace), c.trace)
    ensures DeletionDone(old(c.store), x, c.store, c.reliable)
  {
    var ok := c.Answers();
    if !ok {
      ok := UpdatePhase(c, x, Failed);
      return;
    }
    ok := DeletePostgresSnapshot(c, x);
    if x in c.store.snaps {
      ok := UpdatePhase(c, x, if ok then DeleteInProgress else Failed);
    }
  }

  method ReconcileUnmarked(c: Cluster, x: string)
    requires c.Valid() && x in c.store.snaps && !c.store.snaps[x].marked
    modifies c
    ensures c.Valid() && Extends(old(c.trace), c.trace)
    ensures CreationDone(old(c.store), x, c.store, c.reliable)
    ensures c.reliable && IsNewest(old(c.store), x) ==> c.store == HandOver(old(c.store), x, x)
    ensures c.reliable && IsNewest(old(c.store), x) && OnlyFlagged(old(c.store), x) ==> c.store == old(c.store)
  {
    ghost var s := c.store;
    assert Done(s, x) ==> s.snaps[x].finalizer && x in s.objects by { c.HoldsNow(); }
    var ok := c.Answers();
    if !ok {
      ok := UpdatePhase(c, x, Failed);
      PhaseWritten(s, x, s, Failed, c.store, ok);
      return;
    }
    var r := CreatePostgresSnapshot(c, x);
    ghost var mid := c.store;
    var phase := match r case Errored => Failed case Started => InProgress case Found => Complete;
    ok := UpdatePhase(c, x, phase);
    PhaseWritten(s, x, mid, phase, c.store, ok);
    if c.reliable && IsNewest(s, x) {
      assert mid == HandOver(s, x, x);
      HandOverKeepsPhase(s, x, c.store);
      if OnlyFlagged(s, x) {
        SettledStays(s, x, x);
      }
    }
  }

  lemma PhaseWritten(s: Store, x: string, mid: Store, phase: Phase, s': Store, ok: bool)
    requires x in s.snaps && TouchesOnly(s, x, mid)
    requires s' == if ok then Put(mid, x, mid.snaps[x].(phase := phase)) else mid
    ensures TouchesOnly(s, x, s') && s'.snaps[x].phase == if ok then phase else mid.snaps[x].phase
    ensures s'.snaps[x].finalizer == mid.snaps[x].finalizer
    ensures forall y :: y in s.snaps ==> s'.snaps[y].skipDelete == mid.snaps[y].skipDelete
  {
  }

  lemma HandOverKeepsPhase(s: Store, x: string, s': Store)
    requires x in s.snaps && s.snaps[x].phase.Complete?
    requires s' == Put(HandOver(s, x, x), x, HandOver(s, x, x).snaps[x].(phase := Complete))
    ensures s' == HandOver(s, x, x)
  {
    HandOverFlags(s, x);
    assert s'.snaps == HandOver(s, x, x).snaps;
  }

  // ---------------------------------------------------------------- runs

  datatype Event =
    | PostgresReconciled(q: Retaining, name: string, at: int)
    | SnapshotReconciled(name: string)
    | ExportFinishes(name: string)
    | UserCreates(name: string, resource: string, at: int)

  /** What an event does. */
  ghost predicate Answered(s: Store, e: Event, s': Store, reliable: bool) {
    match e
    case PostgresReconciled(q, x, at) =>
      if Available(s, x, q.resource, at) then
        RetentionDone(s, q, x, at, s', true, reliable) || RetentionDone(s, q, x, at, s', false, reliable)
      else s' == s
    case SnapshotReconciled(x) => SnapshotDone(s, x, s', reliable)
    case ExportFinishes(x) => s' == s.(objects := s.objects + {x})
    case UserCreates(x, resource, at) =>
      || (s' == s && !(reliable && Available(s, x, resource, at)))
      || (Available(s, x, resource, at) && s' == Put(s, x, NewSnap(resource, at)))
  }

  ghost predicate AnsweredAt(stops: seq<Store>, events: seq<Event>, i: int, reliable: bool)
    requires 0 <= i < |events| && i + 1 < |stops|
  {
    Answered(stops[i], events[i], stops[i + 1], reliable)
  }

  /** The states between the events: each event has been answered, in order. */
  ghost predicate Follows(stops: seq<Store>, events: seq<Event>, reliable: bool) {
    |stops| == |events| + 1 && forall i :: 0 <= i < |events| ==> AnsweredAt(stops, events, i, reliable)
  }

  /**
   Any interleaving of the two controllers with exports that finish and snapshots that users ask for.
   stops are the states between the events.
   */
  method RunEvents(c: Cluster, events: seq<Event>) returns (ghost stops: seq<Store>)
    requires c.Valid()
    modifies c
    ensures c.Valid() && Extends(old(c.trace), c.trace)
    ensures Follows(stops, events, c.reliable) && stops[0] == old(c.store) && stops[|events|] == c.store
    ensures forall i :: 0 <= i < |stops| ==> stops[i] in c.trace
  {
    stops := [c.store];
    for i := 0 to |events|
      invariant c.Valid() && Extends(old(c.trace), c.trace)
      invariant |stops| == i + 1 && stops[0] == old(c.store) && stops[i] == c.store
      invariant forall k :: 0 <= k < i ==> AnsweredAt(stops, events, k, c.reliable)
      invariant forall k :: 0 <= k < |stops| ==> stops[k] in c.trace
    {
      ghost var before := stops;
      RunEvent(c, events[i]);
      stops := stops + [c.store];
      StopsGrow(before, stops, events, i, c.reliable);
    }
  }

  lemma StopsGrow(before: seq<Store>, stops: seq<Store>, events: seq<Event>, i: int, reliable: bool)
    requires 0 <= i < |events| && |before| == i + 1 && |stops| == i + 2 && stops[..i + 1] == before
    requires forall k :: 0 <= k < i ==> AnsweredAt(before, events, k, reliable)
    requires Answered(before[i], events[i], stops[i + 1], reliable)
    ensures forall k :: 0 <= k <= i ==> AnsweredAt(stops, events, k, reliable)
  {
    forall k | 0 <= k <= i ensures AnsweredAt(stops, events, k, reliable) {
      assert k < i ==> stops[k] == before[k] && stops[k + 1] == before[k + 1];
      assert k < i ==> AnsweredAt(before, events, k, reliable);
    }
  }

  method RunEvent(c: Cluster, e: Event)
    requires c.Valid()
    modifies c
    ensures c.Valid() && Extends(old(c.trace), c.trace)
    ensures Answered(old(c.store), e, c.store, c.reliable)
  {
    match e
    case PostgresReconciled(q, x, at) =>
      if Available(c.store, x, q.resource, at) {
        var ok := RetentionPass(c, q, x, at);
      }
    case SnapshotReconciled(x) => SnapshotReconcile(c, x);
    case ExportFinishes(x) =>
      c.HoldsNow();
      ObjectsAreGoodCall(c.store, c.store.objects + {x});
      c.Happen(c.store.(objects := c.store.objects + {x}));
    case UserCreates(x, resource, at) =>
      if Available(c.store, x, resource, at) {
        var ok := CreateSnapshotResource(c, x, resource, at);
      }
  }

  /** No error exposed a marked snapshot before state j. */
  ghost predicate Unexposed(trace: seq<Store>, j: int)
    requires 0 <= j < |trace|
  {
    forall k, l :: 0 <= k < l <= j && l == k + 1 ==> !Exposes(trace[k], trace[l])
  }

  /** No error was written over a completed phase before state j. */
  ghost predicate Unregressed(trace: seq<Store>, j: int)
    requires 0 <= j < |trace|
  {
    forall k, l :: 0 <= k < l <= j && l == k + 1 ==> !Regresses(trace[k], trace[l])
  }

  lemma {:induction false} InvUntilExposed(trace: seq<Store>, j: int)
    requires GoodTrace(trace) && 0 <= j < |trace| && Unexposed(trace, j)
    ensures Inv(trace[j])
    decreases j
  {
    if j > 0 {
      InvUntilExposed(trace, j - 1);
      assert GoodCallAt(trace, j - 1);
      CallKeepsInv(trace[j - 1], trace[j]);
    }
  }

  /**
   In every state of a run that no exposing error came before, the newest completed snapshot of
   an instance is not marked and its object is in the bucket.
   */
  lemma NewestKeptInRun(trace: seq<Store>, j: int, n: string)
    requires GoodTrace(trace) && 0 <= j < |trace| && Unexposed(trace, j) && IsNewest(trace[j], n)
    ensures !trace[j].snaps[n].marked && n in trace[j].objects
  {
    InvUntilExposed(trace, j);
    NewestIsKept(trace[j], n);
  }

  lemma UnregressedIsUnexposed(trace: seq<Store>, j: int)
    requires 0 <= j < |trace| && Unregressed(trace, j)
    ensures Unexposed(trace, j)
  {
    forall k, l | 0 <= k < l <= j && l == k + 1 ensures !Exposes(trace[k], trace[l]) {
      assert !Regresses(trace[k], trace[l]);
    }
  }

  /**
   And if no error was written over a completed phase at all, the newest completed snapshot is
   from state i to state j only ever replaced by a newer one.
   */
  lemma {:induction false} NewestNeverLost(trace: seq<Store>, i: int, j: int, n: string) returns (m: string)
    requires GoodTrace(trace) && 0 <= i <= j < |trace| && Unregressed(trace, j) && IsNewest(trace[i], n)
    ensures IsNewest(trace[j], m) && trace[j].snaps[m].resource == trace[i].snaps[n].resource
    ensures trace[i].snaps[n].created <= trace[j].snaps[m].created
    ensures !trace[j].snaps[m].marked && m in trace[j].objects
    decreases j
  {
    UnregressedIsUnexposed(trace, j);
    if i == j {
      m := n;
    } else {
      var k := NewestNeverLost(trace, i, j - 1, n);
      assert GoodCallAt(trace, j - 1) && !Regresses(trace[j - 1], trace[j]);
      InvUntilExposed(trace, j - 1);
      assert KeepsNewest(trace[j - 1], trace[j]) && BaseAt(trace, j);
      m := NewestExists(trace[j], k, trace[j].snaps.Keys);
    }
    NewestKeptInRun(trace, j, m);
  }

  /**
   Two reconciles of the newest completed snapshot, no call failing, leave the flag to it alone;
   settled is the state they reach, and a third leaves it as it is.
   */
  method FlagSettles(c: Cluster, n: string) returns (settled: Store)
    requires c.Valid() && c.reliable && IsNewest(c.store, n) && !c.store.snaps[n].marked
    modifies c
    ensures c.Valid() && Extends(old(c.trace), c.trace)
    ensures n in HandOver(old(c.store), n, n).snaps && settled == HandOver(HandOver(old(c.store), n, n), n, n)
    ensures IsNewest(settled, n) && OnlyFlagged(settled, n)
    ensures c.store == settled
  {
    HandOverSettles(c.store, n);
    HandOverFlags(c.store, n);
    FlagsKeepNewest(c.store, HandOver(c.store, n, n), n);
    SnapshotReconcile(c, n);
    HandOverFlags(c.store, n);
    SnapshotReconcile(c, n);
    settled := c.store;
    SnapshotReconcile(c, n);
  }

  /** A call of a run that withdraws a flag is made only when the newest completed snapshot, another one, has it. */
  lemma FlagWithdrawnOnlyAfterHandOver(trace: seq<Store>, i: int, x: string) returns (n: string)
    requires GoodTrace(trace) && 0 <= i < |trace| - 1 && x in trace[i].snaps && x in trace[i + 1].snaps
    requires trace[i].snaps[x].skipDelete && !trace[i + 1].snaps[x].skipDelete
    ensures IsNewest(trace[i], n) && n != x && Same(trace[i], x, n) && trace[i].snaps[n].skipDelete
  {
    assert GoodCallAt(trace, i);
    assert FlagPassedOn(trace[i], x);
    n :| IsNewest(trace[i], n) && Same(trace[i], x, n) && n != x && trace[i].snaps[n].skipDelete;
  }

  /** An object leaves the bucket only for a marked snapshot without the flag. */
  lemma ObjectGoesOnlyWhenMarked(trace: seq<Store>, i: int, x: string)
    requires GoodTrace(trace) && 0 <= i < |trace| - 1 && x in trace[i].objects && x !in trace[i + 1].objects
    ensures x in trace[i].snaps && trace[i].snaps[x].marked && !trace[i].snaps[x].skipDelete
  {
    assert GoodCallAt(trace, i);
  }

  /**
   From an empty store, whatever happens and whichever calls fail: the newest completed snapshot
   is kept until an error exposes a marked one, and flags and objects go only as said.
   */
  method EveryRun(reliable: bool, events: seq<Event>) returns (c: Cluster, ghost stops: seq<Store>)
    ensures Follows(stops, events, reliable) && stops[0] == Store(map[], {}) && stops[|events|] == c.store
    ensures forall i :: 0 <= i < |stops| ==> stops[i] in c.trace
    ensures fresh(c) && c.trace != [] && c.trace[0] == Store(map[], {}) && c.trace[|c.trace| - 1] == c.store
    ensures forall j, n :: 0 <= j < |c.trace| && Unexposed(c.trace, j) && IsNewest(c.trace[j], n) ==>
              !c.trace[j].snaps[n].marked && n in c.trace[j].objects
    ensures forall i, j :: 0 <= i < j < |c.trace| && j == i + 1 ==> Careful(c.trace[i], c.trace[j])
  {
    EmptyStoreHolds();
    c := new Cluster(Store(map[], {}), reliable);
    stops := RunEvents(c, events);
    ghost var trace := c.trace;
    forall j, n | 0 <= j < |trace| && Unexposed(trace, j) && IsNewest(trace[j], n)
      ensures !trace[j].snaps[n].marked && n in trace[j].objects
    {
      NewestKeptInRun(trace, j, n);
    }
    forall i, j | 0 <= i < j < |trace| && j == i + 1 ensures Careful(trace[i], trace[j]) {
      assert GoodCallAt(trace, i);
    }
  }
}

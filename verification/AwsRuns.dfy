/** What the rules for single calls mean for whole runs. */
module AwsRuns {
  import opened Cidr
  import opened Wrappers
  import opened AwsWorld
  import opened AwsEffects
  import opened AwsCloud
  import opened AwsNetworkProvider
  import opened AwsReconcile

  // ---------------------------------------------------------------- what every state and every call of a run satisfies

  /** An instance has its resource, held by the finalizer, and the whole network. */
  lemma InstanceHasEverything(trace: seq<World>, i: int, c: CrId)
    requires GoodTrace(trace) && 0 <= i < |trace| && c in trace[i].instances
    ensures var w, n := trace[i], trace[i].net;
            && c in w.crs && w.crs[c].finalizer
            && n.vpc.Some? && n.vpc.value.cidr.prefix <= 26 && HasHalf(n, 0) && HasHalf(n, 1)
            && n.rdsGroup.Some? && n.cacheGroup.Some? && n.sg.Some?
            && exists p :: p in n.peerings && Live(n, p) && n.peerings[p].vpcId == n.vpc.value.id
  {
    assert SafeAt(trace, i);
    assert InstanceCovered(trace[i], c);
    var p :| p in trace[i].net.peerings && Live(trace[i].net, p);
    assert trace[i].net.peerings[p].vpcId == trace[i].net.vpc.value.id;
  }

  /**
   Without a VPC nothing of the operator's network exists; with one, every cluster route names a
   live peering to it.
   */
  lemma NothingWithoutVpc(trace: seq<World>, i: int)
    requires GoodTrace(trace) && 0 <= i < |trace|
    ensures var n := trace[i].net;
            n.vpc.None? ==> NothingLeft(n) && NoClusterRoutes(n) && trace[i].instances == map[]
    ensures var n := trace[i].net;
            forall t, d :: t in n.tables && n.tables[t].vpcId == CLUSTER_VPC && d in n.tables[t].routes ==>
              n.vpc.Some? && d == n.vpc.value.cidr && Live(n, n.tables[t].routes[d])
  {
    assert SafeAt(trace, i);
    if trace[i].net.vpc.None? {
      NoInstanceWithoutVpc(trace[i]);
    }
  }

  /** An instance is created only for a resource with finalizer that is not going, on a network that is ready for it. */
  lemma CreatedOnReadyNetwork(trace: seq<World>, i: int, c: CrId)
    requires GoodTrace(trace) && 0 <= i < |trace| - 1 && c !in trace[i].instances && c in trace[i + 1].instances
    ensures c in trace[i].crs && Ready(trace[i].net)
    ensures var r := trace[i].crs[c]; r.finalizer && r.aws && !r.deleting && !r.annotated
  {
    assert GoodStepAt(trace, i);
  }

  // ---------------------------------------------------------------- one instance per Postgres resource

  /** The resource is there, and is the same one, from state i to state j. */
  ghost predicate Stays(trace: seq<World>, c: CrId, i: int, j: int)
    requires 0 <= i <= j < |trace|
  {
    forall k :: i <= k <= j ==> c in trace[k].crs
  }

  lemma {:induction false} ServedForGood(trace: seq<World>, c: CrId, i: int, j: int)
    requires GoodTrace(trace) && 0 <= i <= j < |trace| && Stays(trace, c, i, j) && trace[i].crs[c].served
    ensures trace[j].crs[c].served
    decreases j
  {
    if i < j {
      ServedForGood(trace, c, i, j - 1);
      assert GoodStepAt(trace, j - 1);
    }
  }

  /** Details have been handed out at i, and the resource is there until j. */
  ghost predicate ServedThrough(trace: seq<World>, c: CrId, i: int, j: int) {
    c.kind.Postgres? && 0 <= i <= j < |trace| - 1 && Stays(trace, c, i, j) && trace[i].crs[c].served
  }

  ghost predicate CreatedAt(trace: seq<World>, c: CrId, j: int)
    requires 0 <= j < |trace| - 1
  {
    c in trace[j + 1].instances && c !in trace[j].instances
  }

  ghost predicate OneInstanceEach(trace: seq<World>) {
    forall c: CrId, i, j :: ServedThrough(trace, c, i, j) ==> !CreatedAt(trace, c, j)
  }

  /**
   Once connection details of a Postgres resource have been handed out, no later call of the run
   creates an instance for it.
   */
  lemma NoSecondInstance(trace: seq<World>, c: CrId, i: int, j: int)
    requires GoodTrace(trace) && ServedThrough(trace, c, i, j)
    ensures !CreatedAt(trace, c, j)
  {
    ServedForGood(trace, c, i, j);
    assert GoodStepAt(trace, j);
  }

  /**
   A Redis resource whose annotation was never stored gets a second instance when the one it
   handed out vanishes: at state k of the run it is served and without instance, at the end it has one again.
   */
  method RedisIsCreatedAgain(cloud: Cloud, c: CrId, cidr: Net) returns (ghost k: int)
    requires cloud.Valid() && cloud.reliable && Connectable(cloud.world.net)
    requires c.kind.Redis? && c in cloud.world.crs && c in cloud.world.instances
    requires cloud.world.instances[c].status.Available?
    requires var r := cloud.world.crs[c]; r.aws && !r.deleting && !r.annotated
    modifies cloud
    ensures cloud.Valid() && Extends(old(cloud.trace), cloud.trace) && |old(cloud.trace)| <= k < |cloud.trace|
    ensures c in cloud.trace[k].crs && cloud.trace[k].crs[c].served && c !in cloud.trace[k].instances
    ensures c in cloud.world.instances
  {
    CreateReconcile(cloud, c, Pass(Some(cidr), true));
    OtherParty(cloud, InstanceVanishes(c));
    k := |cloud.trace| - 1;
    CreateReconcile(cloud, c, Pass(Some(cidr), true));
  }

  /**
   From nothing, two passes on a cloud that answers: the first makes the VPC and no instance, the
   second the instance.
   */
  method TwoPasses(cloud: Cloud, c: CrId, cidr: Net)
    requires cloud.Valid() && cloud.reliable && cloud.world.net.vpc.None? && HasClusterTable(cloud.world.net)
    requires c in cloud.world.crs && cloud.world.crs[c].aws && !cloud.world.crs[c].deleting
    requires !cloud.world.crs[c].annotated
    requires 16 <= cidr.prefix <= 26 && !ShareAddress(cloud.world.net.cluster, cidr)
    modifies cloud
    ensures cloud.Valid() && Extends(old(cloud.trace), cloud.trace)
    ensures c in cloud.world.instances && InstanceCovered(cloud.world, c)
  {
    assert c !in cloud.world.instances by {
      cloud.IsSafe();
      NoInstanceWithoutVpc(cloud.world);
    }
    CreateReconcile(cloud, c, Pass(Some(cidr), true));
    CreateReconcile(cloud, c, Pass(Some(cidr), true));
    cloud.IsSafe();
  }

  // ---------------------------------------------------------------- the VPC is not left behind

  /** A resource that goes in this step is an AWS resource with its finalizer, so it goes through a teardown. */
  ghost predicate GuardedStep(w: World, w': World) {
    forall c :: c in w.crs && c !in w'.crs ==> w.crs[c].aws && w.crs[c].finalizer
  }

  ghost predicate AllGuarded(trace: seq<World>) {
    forall i, j :: 0 <= i < j < |trace| && j == i + 1 ==> GuardedStep(trace[i], trace[j])
  }

  lemma GuardedStepKeeps(w: World, w': World)
    requires GoodStep(w, w') && GuardedStep(w, w') && !Orphaned(w)
    ensures !Orphaned(w')
  {
    if Orphaned(w') {
      var c :| c in w.crs && w.crs.Keys == {c} && !(w.crs[c].aws && w.crs[c].finalizer);
      assert false;
    }
  }

  /** If all resources go that way, an existing VPC always has a resource that will tear it down. */
  lemma {:induction false} NeverOrphaned(trace: seq<World>, j: int)
    requires GoodTrace(trace) && 0 <= j < |trace| && !Orphaned(trace[0])
    requires AllGuarded(trace)
    ensures trace[j].net.vpc.Some? ==> trace[j].crs != map[]
    decreases j
  {
    if j > 0 {
      NeverOrphaned(trace, j - 1);
      assert GoodStepAt(trace, j - 1);
      GuardedStepKeeps(trace[j - 1], trace[j]);
    }
  }

  /** A user's deletion leaves the VPC behind exactly when it takes the only resource before it got its finalizer. */
  lemma UserOrphansIff(w: World, c: CrId)
    requires Safe(w) && c in w.crs
    ensures Orphaned(UserDelete(w, c)) <==> w.net.vpc.Some? && w.crs.Keys == {c} && !w.crs[c].finalizer
  {
    assert c in w.crs.Keys;
    if w.crs[c].finalizer {
      assert c in UserDelete(w, c).crs;
    } else if w.crs.Keys != {c} {
      var d :| d in w.crs.Keys && d != c;
      assert d in UserDelete(w, c).crs;
    }
  }

  /** The event drops a resource that has not gone through a teardown. */
  predicate DropsUntorn(w: World, e: Event, c: CrId) {
    && c in w.crs
    && (|| (e == UserDeletes(c) && !w.crs[c].finalizer)
        || (e == OtherProviderReleases(c) && !w.crs[c].aws && w.crs[c].deleting))
  }

  /**
   Of all that users, other providers and the cloud do, exactly this leaves a VPC behind: the
   only resource goes untorn, which it can only if it is not an AWS resource with its finalizer.
   Reconciles never do (AwsReconcile.Reconcile).
   */
  lemma OrphansIff(w: World, e: Event)
    requires Safe(w) && !e.Reconciled?
    ensures Orphaned(Effect(w, e)) && !Orphaned(w) <==>
              w.net.vpc.Some? && exists c :: w.crs.Keys == {c} && DropsUntorn(w, e, c)
    ensures forall c :: DropsUntorn(w, e, c) ==> !(w.crs[c].aws && w.crs[c].finalizer)
  {
    EffectKeepsVpc(w, e);
    if Effect(w, e).crs == map[] && w.crs != map[] {
      LastOneDropped(w, e);
    }
    forall c | w.crs.Keys == {c} && DropsUntorn(w, e, c) ensures Effect(w, e).crs == map[] && w.crs != map[] {
      assert c in w.crs && forall d :: d in w.crs ==> d in w.crs.Keys;
    }
  }

  lemma EffectKeepsVpc(w: World, e: Event)
    ensures Effect(w, e).net.vpc == w.net.vpc
  {
  }

  /** Only two events drop resources, and they drop one. */
  lemma LastOneDropped(w: World, e: Event)
    requires w.crs != map[] && Effect(w, e).crs == map[]
    ensures exists c :: w.crs.Keys == {c} && DropsUntorn(w, e, c)
  {
    assert e.UserDeletes? || e.OtherProviderReleases?;
    assert w.crs.Keys == {e.c} by {
      assert forall d :: d in w.crs && d != e.c ==> d in Effect(w, e).crs;
    }
    assert DropsUntorn(w, e, e.c);
  }

  /**
   A run that does it: the first resource makes the VPC, a second one comes, the first is
   deleted while it is not the last, and the second goes untorn, either because it never got a
   finalizer or because another provider holds it.
   */
  method LeavesVpcBehind(w: World, a: CrId, b: CrId, cidr: Net, foreign: bool) returns (cloud: Cloud)
    requires Fresh(w) && HasClusterTable(w.net) && a != b && ValidBlock(cidr, w.net.cluster)
    ensures fresh(cloud) && cloud.Valid() && cloud.trace[0] == w && Orphaned(cloud.world)
  {
    cloud := TwoResources(w, a, b, cidr, foreign);
    assert b in cloud.world.crs.Keys;
    DeleteReconcile(cloud, a);
    assert cloud.world.crs.Keys == {b};
    OtherParty(cloud, UserDeletes(b));
    OtherParty(cloud, OtherProviderReleases(b));
    assert cloud.world.crs == map[];
  }

  /** The run up to the point where the first of two resources is being deleted. */
  method TwoResources(w: World, a: CrId, b: CrId, cidr: Net, foreign: bool) returns (cloud: Cloud)
    requires Fresh(w) && HasClusterTable(w.net) && a != b && ValidBlock(cidr, w.net.cluster)
    ensures fresh(cloud) && cloud.Valid() && cloud.reliable && cloud.trace[0] == w
    ensures cloud.world.net.vpc.Some? && cloud.world.instances == map[]
    ensures cloud.world.crs.Keys == {a, b} && cloud.world.crs[a] == Cr(true, true, true, false, false)
    ensures cloud.world.crs[b] == Cr(!foreign, foreign, false, false, false)
  {
    cloud := FirstResource(w, a, cidr);
    OtherParty(cloud, UserCreates(b, !foreign));
    OtherParty(cloud, OtherProviderHolds(b));
    OtherParty(cloud, UserDeletes(a));
  }

  method FirstResource(w: World, a: CrId, cidr: Net) returns (cloud: Cloud)
    requires Fresh(w) && HasClusterTable(w.net) && ValidBlock(cidr, w.net.cluster)
    ensures fresh(cloud) && cloud.Valid() && cloud.reliable && cloud.trace[0] == w
    ensures cloud.world.net.vpc.Some? && cloud.world.instances == map[]
    ensures cloud.world.crs == map[a := Cr(true, true, false, false, false)]
  {
    FreshIsSafe(w);
    cloud := new Cloud(w, true);
    OtherParty(cloud, UserCreates(a, true));
    CreateReconcile(cloud, a, Pass(Some(cidr), true));
  }

  // ---------------------------------------------------------------- teardown

  /** The last resource with its VPC and nothing but a deleted peering: a safe state that no pass gets out of. */
  lemma StuckExists(cluster: Net, cidr: Net, c: CrId)
    requires ValidBlock(cidr, cluster)
    ensures var net := Network(cluster, Some(VpcRecord(1, cidr)), map[], None, None, None,
                               map[2 := Peering(1, Deleting)],
                               map[3 := RouteTable(CLUSTER_VPC, false, true, map[])], 4);
            var w := World(map[c := Cr(true, true, true, true, false)], map[], net);
            Safe(w) && Stuck(w, c) && !Removable(w, c)
  {
  }

  /** One more resource, of whatever provider, and the next pass that is refused nothing removes it. */
  lemma NewResourceFrees(w: World, c: CrId, d: CrId, aws: bool)
    requires Stuck(w, c) && d != c
    ensures !Removable(w, c) && Removable(Effect(w, UserCreates(d, aws)), c)
  {
    assert d !in w.crs.Keys;
    assert d in Effect(w, UserCreates(d, aws)).crs.Keys;
  }

  /** A call that takes anything of the network away is made only when no instance is left. */
  lemma TeardownNeedsNoInstance(trace: seq<World>, i: int)
    requires GoodTrace(trace) && 0 <= i < |trace| - 1 && !Keeps(trace[i].net, trace[i + 1].net)
    ensures trace[i].instances == map[]
  {
    assert GoodStepAt(trace, i);
  }

  // ---------------------------------------------------------------- every run from the start

  /** What has been said of single states, for one of them. */
  ghost predicate StateHolds(w: World) {
    && (forall c :: c in w.instances ==>
          c in w.crs && w.crs[c].finalizer && BothHalves(w.net) && w.net.rdsGroup.Some? && w.net.cacheGroup.Some?
          && w.net.sg.Some? && !NoLivePeering(w.net))
    && (w.net.vpc.None? ==> NothingLeft(w.net) && NoClusterRoutes(w.net) && w.instances == map[])
    && ClusterRoutesLive(w.net)
  }

  /** And of single calls. */
  ghost predicate CallHolds(w: World, w': World) {
    && (forall c :: c in w'.instances && c !in w.instances ==>
          c in w.crs && w.crs[c].finalizer && !w.crs[c].deleting && !w.crs[c].annotated && Ready(w.net))
    && (!Keeps(w.net, w'.net) ==> w.instances == map[])
    && (forall c :: c in w'.crs && NewlyServed(w, w', c) ==> c in w.instances && w.instances[c].status.Available?)
    && (w.net.vpc.None? && w'.net.vpc.Some? ==> HasGuard(w))
  }

  lemma StatesHold(trace: seq<World>, i: int)
    requires GoodTrace(trace) && 0 <= i < |trace|
    ensures StateHolds(trace[i])
  {
    NothingWithoutVpc(trace, i);
    forall c | c in trace[i].instances
      ensures c in trace[i].crs && trace[i].crs[c].finalizer && BothHalves(trace[i].net) && trace[i].net.rdsGroup.Some?
      ensures trace[i].net.cacheGroup.Some? && trace[i].net.sg.Some? && !NoLivePeering(trace[i].net)
    {
      InstanceHasEverything(trace, i, c);
    }
  }

  lemma CallsHold(trace: seq<World>, i: int)
    requires GoodTrace(trace) && 0 <= i < |trace| - 1
    ensures CallHolds(trace[i], trace[i + 1])
  {
    forall c | c in trace[i + 1].instances && c !in trace[i].instances
      ensures c in trace[i].crs && trace[i].crs[c].finalizer && !trace[i].crs[c].deleting
      ensures !trace[i].crs[c].annotated && Ready(trace[i].net)
    {
      CreatedOnReadyNetwork(trace, i, c);
    }
    if !Keeps(trace[i].net, trace[i + 1].net) {
      TeardownNeedsNoInstance(trace, i);
    }
    forall c | c in trace[i + 1].crs && NewlyServed(trace[i], trace[i + 1], c) ensures MayServe(trace[i], c) {
      ServedOnlyWhenAvailable(trace, i, c);
    }
    assert GoodStepAt(trace, i);
  }

  /** Details are handed out only while the instance is available. */
  lemma ServedOnlyWhenAvailable(trace: seq<World>, i: int, c: CrId)
    requires GoodTrace(trace) && 0 <= i < |trace| - 1 && c in trace[i + 1].crs && NewlyServed(trace[i], trace[i + 1], c)
    ensures c in trace[i].instances && trace[i].instances[c].status.Available?
  {
    assert GoodStepAt(trace, i);
  }

  /** From a fresh start, whatever happens and whichever calls fail: all of the above, of every state and every call. */
  method EveryRun(w: World, reliable: bool, events: seq<Event>) returns (cloud: Cloud, ghost stops: seq<World>)
    requires Fresh(w)
    ensures Follows(stops, events, reliable) && stops[0] == w && stops[|events|] == cloud.world
    ensures forall i :: 0 <= i < |stops| ==> stops[i] in cloud.trace
    ensures fresh(cloud) && cloud.trace != [] && cloud.trace[0] == w && cloud.trace[|cloud.trace| - 1] == cloud.world
    ensures forall i :: 0 <= i < |cloud.trace| ==> StateHolds(cloud.trace[i])
    ensures forall i, j :: 0 <= i < j < |cloud.trace| && j == i + 1 ==> CallHolds(cloud.trace[i], cloud.trace[j])
    ensures OneInstanceEach(cloud.trace)
    ensures AllGuarded(cloud.trace) ==> forall i :: 0 <= i < |cloud.trace| ==> !Orphaned(cloud.trace[i])
  {
    FreshIsSafe(w);
    cloud := new Cloud(w, reliable);
    stops := RunEvents(cloud, events);
    ghost var trace := cloud.trace;
    forall i | 0 <= i < |trace| ensures StateHolds(trace[i]) {
      StatesHold(trace, i);
    }
    forall i, j | 0 <= i < j < |trace| && j == i + 1 ensures CallHolds(trace[i], trace[j]) {
      CallsHold(trace, i);
    }
    forall c: CrId, i, j | ServedThrough(trace, c, i, j) ensures !CreatedAt(trace, c, j) {
      NoSecondInstance(trace, c, i, j);
    }
    if AllGuarded(trace) {
      forall i | 0 <= i < |trace| ensures !Orphaned(trace[i]) {
        NeverOrphaned(trace, i);
      }
    }
  }
}

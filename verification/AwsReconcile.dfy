/**
 The Postgres and Redis reconciles on AWS (controllers/postgres/postgres_controller.go,
 pkg/providers/aws/provider_postgres.go, pkg/providers/aws/provider_redis.go), and whole runs:
 any sequence of reconciles, user actions and cloud events, with any call failing.
 */
module AwsReconcile {
  import opened Cidr
  import opened Wrappers
  import opened AwsWorld
  import opened AwsEffects
  import opened AwsCloud
  import opened AwsNetworkProvider

  // ---------------------------------------------------------------- resources

  /** IsLastResource counts the resources of both kinds, whatever their provider. */
  function IsLastResource(crs: map<CrId, Cr>): (last: bool)
    ensures last <==> exists c :: crs.Keys == {c}
  {
    var postgres := set c | c in crs && c.kind.Postgres?;
    var redis := set c | c in crs && c.kind.Redis?;
    LastIffSingle(crs.Keys, postgres, redis);
    if |postgres| > 1 then false else |postgres| + |redis| == 1
  }

  lemma LastIffSingle(all: set<CrId>, postgres: set<CrId>, redis: set<CrId>)
    requires postgres == (set c | c in all && c.kind.Postgres?) && redis == set c | c in all && c.kind.Redis?
    ensures |postgres| + |redis| == 1 <==> exists c :: all == {c}
  {
    assert all == postgres + redis && postgres !! redis;
    assert |all| == |postgres| + |redis|;
    if |all| == 1 {
      var c :| c in all;
      assert |all - {c}| == 0;
      assert all == {c};
    }
  }

  function PutCr(w: World, c: CrId, r: Cr): World {
    w.(crs := w.crs[c := r])
  }

  /** Storing a resource back is safe if it keeps what its instance and earlier hand-outs rely on. */
  lemma PutCrSafe(w: World, c: CrId, r: Cr)
    requires Safe(w) && CrSafe(c, r)
    requires c in w.crs ==>
              (w.crs[c].finalizer ==> r.finalizer) && r.aws == w.crs[c].aws && (w.crs[c].served ==> r.served)
    requires NewlyServed(w, PutCr(w, c, r), c) ==> MayServe(w, c)
    ensures Safe(PutCr(w, c, r)) && GoodStep(w, PutCr(w, c, r))
  {
    var w' := PutCr(w, c, r);
    assert c in w'.crs;
    forall d | d in w'.instances ensures InstanceCovered(w', d) {
      assert InstanceCovered(w, d);
    }
  }

  /** A resource may go when it has no instance, and take the last guard of a VPC along only if it never guarded it. */
  lemma DropCrSafe(w: World, c: CrId)
    requires Safe(w) && c in w.crs && c !in w.instances
    requires w.net.vpc.Some? && w.crs.Keys == {c} ==> !(w.crs[c].aws && w.crs[c].finalizer)
    ensures Safe(w.(crs := w.crs - {c})) && GoodStep(w, w.(crs := w.crs - {c}))
  {
    var w' := w.(crs := w.crs - {c});
    forall d | d in w'.instances ensures InstanceCovered(w', d) {
      assert InstanceCovered(w, d);
    }
    if Orphaned(w') && w.net.vpc.Some? {
      assert w.crs.Keys == {c} by {
        assert forall d :: d in w.crs && d != c ==> d in w'.crs;
      }
    }
  }

  method UpdateCr(cloud: Cloud, c: CrId, r: Cr) returns (ok: bool)
    requires cloud.Valid() && c in cloud.world.crs && CrSafe(c, r)
    requires cloud.world.crs[c].finalizer ==> r.finalizer
    requires r.aws == cloud.world.crs[c].aws && cloud.world.crs[c].served == r.served
    modifies cloud
    ensures cloud.Valid() && Extends(old(cloud.trace), cloud.trace)
    ensures cloud.world == if ok then PutCr(old(cloud.world), c, r) else old(cloud.world)
    ensures cloud.reliable ==> ok
  {
    cloud.IsSafe();
    PutCrSafe(cloud.world, c, r);
    ok := cloud.Call(PutCr(cloud.world, c, r));
  }

  // ---------------------------------------------------------------- create

  /** What the network stages do, and when they succeed. */
  ghost predicate NetworkStage(n: Network, pass: Pass, n': Network, ok: bool, reliable: bool) {
    && (pass.cidr.None? ==> n' == n)
    && (n.vpc.Some? ==> n'.vpc == n.vpc)
    && (n.vpc.None? && n'.vpc.Some? ==> pass.cidr.Some? && n'.vpc.value.cidr == pass.cidr.value)
    && (ok ==> Ready(n') && Connectable(n') && n.vpc.Some?)
    && (reliable && pass.cidr.Some? && n.vpc.Some? ==> (ok <==> Connectable(n)))
    && (reliable && pass.cidr.Some? && n.vpc.None? ==>
          (n'.vpc.Some? <==> pass.appears && ValidBlock(pass.cidr.value, n.cluster)))
    && (reliable && FirstVpc(n, n') ==> Connectable(n'))
  }

  /** The three network stages; success means the network is ready for an instance. */
  method ReconcileStandaloneNetwork(cloud: Cloud, pass: Pass) returns (ok: bool)
    requires cloud.Valid() && HasGuard(cloud.world)
    modifies cloud
    ensures cloud.Valid() && Extends(old(cloud.trace), cloud.trace)
    ensures cloud.world == old(cloud.world).(net := cloud.world.net)
    ensures NetworkStage(old(cloud.world.net), pass, cloud.world.net, ok, cloud.reliable)
  {
    cloud.IsSafe();
    if pass.cidr.None? {
      return false;
    }
    var network := CreateNetwork(cloud, pass.cidr.value, pass.appears);
    if network.Failure? {
      return false;
    }
    ghost var created := cloud.world.net;
    ghost var p: nat;
    ok, p := ConnectNetwork(cloud, network.value);
    if old(cloud.world.net).vpc.Some? {
      ConnectableCreated(old(cloud.world.net), created);
    } else if cloud.reliable && HasClusterTable(old(cloud.world.net)) {
      FirstPassConnectable(old(cloud.world.net), pass.cidr.value, cloud.world.net);
    }
    if ok {
      AllStages(created, cloud.world.net, p);
      assert Connectable(cloud.world.net) by {
        cloud.IsSafe();
        ReadyIsConnectable(cloud.world.net);
      }
    }
  }

  /** The pass has created the VPC, in an account where the cluster has a route table. */
  ghost predicate FirstVpc(n: Network, n': Network) {
    n.vpc.None? && n'.vpc.Some? && HasClusterTable(n)
  }

  /** Nothing stands in the way of a connection to the VPC: no refused peering, no route to a peering that is gone. */
  ghost predicate Connectable(n: Network) {
    && n.vpc.Some? && HasTable(n, n.vpc.value) && HasClusterTable(n) && !LivesRejected(n)
    && forall t :: t in n.tables && n.tables[t].vpcId == n.vpc.value.id ==> TakesRoute(n, n.tables[t])
  }

  ghost predicate TakesRoute(n: Network, table: RouteTable) {
    if n.cluster in table.routes then Live(n, table.routes[n.cluster]) else table.accepts
  }

  /** The same, seen from the tables with the owner tag. */
  ghost predicate TaggedConnectable(n: Network) {
    && !Untagged(n) && HasClusterTable(n) && !LivesRejected(n)
    && forall t :: t in n.tables && n.tables[t].tagged ==> TakesRoute(n, n.tables[t])
  }

  lemma ConnectableCreated(n: Network, created: Network)
    requires n.vpc.Some? && Wired(n, created) && SubnetsReady(created)
    requires forall t :: t in created.tables && created.tables[t].tagged ==> created.tables[t].vpcId == n.vpc.value.id
    ensures HasTable(n, n.vpc.value) && (TaggedConnectable(created) <==> Connectable(n))
  {
    var t0 :| t0 in created.tables && created.tables[t0].vpcId == created.vpc.value.id;
    assert n.tables[t0].vpcId == n.vpc.value.id && created.tables[t0].tagged;
    assert HasClusterTable(created) <==> HasClusterTable(n);
    forall t | t in n.tables
      ensures created.tables[t].tagged <==> n.tables[t].vpcId == n.vpc.value.id
      ensures TakesRoute(n, n.tables[t]) <==> TakesRoute(created, created.tables[t])
    {
      assert created.tables[t].vpcId == n.tables[t].vpcId;
    }
  }

  /** Peering, then connection. The pass that creates the VPC finds no tagged route table and stops here. */
  method ConnectNetwork(cloud: Cloud, v: VpcRecord) returns (ok: bool, ghost p: nat)
    requires cloud.Valid() && cloud.world.net.vpc == Some(v)
    modifies cloud
    ensures cloud.Valid() && Extends(old(cloud.trace), cloud.trace)
    ensures cloud.world == old(cloud.world).(net := cloud.world.net)
    ensures ok ==> !Untagged(old(cloud.world.net)) && Connected(old(cloud.world.net), cloud.world.net, p)
    ensures cloud.world.net.vpc == Some(v)
    ensures cloud.reliable ==> (ok <==> TaggedConnectable(old(cloud.world.net)))
    ensures cloud.reliable && Untagged(old(cloud.world.net)) && !LivesRejected(old(cloud.world.net)) ==>
              OwnTablesSame(old(cloud.world.net), cloud.world.net) && !LivesRejected(cloud.world.net)
    ensures forall t :: t in old(cloud.world.net).tables && old(cloud.world.net).tables[t].tagged ==>
              old(cloud.world.net).tables[t].vpcId == v.id
  {
    ghost var created := cloud.world.net;
    cloud.IsSafe();
    var q: nat;
    ok, q := CreateNetworkPeering(cloud, v);
    p := q;
    if !ok {
      return;
    }
    ghost var peered := cloud.world.net;
    assert HasClusterTable(peered) && OwnFit(peered, p) <==> TaggedConnectable(created) by {
      cloud.IsSafe();
      FitsIffConnectable(created, peered, p);
    }
    assert !LivesRejected(peered) by {
      cloud.IsSafe();
      assert forall r :: r in peered.peerings && peered.peerings[r].status.Rejected? ==> Live(peered, r) && r == p;
    }
    ok := CreateNetworkConnection(cloud, v, q);
    if ok {
      NotTheFirstPass(created, peered, cloud.world.net);
      assert Live(cloud.world.net, p);
    }
  }

  ghost predicate OwnTablesSame(n: Network, n': Network) {
    && n'.vpc == n.vpc && n'.cluster == n.cluster && n'.tables.Keys == n.tables.Keys
    && (forall t :: t in n.tables ==> n'.tables[t].vpcId == n.tables[t].vpcId)
    && (forall t :: t in n.tables && n.tables[t].vpcId != CLUSTER_VPC ==> n'.tables[t] == n.tables[t])
  }

  /** What the pass that creates the VPC leaves behind lets the next one through. */
  lemma FirstPassConnectable(n: Network, cidr: Net, n': Network)
    requires NetSafe(n) && n.vpc.None? && HasClusterTable(n)
    requires OwnTablesSame(AddVpc(n, cidr), n') && !LivesRejected(n')
    ensures Connectable(n')
  {
    var created := AddVpc(n, cidr);
    assert n.next + 1 in created.tables;
    assert HasTable(n', n'.vpc.value) by { assert n'.tables[n.next + 1].vpcId == n'.vpc.value.id; }
    var t0 :| t0 in n.tables && n.tables[t0].vpcId == CLUSTER_VPC;
    assert n'.tables[t0].vpcId == CLUSTER_VPC;
    forall t | t in n'.tables && n'.tables[t].vpcId == n'.vpc.value.id ensures TakesRoute(n', n'.tables[t]) {
      assert created.tables[t].vpcId == n.next;
      assert t == n.next + 1;
    }
  }

  /** A network that has let an instance through lets the next one through as well. */
  lemma ReadyIsConnectable(n: Network)
    requires NetSafe(n) && Ready(n)
    ensures Connectable(n)
  {
    var p :| p in n.peerings && Accepted(n.peerings[p].status) && RoutedThrough(n, n.vpc.value, p);
    assert Live(n, p);
    assert forall q :: q in n.peerings && n.peerings[q].status.Rejected? ==> Live(n, q);
  }

  /** What the two last stages add to a network. */
  ghost predicate Connected(created: Network, n: Network, p: nat) {
    && n == created.(peerings := n.peerings, next := n.next, sg := n.sg, tables := n.tables)
    && n.tables.Keys == created.tables.Keys
    && (forall t :: t in n.tables ==> n.tables[t] == created.tables[t].(routes := n.tables[t].routes))
    && n.vpc.Some? && n.sg.Some? && n.sg.value.admitsCluster && Usable(n, p) && Accepted(n.peerings[p].status)
    && (TablesTagged(n, n.vpc.value) ==> RoutedThrough(n, n.vpc.value, p))
  }

  lemma FitsIffConnectable(created: Network, peered: Network, p: nat)
    requires NetSafe(created) && PeeringsKept(created, peered) && NetSafe(peered)
    requires Live(peered, p) && !LivesRejected(created)
    requires p !in created.peerings ==> p == created.next
    requires p in created.peerings ==> Live(created, p)
    ensures HasClusterTable(peered) && OwnFit(peered, p) <==> TaggedConnectable(created)
  {
    assert HasClusterTable(peered) <==> HasClusterTable(created);
    forall t | t in created.tables
      ensures Fits(peered, t, peered.cluster, p) <==> TakesRoute(created, created.tables[t])
    {
      FitsIffTakes(created, peered, t, p);
    }
  }

  lemma FitsIffTakes(created: Network, peered: Network, t: nat, p: nat)
    requires IdsUsed(created) && PeeringsKept(created, peered) && OneLivePeering(peered)
    requires t in created.tables && Live(peered, p)
    requires p !in created.peerings ==> p == created.next
    requires p in created.peerings ==> Live(created, p)
    ensures Fits(peered, t, peered.cluster, p) <==> TakesRoute(created, created.tables[t])
  {
    var routes := created.tables[t].routes;
    if created.cluster in routes && Live(created, routes[created.cluster]) {
      assert Live(peered, routes[created.cluster]);
    }
  }

  lemma NotTheFirstPass(created: Network, peered: Network, n: Network)
    requires PeeringsOnly(created, peered) && RoutesOnly(peered.(sg := n.sg), n) && !Untagged(n)
    ensures !Untagged(created)
  {
    var t :| t in n.tables && n.tables[t].tagged;
    assert t in created.tables && created.tables[t].tagged;
  }

  lemma AllStages(created: Network, n: Network, p: nat)
    requires SubnetsReady(created) && Connected(created, n, p)
    ensures Ready(n)
  {
    HalfStays(created, n, 0);
    HalfStays(created, n, 1);
    var t :| t in created.tables && created.tables[t].vpcId == created.vpc.value.id;
    assert n.tables[t].vpcId == n.vpc.value.id;
    assert TablesTagged(n, n.vpc.value);
    assert Live(n, p);
  }

  /** CreateDBInstance, CreateReplicationGroup. */
  method CreateInstance(cloud: Cloud, c: CrId) returns (ok: bool)
    requires cloud.Valid() && c !in cloud.world.instances && MayCreate(cloud.world, c)
    modifies cloud
    ensures cloud.Valid() && Extends(old(cloud.trace), cloud.trace)
    ensures cloud.world == old(cloud.world).(instances := cloud.world.instances)
    ensures !ok ==> cloud.world == old(cloud.world)
    ensures ok ==> c in cloud.world.instances && cloud.world.instances[c].status.Busy?
    ensures SameButFor(c, old(cloud.world.instances), cloud.world.instances)
    ensures cloud.reliable ==> ok
  {
    var protected: bool := *;
    var w := cloud.world.(instances := cloud.world.instances[c := Instance(Busy, protected)]);
    cloud.IsSafe();
    ghost var now := cloud.world;
    assert Safe(w) by {
      forall d | d in w.instances ensures InstanceCovered(w, d) {
        assert d != c ==> InstanceCovered(now, d);
      }
    }
    ok := cloud.Call(w);
  }

  /** The two maps agree everywhere else. */
  ghost predicate SameButFor<V>(c: CrId, m: map<CrId, V>, m': map<CrId, V>) {
    && (forall d :: d in m && d != c ==> d in m' && m'[d] == m[d])
    && (forall d :: d in m' && d != c ==> d in m)
  }

  /** What no part of a create pass changes: other resources, other instances, and what the user decided. */
  ghost predicate OnlyFor(c: CrId, w: World, w': World) {
    && SameButFor(c, w.crs, w'.crs) && SameButFor(c, w.instances, w'.instances)
    && c in w.crs && c in w'.crs && w'.crs[c].deleting == w.crs[c].deleting && w'.crs[c].aws == w.crs[c].aws
    && (w.crs[c].finalizer ==> w'.crs[c].finalizer) && (w.crs[c].annotated ==> w'.crs[c].annotated)
  }

  /** What the instance stage does on a ready network. */
  ghost predicate InstanceStage(w: World, c: CrId, w': World, reliable: bool) {
    && OnlyFor(c, w, w') && w'.net == w.net
    // an existing instance is left alone; details go out if it is available, and only then
    && (c in w.instances ==> w'.instances == w.instances)
    && (c in w.instances && !w.instances[c].status.Available? ==> w' == w)
    && (NewlyServed(w, w', c) ==> MayServe(w, c) && (c.kind.Postgres? ==> w'.crs[c].annotated))
    && (reliable && MayServe(w, c) ==> w'.crs[c].served)
    // Redis does not make up for a missing annotation
    && (c in w.instances && c.kind.Redis? ==> w'.crs[c].annotated == w.crs[c].annotated)
    && (w'.crs[c].annotated && !w.crs[c].annotated ==> c in w'.instances)
    // a missing instance is created unless the annotation says there was one
    && (c !in w.instances && w.crs[c].annotated ==> w' == w)
    && (c !in w.instances && c in w'.instances ==> w'.instances[c].status.Busy?)
    && (reliable && c !in w.instances && !w.crs[c].annotated ==> c in w'.instances && w'.crs[c].annotated)
  }

  /**
   reconcileRDSInstance and createElasticacheCluster. They differ in one place: an instance that
   is found makes Postgres store a missing annotation before it hands out the details, Redis not.
   */
  method ReconcileInstance(cloud: Cloud, c: CrId)
    requires cloud.Valid() && c in cloud.world.crs && Ready(cloud.world.net)
    requires cloud.world.crs[c].aws && cloud.world.crs[c].finalizer && !cloud.world.crs[c].deleting
    modifies cloud
    ensures cloud.Valid() && Extends(old(cloud.trace), cloud.trace)
    ensures InstanceStage(old(cloud.world), c, cloud.world, cloud.reliable)
    ensures cloud.world.crs[c].served && !old(cloud.world.crs)[c].served ==>
              c in old(cloud.world.instances) && old(cloud.world.instances)[c].status.Available?
  {
    var ok := cloud.Answers();
    if !ok {
      return;
    }
    if c in cloud.world.instances {
      if cloud.world.instances[c].status.Available? {
        ServeFound(cloud, c);
      }
    } else if !cloud.world.crs[c].annotated {
      CreateMissing(cloud, c);
    }
  }

  /** An available instance: updates and tags, then the annotation where it is stored, then the details. */
  method ServeFound(cloud: Cloud, c: CrId)
    requires cloud.Valid() && c in cloud.world.crs && MayServe(cloud.world, c)
    modifies cloud
    ensures cloud.Valid() && Extends(old(cloud.trace), cloud.trace)
    ensures cloud.world == old(cloud.world).(crs := cloud.world.crs) && OnlyFor(c, old(cloud.world), cloud.world)
    ensures cloud.reliable ==> cloud.world.crs[c].served
    ensures NewlyServed(old(cloud.world), cloud.world, c) && c.kind.Postgres? ==> cloud.world.crs[c].annotated
    ensures c.kind.Redis? ==> cloud.world.crs[c].annotated == old(cloud.world.crs)[c].annotated
  {
    var ok := cloud.Answers();
    if !ok {
      return;
    }
    if c.kind.Postgres? && !cloud.world.crs[c].annotated {
      ok := Annotate(cloud, c);
      if !ok {
        return;
      }
    }
    HandOut(cloud, c);
  }

  method CreateMissing(cloud: Cloud, c: CrId)
    requires cloud.Valid() && c in cloud.world.crs && c !in cloud.world.instances && Ready(cloud.world.net)
    requires cloud.world.crs[c].aws && cloud.world.crs[c].finalizer && !cloud.world.crs[c].deleting
    requires !cloud.world.crs[c].annotated
    modifies cloud
    ensures cloud.Valid() && Extends(old(cloud.trace), cloud.trace)
    ensures cloud.world.net == old(cloud.world.net) && OnlyFor(c, old(cloud.world), cloud.world)
    ensures cloud.world.crs[c].served == old(cloud.world.crs)[c].served
    ensures c in cloud.world.instances ==> cloud.world.instances[c].status.Busy?
    ensures cloud.world.crs[c].annotated ==> c in cloud.world.instances
    ensures cloud.reliable ==> c in cloud.world.instances && cloud.world.crs[c].annotated
  {
    assert MayCreate(cloud.world, c) by {
      cloud.IsSafe();
      assert CrSafe(c, cloud.world.crs[c]);
    }
    var ok := CreateInstance(cloud, c);
    if ok {
      ok := Annotate(cloud, c);
    }
  }

  method Annotate(cloud: Cloud, c: CrId) returns (ok: bool)
    requires cloud.Valid() && c in cloud.world.crs
    modifies cloud
    ensures cloud.Valid() && Extends(old(cloud.trace), cloud.trace)
    ensures cloud.world ==
              if ok then PutCr(old(cloud.world), c, old(cloud.world.crs)[c].(annotated := true)) else old(cloud.world)
    ensures cloud.reliable ==> ok
  {
    cloud.IsSafe();
    assert CrSafe(c, cloud.world.crs[c]);
    ok := UpdateCr(cloud, c, cloud.world.crs[c].(annotated := true));
  }

  /** The provider returns connection details. */
  method HandOut(cloud: Cloud, c: CrId)
    requires cloud.Valid() && c in cloud.world.crs && MayServe(cloud.world, c)
    requires c.kind.Postgres? ==> cloud.world.crs[c].annotated
    modifies cloud
    ensures cloud.Valid() && Extends(old(cloud.trace), cloud.trace)
    ensures cloud.world == PutCr(old(cloud.world), c, old(cloud.world.crs)[c].(served := true))
  {
    cloud.IsSafe();
    PutCrSafe(cloud.world, c, cloud.world.crs[c].(served := true));
    cloud.Happen(PutCr(cloud.world, c, cloud.world.crs[c].(served := true)));
  }

  /** What a create pass does. */
  ghost predicate CreatePass(w: World, c: CrId, pass: Pass, w': World, reliable: bool) {
    && OnlyFor(c, w, w') && (reliable ==> w'.crs[c].finalizer)
    && (w'.crs[c].annotated && !w.crs[c].annotated ==> c in w'.instances)
    // without a VPC it may make one, of the given block, and nothing comes of the instance
    && (w.net.vpc.None? ==> w'.instances == w.instances)
    && (w.net.vpc.None? && w'.net.vpc.Some? ==>
          pass.cidr.Some? && w'.net.vpc.value.cidr == pass.cidr.value && w'.crs[c].finalizer)
    && (w.net.vpc.Some? ==> w'.net.vpc == w.net.vpc)
    && (reliable && pass.cidr.Some? && w.net.vpc.None? ==>
          (w'.net.vpc.Some? <==> pass.appears && ValidBlock(pass.cidr.value, w.net.cluster)))
    && (reliable && FirstVpc(w.net, w'.net) ==>
          Connectable(w'.net) && w'.crs == w.crs[c := w.crs[c].(finalizer := true)])
    // with one, a missing instance comes exactly if nothing stands in the way of the connection
    && (reliable && pass.cidr.Some? && Connectable(w.net) ==> Connectable(w'.net))
    && (reliable && pass.cidr.Some? && w.net.vpc.Some? && c !in w.instances ==>
          (c in w'.instances <==> Connectable(w.net) && !w.crs[c].annotated))
    && (c !in w.instances && c in w'.instances ==> !w.crs[c].annotated && w'.instances[c].status.Busy?)
    // an existing one is left alone, and its details go out if it is available, and only then
    && (c in w.instances ==> w'.instances == w.instances)
    && (NewlyServed(w, w', c) ==> MayServe(w, c) && (c.kind.Postgres? ==> w'.crs[c].annotated))
    && (reliable && pass.cidr.Some? && Connectable(w.net) && MayServe(w, c) ==> w'.crs[c].served)
    && (c in w.instances && c.kind.Redis? ==> w'.crs[c].annotated == w.crs[c].annotated)
  }

  /** ReconcilePostgres, CreateRedis: finalizer, network, instance. */
  method CreateReconcile(cloud: Cloud, c: CrId, pass: Pass)
    requires cloud.Valid() && c in cloud.world.crs && cloud.world.crs[c].aws && !cloud.world.crs[c].deleting
    modifies cloud
    ensures cloud.Valid() && Extends(old(cloud.trace), cloud.trace)
    ensures CreatePass(old(cloud.world), c, pass, cloud.world, cloud.reliable)
    ensures cloud.world.crs[c].served && !old(cloud.world.crs)[c].served ==>
              c in old(cloud.world.instances) && old(cloud.world.instances)[c].status.Available?
  {
    assert CrSafe(c, cloud.world.crs[c]) by { cloud.IsSafe(); }
    var ok := UpdateCr(cloud, c, cloud.world.crs[c].(finalizer := true));
    if !ok {
      return;
    }
    assert HasGuard(cloud.world) by { assert c in cloud.world.crs; }
    ghost var held := cloud.world;
    ok := ReconcileStandaloneNetwork(cloud, pass);
    ghost var networked := cloud.world;
    if ok {
      ReconcileInstance(cloud, c);
      WithInstanceStage(old(cloud.world), c, pass, networked, cloud.world, cloud.reliable);
    } else {
      WithoutInstanceStage(old(cloud.world), c, pass, networked, cloud.reliable);
    }
  }

  /** A pass that ends before the instance stage. */
  lemma WithoutInstanceStage(w: World, c: CrId, pass: Pass, w': World, reliable: bool)
    requires c in w.crs && w' == PutCr(w, c, w.crs[c].(finalizer := true)).(net := w'.net)
    requires NetworkStage(w.net, pass, w'.net, false, reliable)
    ensures CreatePass(w, c, pass, w', reliable)
  {
  }

  lemma WithInstanceStage(w: World, c: CrId, pass: Pass, networked: World, w': World, reliable: bool)
    requires c in w.crs && networked == PutCr(w, c, w.crs[c].(finalizer := true)).(net := networked.net)
    requires NetworkStage(w.net, pass, networked.net, true, reliable) && InstanceStage(networked, c, w', reliable)
    ensures CreatePass(w, c, pass, w', reliable)
  {
  }

  // ---------------------------------------------------------------- delete

  /** Connection, peering, network; needs a live peering to get past the first. */
  method TearDown(cloud: Cloud, v: VpcRecord) returns (ok: bool)
    requires cloud.Valid() && cloud.world.instances == map[] && cloud.world.crs != map[]
    requires cloud.world.net.vpc == Some(v)
    modifies cloud
    ensures cloud.Valid() && Extends(old(cloud.trace), cloud.trace)
    ensures cloud.world == old(cloud.world).(net := cloud.world.net)
    ensures ok <==> cloud.world.net.vpc.None?
    ensures ok ==> CanTearDown(old(cloud.world.net))
    ensures NoLivePeering(old(cloud.world.net)) ==> cloud.world.net.vpc == Some(v) && NoLivePeering(cloud.world.net)
    ensures cloud.reliable ==> (ok <==> CanTearDown(old(cloud.world.net)))
  {
    ok := cloud.Answers();
    if !ok {
      return;
    }
    var peering := GetClusterNetworkPeering(cloud, v);
    ok := DeleteNetworkConnection(cloud, peering);
    if !ok {
      return;
    }
    assert Live(cloud.world.net, peering.value);
    ok := DeleteNetworkPeering(cloud, peering.value);
    if !ok {
      return;
    }
    ok := DeleteNetwork(cloud);
  }

  ghost predicate CanTearDown(n: Network) {
    !NoLivePeering(n) && HasClusterTable(n)
  }

  /**
   What a delete pass does to an existing instance: nothing while it is not available; then the
   protection of a Postgres instance goes; then its deletion is asked for. Each by one call that may fail.
   */
  ghost predicate DeletionStep(kind: Kind, i: Instance, i': Instance, reliable: bool) {
    && (!i.status.Available? ==> i' == i)
    && (i' == i || i' == i.(protected := false) || i' == i.(status := Busy))
    && (i'.protected != i.protected ==> kind.Postgres? && i.protected && i'.status.Available?)
    && (i'.status != i.status ==> i'.status.Busy? && !(kind.Postgres? && i.protected))
    && (reliable && i.status.Available? && kind.Postgres? && i.protected ==> !i'.protected)
    && (reliable && i.status.Available? && !(kind.Postgres? && i.protected) ==> i'.status.Busy?)
  }

  /** An existing instance: wait, lift the protection, or delete. */
  method DeleteInstance(cloud: Cloud, c: CrId)
    requires cloud.Valid() && c in cloud.world.instances
    modifies cloud
    ensures cloud.Valid() && Extends(old(cloud.trace), cloud.trace)
    ensures cloud.world == old(cloud.world).(instances := cloud.world.instances) && c in cloud.world.instances
    ensures SameButFor(c, old(cloud.world.instances), cloud.world.instances)
    ensures DeletionStep(c.kind, old(cloud.world.instances)[c], cloud.world.instances[c], cloud.reliable)
  {
    var i := cloud.world.instances[c];
    if !i.status.Available? {
      return;
    }
    if c.kind.Postgres? && i.protected {
      var lifted := ChangeInstance(cloud, c, i.(protected := false));
    } else {
      var deleted := ChangeInstance(cloud, c, i.(status := Busy));
    }
  }

  method ChangeInstance(cloud: Cloud, c: CrId, i: Instance) returns (ok: bool)
    requires cloud.Valid() && c in cloud.world.instances
    modifies cloud
    ensures cloud.Valid() && Extends(old(cloud.trace), cloud.trace)
    ensures ok ==> cloud.world == old(cloud.world).(instances := old(cloud.world.instances)[c := i])
    ensures !ok ==> cloud.world == old(cloud.world)
    ensures cloud.reliable ==> ok
  {
    var w := cloud.world.(instances := cloud.world.instances[c := i]);
    cloud.IsSafe();
    InstancesSafe(cloud.world, w.instances);
    ok := cloud.Call(w);
  }

  lemma InstancesSafe(w: World, instances: map<CrId, Instance>)
    requires Safe(w) && instances.Keys <= w.instances.Keys
    ensures Safe(w.(instances := instances)) && GoodStep(w, w.(instances := instances))
  {
    var w' := w.(instances := instances);
    assert forall c :: c in w'.instances ==> c in w.instances && InstanceCovered(w, c);
  }

  /** Every instance belongs to a resource, so the last resource without one leaves none. */
  lemma LastHasNoInstances(w: World, c: CrId)
    requires Safe(w) && w.crs.Keys == {c} && c !in w.instances
    ensures w.instances == map[]
  {
    assert forall d :: d in w.instances ==> InstanceCovered(w, d) && d in w.crs.Keys;
  }

  /**
   deleteRDSInstance, deleteElasticacheCluster. The resource goes only without an instance, and
   the last one only after the network. When no call fails it goes exactly if the network can be
   torn down; a VPC whose peering is gone cannot, and the last resource then stays.
   */
  method DeleteReconcile(cloud: Cloud, c: CrId)
    requires cloud.Valid() && c in cloud.world.crs && cloud.world.crs[c].aws && cloud.world.crs[c].deleting
    modifies cloud
    ensures cloud.Valid() && Extends(old(cloud.trace), cloud.trace)
    ensures DeletePass(old(cloud.world), c, cloud.world, cloud.reliable)
    ensures Stuck(old(cloud.world), c) ==> Stuck(cloud.world, c)
  {
    var last := IsLastResource(cloud.world.crs);
    assert last <==> cloud.world.crs.Keys == {c} by {
      assert c in cloud.world.crs.Keys;
    }
    var ok := cloud.Answers();
    if !ok {
      return;
    }
    if c in cloud.world.instances {
      DeleteInstance(cloud, c);
      return;
    }
    if last && cloud.world.net.vpc.Some? {
      cloud.IsSafe();
      LastHasNoInstances(cloud.world, c);
      ok := TearDown(cloud, cloud.world.net.vpc.value);
      if !ok {
        return;
      }
    }
    RemoveFinalizer(cloud, c);
  }

  /** What a delete pass does. */
  ghost predicate DeletePass(w: World, c: CrId, w': World, reliable: bool) {
    && SameButFor(c, w.instances, w'.instances) && (c in w.instances <==> c in w'.instances)
    // with an instance, only the instance changes
    && (c in w.instances ==>
          && w' == w.(instances := w'.instances)
          && DeletionStep(c.kind, w.instances[c], w'.instances[c], reliable))
    // without, the resource goes or stays as it is
    && (w'.crs == w.crs || w'.crs == w.crs - {c})
    && (c !in w'.crs ==> Removable(w, c))
    && (reliable ==> (c !in w'.crs <==> Removable(w, c)))
    // only the last one touches the network, and it goes after it
    && (w.crs.Keys != {c} ==> w'.net == w.net)
    && (w.crs.Keys == {c} && c !in w'.crs ==> w'.net.vpc.None? && NothingLeft(w'.net))
  }

  ghost predicate Removable(w: World, c: CrId) {
    c !in w.instances && (w.crs.Keys == {c} && w.net.vpc.Some? ==> CanTearDown(w.net))
  }

  /** The last resource is being deleted, its VPC is there, and the peering is gone. */
  ghost predicate Stuck(w: World, c: CrId) {
    && w.crs.Keys == {c} && c in w.crs && w.crs[c].aws && w.crs[c].deleting && w.crs[c].finalizer
    && w.instances == map[] && w.net.vpc.Some? && NoLivePeering(w.net)
  }

  /** The credential secret, then the finalizer; a marked resource without finalizer is gone. */
  method RemoveFinalizer(cloud: Cloud, c: CrId)
    requires cloud.Valid() && c in cloud.world.crs && c !in cloud.world.instances
    requires cloud.world.crs.Keys == {c} ==> cloud.world.net.vpc.None?
    modifies cloud
    ensures cloud.Valid() && Extends(old(cloud.trace), cloud.trace)
    ensures cloud.world == old(cloud.world) || cloud.world == old(cloud.world).(crs := old(cloud.world.crs) - {c})
    ensures cloud.world.net.vpc.None? ==> NothingLeft(cloud.world.net)
    ensures cloud.reliable ==> c !in cloud.world.crs
  {
    cloud.IsSafe();
    var ok := cloud.Answers();
    if ok {
      DropCrSafe(cloud.world, c);
      ok := cloud.Call(cloud.world.(crs := cloud.world.crs - {c}));
    }
  }

  predicate Managed(w: World, c: CrId) {
    c in w.crs && w.crs[c].aws
  }

  /** What a reconcile does: delete, skip or create; other providers' resources are not its business. */
  ghost predicate ReconcilePass(w: World, c: CrId, pass: Pass, skipCreate: bool, w': World, reliable: bool) {
    if !Managed(w, c) then w' == w
    else if w.crs[c].deleting then DeletePass(w, c, w', reliable)
    else if skipCreate then w' == w
    else CreatePass(w, c, pass, w', reliable)
  }

  method Reconcile(cloud: Cloud, c: CrId, pass: Pass, skipCreate: bool)
    requires cloud.Valid()
    modifies cloud
    ensures cloud.Valid() && Extends(old(cloud.trace), cloud.trace)
    ensures ReconcilePass(old(cloud.world), c, pass, skipCreate, cloud.world, cloud.reliable)
    ensures !Orphaned(old(cloud.world)) ==> !Orphaned(cloud.world)
    ensures forall d :: Stuck(old(cloud.world), d) ==> Stuck(cloud.world, d)
  {
    assert forall d :: Stuck(cloud.world, d) && c in cloud.world.crs ==> d == c;
    if c !in cloud.world.crs || !cloud.world.crs[c].aws {
      return;
    }
    if cloud.world.crs[c].deleting {
      ghost var w := cloud.world;
      DeleteReconcile(cloud, c);
      NotOrphanedByTeardown(w, cloud.world, c);
    } else if !skipCreate {
      CreateReconcile(cloud, c, pass);
      assert c in cloud.world.crs;
    }
  }

  lemma NotOrphanedByTeardown(w: World, w': World, c: CrId)
    requires c in w.crs && (w'.crs == w.crs || w'.crs == w.crs - {c})
    requires w.crs.Keys == {c} && c !in w'.crs ==> w'.net.vpc.None?
    ensures !Orphaned(w')
  {
    if w'.crs == map[] {
      assert w.crs.Keys == {c} by {
        assert forall d :: d in w.crs && d != c ==> d in w'.crs;
      }
    }
  }

  // ---------------------------------------------------------------- runs

  datatype Event =
    | Reconciled(c: CrId, pass: Pass, skipCreate: bool)
    | UserCreates(c: CrId, aws: bool)
    | UserDeletes(c: CrId)
    | OtherProviderHolds(c: CrId)
    | OtherProviderReleases(c: CrId)
    | InstanceChanges(c: CrId, instance: Instance)
    | InstanceVanishes(c: CrId)
    | PeeringChanges(p: nat, status: PeeringStatus)
    | TableAppears(vpcId: nat, accepts: bool)

  function NewCr(aws: bool): Cr {
    Cr(aws, false, false, false, false)
  }

  /** The API server's side of a deletion: mark it while a finalizer holds it, else drop it. */
  function UserDelete(w: World, c: CrId): World
    requires c in w.crs
  {
    if w.crs[c].finalizer then PutCr(w, c, w.crs[c].(deleting := true)) else w.(crs := w.crs - {c})
  }

  /** Events of other parties; those that do not apply change nothing. */
  function Effect(w: World, e: Event): World {
    match e
    case Reconciled(_, _, _) => w
    case UserCreates(c, aws) => if c in w.crs then w else PutCr(w, c, NewCr(aws))
    case UserDeletes(c) => if c in w.crs then UserDelete(w, c) else w
    case OtherProviderHolds(c) =>
      if c in w.crs && !w.crs[c].aws && !w.crs[c].deleting then PutCr(w, c, w.crs[c].(finalizer := true)) else w
    case OtherProviderReleases(c) =>
      if c in w.crs && !w.crs[c].aws && w.crs[c].deleting then w.(crs := w.crs - {c}) else w
    case InstanceChanges(c, i) => if c in w.instances then w.(instances := w.instances[c := i]) else w
    case InstanceVanishes(c) => w.(instances := w.instances - {c})
    case PeeringChanges(p, s) =>
      if p in w.net.peerings && Dead(w.net.peerings[p].status) == Dead(s) then w.(net := SetPeering(w.net, p, s)) else w
    case TableAppears(v, accepts) => if v < w.net.next then w.(net := AddTable(w.net, v, accepts)) else w
  }

  lemma EffectSafe(w: World, e: Event)
    requires Safe(w)
    ensures Safe(Effect(w, e)) && GoodStep(w, Effect(w, e))
  {
    assert Effect(w, e) == w ==> GoodStep(w, Effect(w, e));
    match e
    case Reconciled(_, _, _) =>
    case UserCreates(c, aws) => if c !in w.crs { PutCrSafe(w, c, NewCr(aws)); }
    case UserDeletes(c) => if c in w.crs { UserDeleteSafe(w, c); }
    case OtherProviderHolds(c) =>
      if c in w.crs && !w.crs[c].aws && !w.crs[c].deleting {
        PutCrSafe(w, c, w.crs[c].(finalizer := true));
      }
    case OtherProviderReleases(c) =>
      if c in w.crs && !w.crs[c].aws {
        assert c in w.instances ==> InstanceCovered(w, c);
        DropCrSafe(w, c);
      }
    case InstanceChanges(c, i) => if c in w.instances { InstancesSafe(w, w.instances[c := i]); }
    case InstanceVanishes(c) => InstancesSafe(w, w.instances - {c});
    case PeeringChanges(p, s) =>
      if p in w.net.peerings && Dead(w.net.peerings[p].status) == Dead(s) {
        SetPeeringSafe(w.net, p, s);
        KeepingIsSafe(w, SetPeering(w.net, p, s));
      }
    case TableAppears(v, accepts) =>
      if v < w.net.next {
        AddTableSafe(w.net, v, accepts);
        KeepingIsSafe(w, AddTable(w.net, v, accepts));
      }
  }

  lemma UserDeleteSafe(w: World, c: CrId)
    requires Safe(w) && c in w.crs
    ensures Safe(UserDelete(w, c)) && GoodStep(w, UserDelete(w, c))
  {
    if w.crs[c].finalizer {
      PutCrSafe(w, c, w.crs[c].(deleting := true));
    } else {
      assert c in w.instances ==> InstanceCovered(w, c);
      DropCrSafe(w, c);
    }
  }

  /** What an event does: outside the reconciles its effect, else what the pass does. */
  ghost predicate Answered(w: World, e: Event, w': World, reliable: bool) {
    if e.Reconciled? then ReconcilePass(w, e.c, e.pass, e.skipCreate, w', reliable) else w' == Effect(w, e)
  }

  /** The states between the events: each event has been answered, in order. */
  ghost predicate Follows(stops: seq<World>, events: seq<Event>, reliable: bool) {
    |stops| == |events| + 1 && forall i :: 0 <= i < |events| ==> AnsweredAt(stops, events, i, reliable)
  }

  ghost predicate AnsweredAt(stops: seq<World>, events: seq<Event>, i: int, reliable: bool)
    requires 0 <= i < |events| && i + 1 < |stops|
  {
    Answered(stops[i], events[i], stops[i + 1], reliable)
  }

  /**
   Every run from a safe state: each state it passes is safe and each call it makes is good.
   stops are the states between the events.
   */
  method RunEvents(cloud: Cloud, events: seq<Event>) returns (ghost stops: seq<World>)
    requires cloud.Valid()
    modifies cloud
    ensures cloud.Valid() && Extends(old(cloud.trace), cloud.trace)
    ensures Follows(stops, events, cloud.reliable) && stops[0] == old(cloud.world) && stops[|events|] == cloud.world
    ensures forall i :: 0 <= i < |stops| ==> stops[i] in cloud.trace
    ensures forall c :: Stuck(old(cloud.world), c) && NobodyCreates(events) ==> Stuck(cloud.world, c)
  {
    ghost var w := cloud.world;
    stops := [cloud.world];
    for i := 0 to |events|
      invariant cloud.Valid() && Extends(old(cloud.trace), cloud.trace)
      invariant |stops| == i + 1 && stops[0] == w && stops[i] == cloud.world
      invariant forall k :: 0 <= k < i ==> AnsweredAt(stops, events, k, cloud.reliable)
      invariant forall k :: 0 <= k < |stops| ==> stops[k] in cloud.trace
      invariant forall c :: Stuck(w, c) && NobodyCreates(events) ==> Stuck(cloud.world, c)
    {
      ghost var before := stops;
      RunEvent(cloud, events[i]);
      stops := stops + [cloud.world];
      StopsGrow(before, stops, events, i, cloud.reliable);
    }
  }

  lemma StopsGrow(before: seq<World>, stops: seq<World>, events: seq<Event>, i: int, reliable: bool)
    requires 0 <= i < |events| && |before| == i + 1 && |stops| == i + 2 && stops[..i + 1] == before
    requires forall k :: 0 <= k < i ==> AnsweredAt(before, events, k, reliable)
    requires Answered(before[i], events[i], stops[i + 1], reliable)
    ensures forall k :: 0 <= k <= i ==> AnsweredAt(stops, events, k, reliable)
  {
    forall k | 0 <= k <= i ensures AnsweredAt(stops, events, k, reliable) {
      assert k < i ==> stops[k] == before[k] && stops[k + 1] == before[k + 1];
      assert k < i ==> AnsweredAt(before, events, k, reliable);
    }
  }

  predicate NobodyCreates(events: seq<Event>) {
    forall i :: 0 <= i < |events| ==> !events[i].UserCreates?
  }

  method RunEvent(cloud: Cloud, e: Event)
    requires cloud.Valid()
    modifies cloud
    ensures cloud.Valid() && Extends(old(cloud.trace), cloud.trace)
    ensures Answered(old(cloud.world), e, cloud.world, cloud.reliable)
    ensures !e.UserCreates? ==> forall c :: Stuck(old(cloud.world), c) ==> Stuck(cloud.world, c)
  {
    if e.Reconciled? {
      Reconcile(cloud, e.c, e.pass, e.skipCreate);
    } else {
      if !e.UserCreates? {
        EffectKeepsStuck(cloud.world, e);
      }
      OtherParty(cloud, e);
    }
  }

  /** Nobody but the creator of another resource gets the last one unstuck. */
  lemma EffectKeepsStuck(w: World, e: Event)
    requires !e.UserCreates?
    ensures forall c :: Stuck(w, c) ==> Stuck(Effect(w, e), c)
  {
    forall c | Stuck(w, c) ensures Stuck(Effect(w, e), c) {
      assert forall d :: d in w.crs.Keys ==> d == c;
      if e.PeeringChanges? && Effect(w, e) != w {
        assert forall p :: p in w.net.peerings ==> !Live(w.net, p) && !Live(Effect(w, e).net, p);
      }
      if e.TableAppears? {
        assert forall p :: p in w.net.peerings ==> !Live(w.net, p) && !Live(Effect(w, e).net, p);
      }
    }
  }

  method OtherParty(cloud: Cloud, e: Event)
    requires cloud.Valid()
    modifies cloud
    ensures cloud.Valid() && Extends(old(cloud.trace), cloud.trace)
    ensures cloud.world == Effect(old(cloud.world), e)
  {
    cloud.IsSafe();
    EffectSafe(cloud.world, e);
    cloud.Happen(Effect(cloud.world, e));
  }
}

/**
 The state shared by the Postgres and Redis controllers on AWS in standalone mode: the custom
 resources, the instances behind them and the one network they all use. The predicates say
 what every state and every single API call of a run must satisfy.
 */
module AwsWorld {
  import opened Cidr
  import opened StandaloneSubnets
  import opened Wrappers

  // ---------------------------------------------------------------- state

  datatype Kind = Postgres | Redis

  /** A custom resource; its instance's name is an injective function of it, so it also names the instance. */
  datatype CrId = CrId(kind: Kind, name: string)

  /**
   aws: the strategy chosen at the first reconcile, kept in the status ever after.
   annotated: the resource identifier annotation is stored.
   served: connection details have been handed out for this resource.
   */
  datatype Cr = Cr(aws: bool, finalizer: bool, deleting: bool, annotated: bool, served: bool)

  datatype Status = Available | Broken | Busy

  datatype Instance = Instance(status: Status, protected: bool)

  datatype VpcRecord = VpcRecord(id: nat, cidr: Net)

  datatype SubnetRecord = SubnetRecord(vpcId: nat, block: Net)

  datatype SecurityGroup = SecurityGroup(vpcId: nat, admitsCluster: bool)

  datatype PeeringStatus = Initiating | Pending | Provisioning | Active | Rejected | Deleting | Deleted

  /** Requested by the VPC, accepted by the cluster. */
  datatype Peering = Peering(vpcId: nat, status: PeeringStatus)

  /** tagged: carries the operator's owner tag. accepts: false when the cloud answers RouteNotSupported. */
  datatype RouteTable = RouteTable(vpcId: nat, tagged: bool, accepts: bool, routes: map<Net, nat>)

  const CLUSTER_VPC: nat := 0

  datatype Network = Network(
    cluster: Net,
    vpc: Option<VpcRecord>,
    subnets: map<nat, SubnetRecord>,
    rdsGroup: Option<set<nat>>,
    cacheGroup: Option<set<nat>>,
    sg: Option<SecurityGroup>,
    peerings: map<nat, Peering>,
    tables: map<nat, RouteTable>,
    next: nat)

  datatype World = World(crs: map<CrId, Cr>, instances: map<CrId, Instance>, net: Network)

  // ---------------------------------------------------------------- the network on its own

  predicate Dead(s: PeeringStatus) {
    s.Deleting? || s.Deleted?
  }

  /** Accepted, or on the way there without anyone's doing. */
  predicate Accepted(s: PeeringStatus) {
    s.Active? || s.Provisioning? || s.Initiating?
  }

  predicate Live(n: Network, p: nat) {
    p in n.peerings && !Dead(n.peerings[p].status)
  }

  predicate HasHalf(n: Network, h: int)
    requires n.vpc.Some? && n.vpc.value.cidr.prefix <= 26 && 0 <= h < 2
  {
    exists s :: s in n.subnets && n.subnets[s].block == Half(n.vpc.value.cidr, h)
  }

  /** Identifiers in use are older than the next one to be handed out. */
  ghost predicate IdsUsed(n: Network) {
    && CLUSTER_VPC < n.next
    && (n.vpc.Some? ==> n.vpc.value.id < n.next)
    && (forall s :: s in n.subnets ==> s < n.next)
    && (forall p :: p in n.peerings ==> p < n.next && n.peerings[p].vpcId < n.next)
    && (forall t :: t in n.tables ==> t < n.next && n.tables[t].vpcId < n.next)
    && (forall t, d :: t in n.tables && d in n.tables[t].routes ==> n.tables[t].routes[d] < n.next)
  }

  /** No VPC, so nothing that lives in one or leads to one. */
  ghost predicate NothingLeft(n: Network) {
    && n.subnets == map[] && n.rdsGroup.None? && n.cacheGroup.None? && n.sg.None?
    && (forall p :: p in n.peerings ==> !Live(n, p))
    && (forall t :: t in n.tables ==> !n.tables[t].tagged)
  }

  /** Everything belongs to the VPC; its subnets are its halves, each at most once. */
  ghost predicate BelongsToVpc(n: Network, v: VpcRecord) {
    && v.id != CLUSTER_VPC
    && 16 <= v.cidr.prefix <= 26 && !ShareAddress(n.cluster, v.cidr)
    && (forall s :: s in n.subnets ==>
          && n.subnets[s].vpcId == v.id
          && (n.subnets[s].block == Half(v.cidr, 0) || n.subnets[s].block == Half(v.cidr, 1)))
    && (forall s, s' :: s in n.subnets && s' in n.subnets && n.subnets[s].block == n.subnets[s'].block ==> s == s')
    && (n.sg.Some? ==> n.sg.value.vpcId == v.id)
    && (forall p :: p in n.peerings && Live(n, p) ==> n.peerings[p].vpcId == v.id)
    && (forall t :: t in n.tables && n.tables[t].tagged ==> n.tables[t].vpcId == v.id)
  }

  /** A peering route in a cluster table leads to the VPC through a live peering. */
  ghost predicate ClusterRoutesLive(n: Network) {
    forall t, d :: t in n.tables && n.tables[t].vpcId == CLUSTER_VPC && d in n.tables[t].routes ==>
      n.vpc.Some? && d == n.vpc.value.cidr && Live(n, n.tables[t].routes[d])
  }

  ghost predicate OneLivePeering(n: Network) {
    forall p, q :: p in n.peerings && q in n.peerings && Live(n, p) && Live(n, q) ==> p == q
  }

  /** A subnet group is only ever written with both halves. */
  ghost predicate GroupsHaveTwo(n: Network) {
    (n.rdsGroup.Some? ==> |n.rdsGroup.value| == 2) && (n.cacheGroup.Some? ==> |n.cacheGroup.value| == 2)
  }

  /** First in, last out: whatever the operator made exists only while its VPC does. */
  ghost predicate NetSafe(n: Network) {
    && IdsUsed(n) && OneLivePeering(n) && ClusterRoutesLive(n) && GroupsHaveTwo(n)
    && (n.vpc.None? ==> NothingLeft(n))
    && (n.vpc.Some? ==> BelongsToVpc(n, n.vpc.value))
  }

  /** What an existing instance needs. */
  ghost predicate Complete(n: Network) {
    && n.vpc.Some? && n.vpc.value.cidr.prefix <= 26 && HasHalf(n, 0) && HasHalf(n, 1)
    && n.rdsGroup.Some? && n.cacheGroup.Some? && n.sg.Some?
    && exists p :: p in n.peerings && Live(n, p)
  }

  /** Routes both ways through p, in every table that accepts them. */
  ghost predicate RoutedThrough(n: Network, v: VpcRecord, p: nat) {
    && (exists t :: t in n.tables && n.tables[t].vpcId == CLUSTER_VPC)
    && (exists t :: t in n.tables && n.tables[t].vpcId == v.id)
    && (forall t :: t in n.tables && n.tables[t].vpcId == CLUSTER_VPC && n.tables[t].accepts ==>
          v.cidr in n.tables[t].routes && n.tables[t].routes[v.cidr] == p)
    && (forall t :: t in n.tables && n.tables[t].vpcId == v.id ==>
          n.cluster in n.tables[t].routes && n.tables[t].routes[n.cluster] == p)
  }

  /** What must hold before an instance is created. */
  ghost predicate Ready(n: Network) {
    && Complete(n)
    && n.rdsGroup.value == n.subnets.Keys && n.cacheGroup.value == n.subnets.Keys
    && n.sg.value.admitsCluster
    && exists p :: p in n.peerings && Accepted(n.peerings[p].status) && RoutedThrough(n, n.vpc.value, p)
  }

  /** Nothing an instance relies on goes away. */
  ghost predicate Keeps(n: Network, n': Network) {
    && n'.vpc == n.vpc
    && (forall s :: s in n.subnets ==> s in n'.subnets && n'.subnets[s] == n.subnets[s])
    && (n.rdsGroup.Some? ==> n'.rdsGroup.Some?) && (n.cacheGroup.Some? ==> n'.cacheGroup.Some?)
    && (n.sg.Some? ==> n'.sg.Some? && (n.sg.value.admitsCluster ==> n'.sg.value.admitsCluster))
    && (forall p :: p in n.peerings && Live(n, p) ==> p in n'.peerings && Live(n', p))
    && (forall t, d :: t in n.tables && d in n.tables[t].routes ==>
          t in n'.tables && d in n'.tables[t].routes && n'.tables[t].routes[d] == n.tables[t].routes[d])
  }

  /** Where every run starts: no resource, and route tables of other people's making only. */
  ghost predicate Fresh(w: World) {
    && w.crs == map[] && w.instances == map[]
    && w.net.vpc.None? && w.net.subnets == map[] && w.net.rdsGroup.None? && w.net.cacheGroup.None? && w.net.sg.None?
    && w.net.peerings == map[] && CLUSTER_VPC < w.net.next
    && (forall t :: t in w.net.tables ==>
          && t < w.net.next && w.net.tables[t].vpcId < w.net.next
          && !w.net.tables[t].tagged && w.net.tables[t].routes == map[])
  }

  // ---------------------------------------------------------------- whole states and single calls

  /** An instance has a resource that cannot vanish and a complete network. */
  ghost predicate InstanceCovered(w: World, c: CrId) {
    c in w.crs && w.crs[c].finalizer && w.crs[c].aws && Complete(w.net)
  }

  ghost predicate CrSafe(c: CrId, r: Cr) {
    && (r.deleting ==> r.finalizer)
    && (c.kind.Postgres? && r.served ==> r.annotated)
  }

  ghost predicate Safe(w: World) {
    && NetSafe(w.net)
    && (forall c :: c in w.instances ==> InstanceCovered(w, c))
    && (forall c :: c in w.crs ==> CrSafe(c, w.crs[c]))
  }

  lemma FreshIsSafe(w: World)
    requires Fresh(w)
    ensures Safe(w)
  {
  }

  ghost predicate MayCreate(w: World, c: CrId) {
    && c in w.crs && w.crs[c].aws && w.crs[c].finalizer && !w.crs[c].deleting && !w.crs[c].annotated
    && (c.kind.Postgres? ==> !w.crs[c].served)
    && Ready(w.net)
  }

  /** A VPC and no resource at all. */
  predicate Orphaned(w: World) {
    w.net.vpc.Some? && w.crs == map[]
  }

  /** The one resource left can vanish without a teardown. */
  ghost predicate Unguarded(w: World) {
    exists c :: c in w.crs && w.crs.Keys == {c} && !(w.crs[c].aws && w.crs[c].finalizer)
  }

  /** A resource that will see to the teardown. */
  ghost predicate HasGuard(w: World) {
    exists c :: c in w.crs && w.crs[c].aws && w.crs[c].finalizer && !w.crs[c].deleting
  }

  /** Details may be handed out: the instance is available. */
  predicate MayServe(w: World, c: CrId) {
    c in w.instances && w.instances[c].status.Available?
  }

  /** The resource counts as served in the second state, and did not in the first. */
  predicate NewlyServed(w: World, w': World, c: CrId) {
    c in w'.crs && w'.crs[c].served && !(c in w.crs && w.crs[c].served)
  }

  ghost predicate GoodStep(w: World, w': World) {
    && w'.net.cluster == w.net.cluster
    && (forall c :: c in w'.instances && c !in w.instances ==> MayCreate(w, c))
    && (forall c :: c in w.crs && c in w'.crs && w.crs[c].served ==> w'.crs[c].served)
    && (forall c :: c in w'.crs && NewlyServed(w, w', c) ==> MayServe(w, c))
    && (w.net.vpc.None? && w'.net.vpc.Some? ==> HasGuard(w))
    && (w.instances != map[] ==> Keeps(w.net, w'.net))
    && (Orphaned(w') && !Orphaned(w) ==> w.net.vpc.Some? && Unguarded(w))
  }

  ghost predicate SafeAt(trace: seq<World>, i: int)
    requires 0 <= i < |trace|
  {
    Safe(trace[i])
  }

  ghost predicate GoodStepAt(trace: seq<World>, i: int)
    requires 0 <= i < |trace| - 1
  {
    GoodStep(trace[i], trace[i + 1])
  }

  /** A run, one entry per call that changed something. */
  ghost predicate GoodTrace(trace: seq<World>) {
    && (forall i :: 0 <= i < |trace| ==> SafeAt(trace, i))
    && (forall i :: 0 <= i < |trace| - 1 ==> GoodStepAt(trace, i))
  }

  lemma GoodTraceGrows(trace: seq<World>, w: World)
    requires GoodTrace(trace) && trace != [] && Safe(w) && GoodStep(trace[|trace| - 1], w)
    ensures GoodTrace(trace + [w])
  {
    var longer := trace + [w];
    forall i | 0 <= i < |longer| ensures SafeAt(longer, i) {
      assert i < |trace| ==> SafeAt(trace, i);
    }
    forall i | 0 <= i < |longer| - 1 ensures GoodStepAt(longer, i) {
      assert i < |trace| - 1 ==> GoodStepAt(trace, i);
    }
  }
}

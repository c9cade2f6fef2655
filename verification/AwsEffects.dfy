/** What each AWS call does to the network, and why the call is safe where the operator makes it. */
module AwsEffects {
  import opened Cidr
  import opened StandaloneSubnets
  import opened Wrappers
  import opened AwsWorld

  // ---------------------------------------------------------------- calls that add

  /** CreateVpc; the cloud adds the main route table. */
  function AddVpc(n: Network, cidr: Net): Network {
    n.(vpc := Some(VpcRecord(n.next, cidr)),
       tables := n.tables[n.next + 1 := RouteTable(n.next, false, true, map[])],
       next := n.next + 2)
  }

  function TagTable(n: Network, t: nat): Network
    requires t in n.tables
  {
    n.(tables := n.tables[t := n.tables[t].(tagged := true)])
  }

  function AddSubnet(n: Network, block: Net): Network
    requires n.vpc.Some?
  {
    n.(subnets := n.subnets[n.next := SubnetRecord(n.vpc.value.id, block)], next := n.next + 1)
  }

  function PutGroup(n: Network, kind: Kind, members: set<nat>): Network {
    match kind
    case Postgres => n.(rdsGroup := Some(members))
    case Redis => n.(cacheGroup := Some(members))
  }

  function AddPeering(n: Network, status: PeeringStatus): Network
    requires n.vpc.Some?
  {
    n.(peerings := n.peerings[n.next := Peering(n.vpc.value.id, status)], next := n.next + 1)
  }

  function SetPeering(n: Network, p: nat, status: PeeringStatus): Network
    requires p in n.peerings
  {
    n.(peerings := n.peerings[p := n.peerings[p].(status := status)])
  }

  function PutSg(n: Network, admits: bool): Network
    requires n.vpc.Some?
  {
    n.(sg := Some(SecurityGroup(n.vpc.value.id, admits)))
  }

  function AddRoute(n: Network, t: nat, d: Net, p: nat): Network
    requires t in n.tables
  {
    n.(tables := n.tables[t := n.tables[t].(routes := n.tables[t].routes[d := p])])
  }

  lemma AddVpcSafe(n: Network, cidr: Net)
    requires NetSafe(n) && n.vpc.None? && 16 <= cidr.prefix <= 26 && !ShareAddress(n.cluster, cidr)
    ensures NetSafe(AddVpc(n, cidr))
  {
    var n' := AddVpc(n, cidr);
    assert forall t :: t in n.tables ==> n'.tables[t] == n.tables[t];
    assert forall p :: p in n.peerings ==> !Live(n, p) && !Live(n', p);
    assert BelongsToVpc(n', n'.vpc.value);
    assert ClusterRoutesLive(n');
  }

  lemma TagTableSafe(n: Network, t: nat)
    requires NetSafe(n) && n.vpc.Some? && t in n.tables && n.tables[t].vpcId == n.vpc.value.id
    ensures NetSafe(TagTable(n, t)) && Keeps(n, TagTable(n, t))
  {
    var n' := TagTable(n, t);
    assert forall p :: Live(n, p) <==> Live(n', p);
    assert ClusterRoutesLive(n');
  }

  lemma AddSubnetSafe(n: Network, h: int)
    requires NetSafe(n) && n.vpc.Some? && 0 <= h < 2 && !HasHalf(n, h)
    ensures var n' := AddSubnet(n, Half(n.vpc.value.cidr, h));
            NetSafe(n') && Keeps(n, n') && HasHalf(n', h)
  {
    var n' := AddSubnet(n, Half(n.vpc.value.cidr, h));
    assert n.next in n'.subnets;
    assert forall p :: Live(n, p) <==> Live(n', p);
    assert ClusterRoutesLive(n');
    assert BelongsToVpc(n', n'.vpc.value);
  }

  lemma PutGroupSafe(n: Network, kind: Kind, members: set<nat>)
    requires NetSafe(n) && n.vpc.Some? && |members| == 2
    ensures NetSafe(PutGroup(n, kind, members)) && Keeps(n, PutGroup(n, kind, members))
  {
    var n' := PutGroup(n, kind, members);
    assert forall p :: Live(n, p) <==> Live(n', p);
    assert ClusterRoutesLive(n');
  }

  /** With both halves there, the VPC has exactly two subnets. */
  lemma TwoSubnets(n: Network)
    requires n.vpc.Some? && BelongsToVpc(n, n.vpc.value) && HasHalf(n, 0) && HasHalf(n, 1)
    ensures |n.subnets.Keys| == 2
  {
    var cidr := n.vpc.value.cidr;
    assert Half(cidr, 0).base != Half(cidr, 1).base by { TwoHalves(cidr); }
    var lower :| lower in n.subnets && n.subnets[lower].block == Half(cidr, 0);
    var upper :| upper in n.subnets && n.subnets[upper].block == Half(cidr, 1);
    assert n.subnets.Keys == {lower, upper};
  }

  lemma AddPeeringSafe(n: Network, status: PeeringStatus)
    requires NetSafe(n) && n.vpc.Some? && !Dead(status) && forall p :: p in n.peerings ==> !Live(n, p)
    ensures NetSafe(AddPeering(n, status)) && Keeps(n, AddPeering(n, status)) && Live(AddPeering(n, status), n.next)
  {
    var n' := AddPeering(n, status);
    assert forall p :: p in n.peerings ==> !Live(n', p);
    assert ClusterRoutesLive(n');
  }

  /** A status change that leaves a live peering live and a dead one dead. */
  lemma SetPeeringSafe(n: Network, p: nat, status: PeeringStatus)
    requires NetSafe(n) && p in n.peerings && Dead(status) == Dead(n.peerings[p].status)
    ensures NetSafe(SetPeering(n, p, status)) && Keeps(n, SetPeering(n, p, status))
  {
    var n' := SetPeering(n, p, status);
    assert forall q :: Live(n, q) <==> Live(n', q);
    assert ClusterRoutesLive(n');
    assert n.vpc.None? ==> NothingLeft(n');
    assert n.vpc.Some? ==> BelongsToVpc(n', n.vpc.value);
  }

  lemma PutSgSafe(n: Network, admits: bool)
    requires NetSafe(n) && n.vpc.Some? && (n.sg.Some? && n.sg.value.admitsCluster ==> admits)
    ensures NetSafe(PutSg(n, admits)) && Keeps(n, PutSg(n, admits))
  {
    var n' := PutSg(n, admits);
    assert forall p :: Live(n, p) <==> Live(n', p);
    assert ClusterRoutesLive(n');
  }

  lemma AddRouteSafe(n: Network, t: nat, d: Net, p: nat)
    requires NetSafe(n) && n.vpc.Some? && t in n.tables && d !in n.tables[t].routes && Live(n, p)
    requires n.tables[t].vpcId == CLUSTER_VPC ==> d == n.vpc.value.cidr
    ensures NetSafe(AddRoute(n, t, d, p)) && Keeps(n, AddRoute(n, t, d, p))
  {
    var n' := AddRoute(n, t, d, p);
    assert forall q :: Live(n, q) <==> Live(n', q);
    assert ClusterRoutesLive(n');
    assert BelongsToVpc(n', n'.vpc.value);
  }

  // ---------------------------------------------------------------- calls that remove

  function RemoveSg(n: Network): Network {
    n.(sg := None)
  }

  function RemoveRoute(n: Network, t: nat, d: Net): Network
    requires t in n.tables
  {
    n.(tables := n.tables[t := n.tables[t].(routes := n.tables[t].routes - {d})])
  }

  function RemoveSubnet(n: Network, s: nat): Network {
    n.(subnets := n.subnets - {s})
  }

  function RemoveGroup(n: Network, kind: Kind): Network {
    match kind
    case Postgres => n.(rdsGroup := None)
    case Redis => n.(cacheGroup := None)
  }

  /** DeleteVpc; the VPC's route tables go with it. */
  function RemoveVpc(n: Network): Network
    requires n.vpc.Some?
  {
    n.(vpc := None, tables := map t | t in n.tables && n.tables[t].vpcId != n.vpc.value.id :: n.tables[t])
  }

  ghost predicate NoClusterRoutes(n: Network) {
    forall t :: t in n.tables && n.tables[t].vpcId == CLUSTER_VPC ==> n.tables[t].routes == map[]
  }

  ghost predicate NoLivePeering(n: Network) {
    forall p :: p in n.peerings ==> !Live(n, p)
  }

  lemma RemoveSgSafe(n: Network)
    requires NetSafe(n)
    ensures NetSafe(RemoveSg(n))
  {
    var n' := RemoveSg(n);
    assert forall p :: Live(n, p) <==> Live(n', p);
    assert ClusterRoutesLive(n');
  }

  lemma RemoveRouteSafe(n: Network, t: nat, d: Net)
    requires NetSafe(n) && t in n.tables
    ensures NetSafe(RemoveRoute(n, t, d))
  {
    var n' := RemoveRoute(n, t, d);
    assert forall p :: Live(n, p) <==> Live(n', p);
    assert ClusterRoutesLive(n');
    assert n.vpc.None? ==> NothingLeft(n');
    assert n.vpc.Some? ==> BelongsToVpc(n', n.vpc.value);
  }

  lemma KillPeeringSafe(n: Network, p: nat)
    requires NetSafe(n) && p in n.peerings && NoClusterRoutes(n)
    ensures NetSafe(SetPeering(n, p, Deleting))
    ensures Live(n, p) ==> NoLivePeering(SetPeering(n, p, Deleting))
  {
    var n' := SetPeering(n, p, Deleting);
    assert forall q :: q in n.peerings && Live(n', q) ==> Live(n, q);
    assert ClusterRoutesLive(n');
  }

  lemma RemoveSubnetSafe(n: Network, s: nat)
    requires NetSafe(n)
    ensures NetSafe(RemoveSubnet(n, s))
  {
    var n' := RemoveSubnet(n, s);
    assert forall p :: Live(n, p) <==> Live(n', p);
    assert ClusterRoutesLive(n');
    assert n.vpc.None? ==> NothingLeft(n');
  }

  lemma RemoveGroupSafe(n: Network, kind: Kind)
    requires NetSafe(n)
    ensures NetSafe(RemoveGroup(n, kind))
  {
    var n' := RemoveGroup(n, kind);
    assert forall p :: Live(n, p) <==> Live(n', p);
    assert ClusterRoutesLive(n');
  }

  lemma RemoveVpcSafe(n: Network)
    requires NetSafe(n) && n.vpc.Some?
    requires n.subnets == map[] && n.rdsGroup.None? && n.cacheGroup.None? && n.sg.None?
    requires NoLivePeering(n)
    ensures NetSafe(RemoveVpc(n))
  {
    var n' := RemoveVpc(n);
    assert forall p :: p in n.peerings ==> !Live(n, p) && !Live(n', p);
    assert forall t :: t in n'.tables ==> n'.tables[t] == n.tables[t];
    assert ClusterRoutesLive(n');
    assert NothingLeft(n');
  }

  // ---------------------------------------------------------------- other parties

  /** Somebody adds a route table to some VPC. */
  function AddTable(n: Network, vpcId: nat, accepts: bool): Network {
    n.(tables := n.tables[n.next := RouteTable(vpcId, false, accepts, map[])], next := n.next + 1)
  }

  lemma AddTableSafe(n: Network, vpcId: nat, accepts: bool)
    requires NetSafe(n) && vpcId < n.next
    ensures NetSafe(AddTable(n, vpcId, accepts)) && Keeps(n, AddTable(n, vpcId, accepts))
  {
    var n' := AddTable(n, vpcId, accepts);
    assert forall p :: Live(n, p) <==> Live(n', p);
    assert ClusterRoutesLive(n');
    assert n.vpc.None? ==> NothingLeft(n');
    assert n.vpc.Some? ==> BelongsToVpc(n', n.vpc.value);
  }

  // ---------------------------------------------------------------- from networks to worlds

  lemma KeepsComplete(n: Network, n': Network)
    requires Complete(n) && Keeps(n, n')
    ensures Complete(n')
  {
    forall h | 0 <= h < 2 ensures HasHalf(n', h) {
      assert HasHalf(n, h);
      var s :| s in n.subnets && n.subnets[s].block == Half(n.vpc.value.cidr, h);
      assert s in n'.subnets;
    }
    var p :| p in n.peerings && Live(n, p);
    assert p in n'.peerings && Live(n', p);
  }

  /** A call that keeps the network is safe in every state. */
  lemma KeepingIsSafe(w: World, n': Network)
    requires Safe(w) && NetSafe(n') && n'.cluster == w.net.cluster && Keeps(w.net, n')
    ensures Safe(w.(net := n')) && GoodStep(w, w.(net := n'))
  {
    forall c | c in w.instances ensures InstanceCovered(w.(net := n'), c) {
      assert InstanceCovered(w, c);
      KeepsComplete(w.net, n');
    }
  }

  /** Any safe change will do while no instance exists. */
  lemma IdleIsSafe(w: World, n': Network)
    requires Safe(w) && NetSafe(n') && n'.cluster == w.net.cluster
    requires w.instances == map[] && w.crs != map[]
    requires w.net.vpc.None? && n'.vpc.Some? ==> HasGuard(w)
    ensures Safe(w.(net := n')) && GoodStep(w, w.(net := n'))
  {
  }
}

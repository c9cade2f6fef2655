/**
 The network provider (pkg/providers/aws/cluster_network_provider.go), call by call. Every
 method may stop after any of its calls; the cloud's Valid() holds after each of them.
 */
module AwsNetworkProvider {
  import opened Cidr
  import opened DefaultCidr
  import opened StandaloneSubnets
  import opened Wrappers
  import opened AwsWorld
  import opened AwsEffects
  import opened AwsCloud
  import opened Listings

  datatype NetworkError = Stopped

  // ---------------------------------------------------------------- one call each

  /** A call on the network that takes nothing away. */
  method Grow(cloud: Cloud, n: Network) returns (ok: bool)
    requires cloud.Valid() && NetSafe(n) && n.cluster == cloud.world.net.cluster && Keeps(cloud.world.net, n)
    modifies cloud
    ensures cloud.Valid() && Extends(old(cloud.trace), cloud.trace)
    ensures cloud.world == old(cloud.world).(net := if ok then n else old(cloud.world.net))
    ensures cloud.reliable ==> ok
  {
    cloud.IsSafe();
    KeepingIsSafe(cloud.world, n);
    ok := cloud.Call(cloud.world.(net := n));
  }

  /** A call on the network while no instance exists. */
  method Reshape(cloud: Cloud, n: Network) returns (ok: bool)
    requires cloud.Valid() && NetSafe(n) && n.cluster == cloud.world.net.cluster
    requires cloud.world.instances == map[] && cloud.world.crs != map[]
    requires cloud.world.net.vpc.None? && n.vpc.Some? ==> HasGuard(cloud.world)
    modifies cloud
    ensures cloud.Valid() && Extends(old(cloud.trace), cloud.trace)
    ensures cloud.world == old(cloud.world).(net := if ok then n else old(cloud.world.net))
    ensures cloud.reliable ==> ok
  {
    cloud.IsSafe();
    IdleIsSafe(cloud.world, n);
    ok := cloud.Call(cloud.world.(net := n));
  }

  // ---------------------------------------------------------------- the VPC

  /**
   What the outside brings to a create pass: the block, if it can be determined, and whether a new
   VPC shows up in time.
   */
  datatype Pass = Pass(cidr: Option<Net>, appears: bool)

  ghost predicate ValidBlock(cidr: Net, cluster: Net) {
    16 <= cidr.prefix <= 26 && !ShareAddress(cluster, cidr)
  }

  /**
   The first pass: validate, create, wait. When the wait fails the VPC is deleted again, which
   only a failing call can prevent, and the pass ends.
   */
  method CreateMissingVpc(cloud: Cloud, cidr: Net, appears: bool) returns (r: Result<VpcRecord, NetworkError>)
    requires cloud.Valid() && cloud.world.net.vpc.None? && HasGuard(cloud.world)
    modifies cloud
    ensures cloud.Valid() && Extends(old(cloud.trace), cloud.trace)
    ensures cloud.world == old(cloud.world).(net := cloud.world.net)
    ensures r.Success? ==> appears && ValidBlock(cidr, old(cloud.world.net.cluster))
    ensures NewVpcHas(cidr, old(cloud.world.net), cloud.world.net)
    ensures r.Success? ==> cloud.world.net.vpc == Some(r.value) && Untagged(cloud.world.net)
    ensures r.Success? ==> cloud.world.net == AddVpc(old(cloud.world.net), cidr)
    ensures cloud.reliable ==> (r.Success? <==> appears && ValidBlock(cidr, old(cloud.world.net.cluster)))
    ensures cloud.reliable && r.Failure? ==> GoneAgain(old(cloud.world.net), cloud.world.net)
  {
    var n := cloud.world.net;
    if ValidateStandaloneCidrBlock(cidr, n.cluster).Some? {
      return Failure(Stopped);
    }
    cloud.IsSafe();
    NoInstanceWithoutVpc(cloud.world);
    AddVpcSafe(n, cidr);
    var ok := Reshape(cloud, AddVpc(n, cidr));
    if !ok {
      return Failure(Stopped);
    }
    var answered := cloud.Answers();
    if !answered || !appears {
      DeleteNewVpc(cloud, n, cidr);
      return Failure(Stopped);
    }
    return Success(cloud.world.net.vpc.value);
  }

  /** A VPC that was not there before has this block. */
  ghost predicate NewVpcHas(cidr: Net, n: Network, n': Network) {
    n.vpc.None? && n'.vpc.Some? ==> n'.vpc.value.cidr == cidr
  }

  /** Nothing has changed but the identifiers handed out. */
  ghost predicate GoneAgain(n: Network, n': Network) {
    n' == n.(next := n'.next)
  }

  method DeleteNewVpc(cloud: Cloud, ghost n: Network, ghost cidr: Net)
    requires cloud.Valid() && cloud.world.instances == map[] && cloud.world.crs != map[]
    requires NetSafe(n) && n.vpc.None? && cloud.world.net == AddVpc(n, cidr)
    modifies cloud
    ensures cloud.Valid() && Extends(old(cloud.trace), cloud.trace)
    ensures cloud.world == old(cloud.world).(net := cloud.world.net)
    ensures cloud.world.net == old(cloud.world.net) || GoneAgain(n, cloud.world.net)
    ensures cloud.reliable ==> GoneAgain(n, cloud.world.net)
  {
    assert NoLivePeering(cloud.world.net) by {
      assert forall p :: p in n.peerings ==> !Live(n, p);
    }
    assert RemoveVpc(cloud.world.net).tables == n.tables;
    cloud.IsSafe();
    RemoveVpcSafe(cloud.world.net);
    var deleted := Reshape(cloud, RemoveVpc(cloud.world.net));
  }

  lemma NoInstanceWithoutVpc(w: World)
    requires Safe(w) && w.net.vpc.None?
    ensures w.instances == map[]
  {
    assert forall c :: c in w.instances ==> InstanceCovered(w, c);
  }

  ghost predicate Untagged(n: Network) {
    forall t :: t in n.tables ==> !n.tables[t].tagged
  }

  /** Every route table of the VPC carries the owner tag, and there is one. */
  ghost predicate TablesTagged(n: Network, v: VpcRecord) {
    HasTable(n, v) && forall t :: t in n.tables && n.tables[t].vpcId == v.id ==> n.tables[t].tagged
  }

  ghost predicate HasTable(n: Network, v: VpcRecord) {
    exists t :: t in n.tables && n.tables[t].vpcId == v.id
  }

  ghost predicate TagsOnly(n: Network, n': Network) {
    && n' == n.(tables := n'.tables) && n'.tables.Keys == n.tables.Keys
    && forall t :: t in n.tables ==> n'.tables[t] == n.tables[t].(tagged := n'.tables[t].tagged)
  }

  method GetVpcRouteTables(n: Network, v: VpcRecord) returns (tables: seq<nat>)
    ensures forall t :: t in tables <==> t in n.tables && n.tables[t].vpcId == v.id
    ensures forall i :: 0 <= i < |tables| ==> tables[i] in n.tables && n.tables[tables[i]].vpcId == v.id
    ensures tables != [] <==> HasTable(n, v)
  {
    tables := Listing<nat>(set t | t in n.tables && n.tables[t].vpcId == v.id);
    assert tables != [] ==> tables[0] in tables;
  }

  method TagOne(cloud: Cloud, v: VpcRecord, t: nat) returns (ok: bool)
    requires cloud.Valid() && cloud.world.net.vpc == Some(v)
    requires t in cloud.world.net.tables && cloud.world.net.tables[t].vpcId == v.id
    modifies cloud
    ensures cloud.Valid() && Extends(old(cloud.trace), cloud.trace)
    ensures cloud.world ==
              old(cloud.world).(net := if ok then TagTable(old(cloud.world.net), t) else old(cloud.world.net))
    ensures cloud.reliable ==> ok
  {
    if cloud.world.net.tables[t].tagged {
      assert TagTable(cloud.world.net, t) == cloud.world.net;
      return true;
    }
    cloud.IsSafe();
    TagTableSafe(cloud.world.net, t);
    ok := Grow(cloud, TagTable(cloud.world.net, t));
  }

  method ReconcileRouteTableTags(cloud: Cloud, v: VpcRecord) returns (ok: bool)
    requires cloud.Valid() && cloud.world.net.vpc == Some(v)
    modifies cloud
    ensures cloud.Valid() && Extends(old(cloud.trace), cloud.trace)
    ensures cloud.world == old(cloud.world).(net := cloud.world.net) && TagsOnly(old(cloud.world.net), cloud.world.net)
    ensures ok ==> TablesTagged(cloud.world.net, v)
    ensures cloud.reliable ==> (ok <==> HasTable(old(cloud.world.net), v))
  {
    ghost var n := cloud.world.net;
    ok := cloud.Answers();
    if !ok {
      return;
    }
    var tables := GetVpcRouteTables(cloud.world.net, v);
    if tables == [] {
      return false;
    }
    for i := 0 to |tables|
      invariant cloud.Valid() && Extends(old(cloud.trace), cloud.trace)
      invariant cloud.world == old(cloud.world).(net := cloud.world.net) && TagsOnly(n, cloud.world.net)
      invariant AllTagged(cloud.world.net, tables[..i])
    {
      ghost var before := cloud.world.net;
      ok := TagOne(cloud, v, tables[i]);
      if !ok {
        return;
      }
      TagsStep(n, before, tables, i);
    }
    AllAreTagged(n, cloud.world.net, v, tables);
    return true;
  }

  lemma TagsStep(n: Network, n': Network, tables: seq<nat>, i: nat)
    requires TagsOnly(n, n') && i < |tables| && tables[i] in n.tables && AllTagged(n', tables[..i])
    ensures TagsOnly(n, TagTable(n', tables[i])) && AllTagged(TagTable(n', tables[i]), tables[..i + 1])
  {
    forall k | 0 <= k <= i ensures tables[k] in n'.tables && TagTable(n', tables[i]).tables[tables[k]].tagged {
      assert k < i ==> tables[..i][k] == tables[k];
    }
  }

  ghost predicate AllTagged(n: Network, tables: seq<nat>) {
    forall k :: 0 <= k < |tables| ==> tables[k] in n.tables && n.tables[tables[k]].tagged
  }

  lemma AllAreTagged(n: Network, n': Network, v: VpcRecord, tables: seq<nat>)
    requires TagsOnly(n, n') && tables != [] && AllTagged(n', tables[..|tables|])
    requires forall t :: t in tables <==> t in n.tables && n.tables[t].vpcId == v.id
    ensures TablesTagged(n', v)
  {
    assert tables[..|tables|] == tables;
    assert tables[0] in tables;
    forall t | t in n'.tables && n'.tables[t].vpcId == v.id ensures n'.tables[t].tagged {
      assert t in tables;
    }
  }

  // ---------------------------------------------------------------- subnets and subnet groups

  ghost predicate AddsSubnets(n: Network, n': Network) {
    n' == n.(subnets := n'.subnets, next := n'.next) && n.next <= n'.next && n.subnets.Keys <= n'.subnets.Keys
  }

  method EnsureHalf(cloud: Cloud, v: VpcRecord, h: int) returns (ok: bool)
    requires cloud.Valid() && cloud.world.net.vpc == Some(v) && 0 <= h < 2
    modifies cloud
    ensures cloud.Valid() && Extends(old(cloud.trace), cloud.trace)
    ensures cloud.world == old(cloud.world).(net := cloud.world.net)
    ensures AddsSubnets(old(cloud.world.net), cloud.world.net) && Keeps(old(cloud.world.net), cloud.world.net)
    ensures v.cidr.prefix <= 26 && (ok ==> HasHalf(cloud.world.net, h)) && (cloud.reliable ==> ok)
  {
    cloud.IsSafe();
    if HasHalf(cloud.world.net, h) {
      return true;
    }
    AddSubnetSafe(cloud.world.net, h);
    ok := Grow(cloud, AddSubnet(cloud.world.net, Half(v.cidr, h)));
  }

  method ReconcileSubnets(cloud: Cloud, v: VpcRecord) returns (ok: bool)
    requires cloud.Valid() && cloud.world.net.vpc == Some(v)
    modifies cloud
    ensures cloud.Valid() && Extends(old(cloud.trace), cloud.trace)
    ensures cloud.world == old(cloud.world).(net := cloud.world.net)
    ensures AddsSubnets(old(cloud.world.net), cloud.world.net)
    ensures v.cidr.prefix <= 26 && (ok ==> HasHalf(cloud.world.net, 0) && HasHalf(cloud.world.net, 1))
    ensures (cloud.reliable ==> ok)
  {
    ok := cloud.Answers();
    assert v.cidr.prefix <= 26 by { cloud.IsSafe(); }
    if !ok {
      return;
    }
    ok := EnsureHalf(cloud, v, 0);
    if !ok {
      return;
    }
    ghost var n := cloud.world.net;
    ok := EnsureHalf(cloud, v, 1);
    HalfStays(n, cloud.world.net, 0);
  }

  lemma HalfStays(n: Network, n': Network, h: int)
    requires n.vpc.Some? && n.vpc.value.cidr.prefix <= 26 && 0 <= h < 2
    requires n'.vpc == n.vpc && forall s :: s in n.subnets ==> s in n'.subnets && n'.subnets[s] == n.subnets[s]
    requires HasHalf(n, h)
    ensures HasHalf(n', h)
  {
    var s :| s in n.subnets && n.subnets[s].block == Half(n.vpc.value.cidr, h);
    assert s in n'.subnets;
  }

  function Group(n: Network, kind: Kind): Option<set<nat>> {
    if kind.Postgres? then n.rdsGroup else n.cacheGroup
  }

  /**
   The subnet group of one service. An existing group is kept when its members are among the
   VPC's subnets (not the other way round), otherwise it is set to all of them. Since no group
   was ever written with one half missing, the members are all the subnets either way.
   */
  method ReconcileGroup(cloud: Cloud, kind: Kind) returns (ok: bool)
    requires cloud.Valid() && BothHalves(cloud.world.net)
    modifies cloud
    ensures cloud.Valid() && Extends(old(cloud.trace), cloud.trace)
    ensures cloud.world.net == old(cloud.world.net) ||
            cloud.world.net == PutGroup(old(cloud.world.net), kind, old(cloud.world.net).subnets.Keys)
    ensures cloud.world == old(cloud.world).(net := cloud.world.net)
    ensures ok ==> Group(cloud.world.net, kind) == Some(cloud.world.net.subnets.Keys)
    ensures cloud.reliable ==> ok
  {
    ok := cloud.Answers();
    if !ok {
      return;
    }
    var n := cloud.world.net;
    cloud.IsSafe();
    TwoSubnets(n);
    if Group(n, kind).Some? && Group(n, kind).value <= n.subnets.Keys {
      SubsetOfTwo(Group(n, kind).value, n.subnets.Keys);
      return true;
    }
    PutGroupSafe(n, kind, n.subnets.Keys);
    ok := Grow(cloud, PutGroup(n, kind, n.subnets.Keys));
  }

  lemma SubsetOfTwo(a: set<nat>, b: set<nat>)
    requires a <= b && |a| == |b|
    ensures a == b
  {
    if a != b {
      var x :| x in b && x !in a;
      assert a <= b - {x} && |b - {x}| == |b| - 1;
      SmallerOrEqual(a, b - {x});
    }
  }

  lemma {:induction false} SmallerOrEqual(a: set<nat>, b: set<nat>)
    requires a <= b
    ensures |a| <= |b|
  {
    if a != {} {
      var x :| x in a;
      SmallerOrEqual(a - {x}, b - {x});
    }
  }

  ghost predicate BothHalves(n: Network) {
    n.vpc.Some? && n.vpc.value.cidr.prefix <= 26 && HasHalf(n, 0) && HasHalf(n, 1)
  }

  /** What CreateNetwork leaves behind on an existing VPC. */
  ghost predicate SubnetsReady(n: Network) {
    && BothHalves(n)
    && n.rdsGroup == Some(n.subnets.Keys) && n.cacheGroup == Some(n.subnets.Keys)
    && TablesTagged(n, n.vpc.value)
  }

  /** Same VPC, same peerings, same routes. */
  ghost predicate Wired(n: Network, n': Network) {
    && n'.vpc == n.vpc && n'.cluster == n.cluster && n'.peerings == n.peerings
    && n'.tables.Keys == n.tables.Keys && n.next <= n'.next
    && forall t :: t in n.tables ==> n'.tables[t] == n.tables[t].(tagged := n'.tables[t].tagged)
  }

  /** CreateNetwork: ready subnets on an existing VPC, and none at all on the pass that creates it. */
  method CreateNetwork(cloud: Cloud, cidr: Net, appears: bool) returns (r: Result<VpcRecord, NetworkError>)
    requires cloud.Valid() && HasGuard(cloud.world)
    modifies cloud
    ensures cloud.Valid() && Extends(old(cloud.trace), cloud.trace)
    ensures cloud.world == old(cloud.world).(net := cloud.world.net)
    ensures r.Success? ==> cloud.world.net.vpc == Some(r.value)
    ensures NewVpcHas(cidr, old(cloud.world.net), cloud.world.net)
    ensures r.Success? && old(cloud.world.net.vpc).None? ==>
              Untagged(cloud.world.net) && cloud.world.net == AddVpc(old(cloud.world.net), cidr)
    ensures r.Success? && old(cloud.world.net.vpc).Some? ==> SubnetsReady(cloud.world.net)
    ensures old(cloud.world.net.vpc).Some? ==> Wired(old(cloud.world.net), cloud.world.net)
    ensures cloud.reliable && old(cloud.world.net.vpc).Some? ==>
              (r.Success? <==> HasTable(old(cloud.world.net), old(cloud.world.net.vpc).value))
    ensures cloud.reliable && old(cloud.world.net.vpc).None? ==>
              (r.Success? <==> appears && ValidBlock(cidr, old(cloud.world.net.cluster)))
    ensures cloud.reliable && old(cloud.world.net.vpc).None? && r.Failure? ==>
              GoneAgain(old(cloud.world.net), cloud.world.net)
  {
    var ok := cloud.Answers();
    if !ok {
      return Failure(Stopped);
    }
    if cloud.world.net.vpc.None? {
      r := CreateMissingVpc(cloud, cidr, appears);
      return;
    }
    ok := ReconcileNetwork(cloud, cloud.world.net.vpc.value);
    return if ok then Success(cloud.world.net.vpc.value) else Failure(Stopped);
  }

  method ReconcileNetwork(cloud: Cloud, v: VpcRecord) returns (ok: bool)
    requires cloud.Valid() && cloud.world.net.vpc == Some(v)
    modifies cloud
    ensures cloud.Valid() && Extends(old(cloud.trace), cloud.trace)
    ensures cloud.world == old(cloud.world).(net := cloud.world.net) && cloud.world.net.vpc == Some(v)
    ensures ok ==> SubnetsReady(cloud.world.net)
    ensures Wired(old(cloud.world.net), cloud.world.net)
    ensures cloud.reliable ==> (ok <==> HasTable(old(cloud.world.net), v))
  {
    ok := ReconcileRouteTableTags(cloud, v);
    if !ok {
      return;
    }
    ok := ReconcileSubnets(cloud, v);
    if !ok {
      return;
    }
    ok := ReconcileGroups(cloud);
  }

  method ReconcileGroups(cloud: Cloud) returns (ok: bool)
    requires cloud.Valid() && BothHalves(cloud.world.net)
    modifies cloud
    ensures cloud.Valid() && Extends(old(cloud.trace), cloud.trace)
    ensures cloud.world == old(cloud.world).(net := cloud.world.net)
    ensures GroupsOnly(old(cloud.world.net), cloud.world.net) && BothHalves(cloud.world.net)
    ensures ok ==> cloud.world.net.rdsGroup == Some(cloud.world.net.subnets.Keys)
    ensures ok ==> cloud.world.net.cacheGroup == Some(cloud.world.net.subnets.Keys)
    ensures cloud.reliable ==> ok
  {
    ghost var n := cloud.world.net;
    ok := ReconcileGroup(cloud, Postgres);
    HalvesUntouched(n, cloud.world.net);
    if !ok {
      return;
    }
    ok := ReconcileGroup(cloud, Redis);
    HalvesUntouched(n, cloud.world.net);
  }

  ghost predicate GroupsOnly(n: Network, n': Network) {
    n' == n.(rdsGroup := n'.rdsGroup, cacheGroup := n'.cacheGroup)
  }

  lemma HalvesUntouched(n: Network, n': Network)
    requires BothHalves(n) && GroupsOnly(n, n')
    ensures BothHalves(n')
  {
    HalfStays(n, n', 0);
    HalfStays(n, n', 1);
  }

  // ---------------------------------------------------------------- peering

  /** getNetworkPeering: some peering between the VPC and the cluster that is not deleted or deleting. */
  method GetNetworkPeering(n: Network, v: VpcRecord) returns (r: Option<nat>)
    requires NetSafe(n) && n.vpc == Some(v)
    ensures r.None? <==> NoLivePeering(n)
    ensures r.Some? ==> r.value in n.peerings && Live(n, r.value)
  {
    var peerings := Listing<nat>(set p | p in n.peerings && n.peerings[p].vpcId == v.id);
    for i := 0 to |peerings|
      invariant forall k :: 0 <= k < i ==> !Live(n, peerings[k])
    {
      if !Dead(n.peerings[peerings[i]].status) {
        return Some(peerings[i]);
      }
    }
    forall p | p in n.peerings ensures !Live(n, p) {
      assert n.peerings[p].vpcId == v.id ==> p in peerings;
    }
    return None;
  }

  method GetClusterNetworkPeering(cloud: Cloud, v: VpcRecord) returns (r: Option<nat>)
    requires cloud.Valid() && cloud.world.net.vpc == Some(v)
    ensures r.None? <==> NoLivePeering(cloud.world.net)
    ensures r.Some? ==> Live(cloud.world.net, r.value)
  {
    cloud.IsSafe();
    r := GetNetworkPeering(cloud.world.net, v);
  }

  ghost predicate PeeringsOnly(n: Network, n': Network) {
    n' == n.(peerings := n'.peerings, next := n'.next)
  }

  ghost predicate PeeringsKept(n: Network, n': Network) {
    && PeeringsOnly(n, n')
    && forall p :: p in n.peerings ==> p in n'.peerings && Dead(n'.peerings[p].status) == Dead(n.peerings[p].status)
  }

  ghost predicate LivesRejected(n: Network) {
    exists p :: p in n.peerings && n.peerings[p].status.Rejected?
  }

  ghost predicate Usable(n: Network, p: nat) {
    Live(n, p) && !n.peerings[p].status.Rejected?
  }

  method FindOrCreatePeering(cloud: Cloud, v: VpcRecord) returns (r: Option<nat>)
    requires cloud.Valid() && cloud.world.net.vpc == Some(v)
    modifies cloud
    ensures cloud.Valid() && Extends(old(cloud.trace), cloud.trace)
    ensures cloud.world == old(cloud.world).(net := cloud.world.net)
    ensures PeeringsKept(old(cloud.world.net), cloud.world.net)
    ensures r.Some? ==> Live(cloud.world.net, r.value)
    ensures r.Some? && Usable(cloud.world.net, r.value) ==> !LivesRejected(old(cloud.world.net))
    ensures cloud.reliable ==> r.Some? && (Usable(cloud.world.net, r.value) <==> !LivesRejected(old(cloud.world.net)))
    ensures r.Some? && r.value !in old(cloud.world.net).peerings ==> r.value == old(cloud.world.net).next
    ensures r.Some? && r.value in old(cloud.world.net).peerings ==> Live(old(cloud.world.net), r.value)
  {
    var ok := cloud.Answers();
    if !ok {
      return None;
    }
    cloud.IsSafe();
    r := GetNetworkPeering(cloud.world.net, v);
    if r.None? {
      var status: PeeringStatus := *;
      if Dead(status) || (cloud.reliable && status.Rejected?) {
        status := Initiating;
      }
      var id := cloud.world.net.next;
      ok := RequestPeering(cloud, status);
      return if ok then Some(id) else None;
    }
  }

  method RequestPeering(cloud: Cloud, status: PeeringStatus) returns (ok: bool)
    requires cloud.Valid() && cloud.world.net.vpc.Some? && !Dead(status) && NoLivePeering(cloud.world.net)
    modifies cloud
    ensures cloud.Valid() && Extends(old(cloud.trace), cloud.trace)
    ensures cloud.world ==
              old(cloud.world).(net := if ok then AddPeering(old(cloud.world.net), status) else old(cloud.world.net))
    ensures cloud.reliable ==> ok
  {
    cloud.IsSafe();
    AddPeeringSafe(cloud.world.net, status);
    ok := Grow(cloud, AddPeering(cloud.world.net, status));
  }

  /** CreateNetworkPeering: find or request, accept when pending, refuse the other states. */
  method CreateNetworkPeering(cloud: Cloud, v: VpcRecord) returns (ok: bool, p: nat)
    requires cloud.Valid() && cloud.world.net.vpc == Some(v)
    modifies cloud
    ensures cloud.Valid() && Extends(old(cloud.trace), cloud.trace)
    ensures cloud.world == old(cloud.world).(net := cloud.world.net)
    ensures PeeringsKept(old(cloud.world.net), cloud.world.net)
    ensures ok ==> Usable(cloud.world.net, p) && Accepted(cloud.world.net.peerings[p].status)
    ensures ok ==> !LivesRejected(old(cloud.world.net))
    ensures cloud.reliable ==> (ok <==> !LivesRejected(old(cloud.world.net)))
    ensures ok && p !in old(cloud.world.net).peerings ==> p == old(cloud.world.net).next
    ensures ok && p in old(cloud.world.net).peerings ==> Live(old(cloud.world.net), p)
  {
    var found := FindOrCreatePeering(cloud, v);
    if found.None? {
      return false, 0;
    }
    p := found.value;
    ok := cloud.Answers();
    if !ok {
      return;
    }
    match cloud.world.net.peerings[p].status
    case Pending =>
      ok := AcceptPeering(cloud, p);
    case Active =>
    case Provisioning =>
    case Initiating =>
    case _ =>
      ok := false;
  }

  method AcceptPeering(cloud: Cloud, p: nat) returns (ok: bool)
    requires cloud.Valid() && p in cloud.world.net.peerings && cloud.world.net.peerings[p].status.Pending?
    modifies cloud
    ensures cloud.Valid() && Extends(old(cloud.trace), cloud.trace)
    ensures ok ==> cloud.world == old(cloud.world).(net := SetPeering(old(cloud.world.net), p, Provisioning))
    ensures !ok ==> cloud.world == old(cloud.world)
    ensures cloud.reliable ==> ok
  {
    cloud.IsSafe();
    SetPeeringSafe(cloud.world.net, p, Provisioning);
    ok := Grow(cloud, SetPeering(cloud.world.net, p, Provisioning));
  }

  // ---------------------------------------------------------------- connection

  ghost predicate RoutesOnly(n: Network, n': Network) {
    && n' == n.(tables := n'.tables) && n'.tables.Keys == n.tables.Keys
    && forall t :: t in n.tables ==> n'.tables[t] == n.tables[t].(routes := n'.tables[t].routes)
  }

  ghost predicate HasRoute(n: Network, t: nat, d: Net, p: nat) {
    t in n.tables && d in n.tables[t].routes && n.tables[t].routes[d] == p
  }

  /** The route is there or the table takes it. */
  ghost predicate Fits(n: Network, t: nat, d: Net, p: nat) {
    HasRoute(n, t, d, p) || (t in n.tables && n.tables[t].accepts && d !in n.tables[t].routes)
  }

  datatype RouteOutcome = Routed | NotSupported | RouteFailed

  /** One table: nothing if the route is there, else CreateRoute, which refuses an occupied destination. */
  method EnsureRoute(cloud: Cloud, t: nat, d: Net, p: nat) returns (r: RouteOutcome)
    requires cloud.Valid() && cloud.world.net.vpc.Some? && t in cloud.world.net.tables && Live(cloud.world.net, p)
    requires cloud.world.net.tables[t].vpcId == CLUSTER_VPC ==> d == cloud.world.net.vpc.value.cidr
    modifies cloud
    ensures cloud.Valid() && Extends(old(cloud.trace), cloud.trace)
    ensures cloud.world == old(cloud.world).(net := cloud.world.net)
    ensures RoutesOnly(old(cloud.world.net), cloud.world.net)
    ensures forall u, e, q :: HasRoute(old(cloud.world.net), u, e, q) ==> HasRoute(cloud.world.net, u, e, q)
    ensures r.Routed? ==> HasRoute(cloud.world.net, t, d, p)
    ensures r.NotSupported? ==> !cloud.world.net.tables[t].accepts
    ensures forall u :: u in cloud.world.net.tables && u != t ==>
              cloud.world.net.tables[u] == old(cloud.world.net).tables[u]
    ensures forall u :: Fits(old(cloud.world.net), u, d, p) <==> Fits(cloud.world.net, u, d, p)
    ensures cloud.reliable ==> (r.Routed? <==> Fits(old(cloud.world.net), t, d, p))
    ensures cloud.reliable ==> (r.NotSupported? ==> !HasRoute(old(cloud.world.net), t, d, p))
    ensures cloud.reliable && !cloud.world.net.tables[t].accepts ==> !r.RouteFailed?
  {
    var table := cloud.world.net.tables[t];
    if d in table.routes && table.routes[d] == p {
      return Routed;
    }
    var ok := cloud.Answers();
    if !ok || (table.accepts && d in table.routes) {
      return RouteFailed;
    }
    if !table.accepts {
      return NotSupported;
    }
    ok := CreateRoute(cloud, t, d, p);
    return if ok then Routed else RouteFailed;
  }

  method CreateRoute(cloud: Cloud, t: nat, d: Net, p: nat) returns (ok: bool)
    requires cloud.Valid() && cloud.world.net.vpc.Some? && t in cloud.world.net.tables && Live(cloud.world.net, p)
    requires d !in cloud.world.net.tables[t].routes
    requires cloud.world.net.tables[t].vpcId == CLUSTER_VPC ==> d == cloud.world.net.vpc.value.cidr
    modifies cloud
    ensures cloud.Valid() && Extends(old(cloud.trace), cloud.trace)
    ensures cloud.world ==
              old(cloud.world).(net := if ok then AddRoute(old(cloud.world.net), t, d, p) else old(cloud.world.net))
    ensures cloud.reliable ==> ok
  {
    cloud.IsSafe();
    AddRouteSafe(cloud.world.net, t, d, p);
    ok := Grow(cloud, AddRoute(cloud.world.net, t, d, p));
  }

  /** The route in each listed table; lenient: tables that do not support it are passed over. */
  method EnsureRoutes(cloud: Cloud, tables: seq<nat>, d: Net, p: nat, lenient: bool) returns (ok: bool)
    requires cloud.Valid() && cloud.world.net.vpc.Some?
    requires forall i :: 0 <= i < |tables| ==> tables[i] in cloud.world.net.tables
    requires lenient ==> d == cloud.world.net.vpc.value.cidr
    requires !lenient ==> forall i :: 0 <= i < |tables| ==> cloud.world.net.tables[tables[i]].vpcId != CLUSTER_VPC
    requires Live(cloud.world.net, p)
    modifies cloud
    ensures cloud.Valid() && Extends(old(cloud.trace), cloud.trace)
    ensures cloud.world == old(cloud.world).(net := cloud.world.net)
    ensures RoutesOnly(old(cloud.world.net), cloud.world.net)
    ensures forall u, e, q :: HasRoute(old(cloud.world.net), u, e, q) ==> HasRoute(cloud.world.net, u, e, q)
    ensures ok ==> forall i :: 0 <= i < |tables| ==>
                     || HasRoute(cloud.world.net, tables[i], d, p)
                     || (lenient && !cloud.world.net.tables[tables[i]].accepts)
    ensures forall u :: u in cloud.world.net.tables && u !in tables ==>
              cloud.world.net.tables[u] == old(cloud.world.net).tables[u]
    ensures cloud.reliable && AllFit(old(cloud.world.net), tables, d, p, lenient) ==> ok
    ensures ok ==> AllFit(old(cloud.world.net), tables, d, p, lenient)
  {
    ghost var n := cloud.world.net;
    for i := 0 to |tables|
      invariant cloud.Valid() && Extends(old(cloud.trace), cloud.trace)
      invariant cloud.world == old(cloud.world).(net := cloud.world.net) && RoutesOnly(n, cloud.world.net)
      invariant forall u, e, q :: HasRoute(n, u, e, q) ==> HasRoute(cloud.world.net, u, e, q)
      invariant forall k :: 0 <= k < i ==>
                  HasRoute(cloud.world.net, tables[k], d, p) || (lenient && !cloud.world.net.tables[tables[k]].accepts)
      invariant forall u :: Fits(n, u, d, p) <==> Fits(cloud.world.net, u, d, p)
      invariant forall u :: u in n.tables && u !in tables ==> cloud.world.net.tables[u] == n.tables[u]
    {
      ghost var before := cloud.world.net;
      assert before.tables[tables[i]].vpcId == n.tables[tables[i]].vpcId;
      assert Live(before, p);
      var r := EnsureRoute(cloud, tables[i], d, p);
      if r.RouteFailed? || (r.NotSupported? && !lenient) {
        return false;
      }
    }
    return true;
  }

  ghost predicate AllFit(n: Network, tables: seq<nat>, d: Net, p: nat, lenient: bool) {
    forall i :: 0 <= i < |tables| ==>
      tables[i] in n.tables && (Fits(n, tables[i], d, p) || (lenient && !n.tables[tables[i]].accepts))
  }

  method ReconcileSecurityGroup(cloud: Cloud) returns (ok: bool)
    requires cloud.Valid() && cloud.world.net.vpc.Some?
    modifies cloud
    ensures cloud.Valid() && Extends(old(cloud.trace), cloud.trace)
    ensures cloud.world == old(cloud.world).(net := old(cloud.world.net).(sg := cloud.world.net.sg))
    ensures ok ==> cloud.world.net.sg.Some? && cloud.world.net.sg.value.admitsCluster
    ensures cloud.reliable ==> ok
  {
    ok := cloud.Answers();
    if !ok {
      return;
    }
    if cloud.world.net.sg.None? {
      ok := SetSecurityGroup(cloud, false);
      if !ok {
        return;
      }
    }
    if !cloud.world.net.sg.value.admitsCluster {
      ok := SetSecurityGroup(cloud, true);
    }
  }

  /** CreateSecurityGroup, AuthorizeSecurityGroupIngress. */
  method SetSecurityGroup(cloud: Cloud, admits: bool) returns (ok: bool)
    requires cloud.Valid() && cloud.world.net.vpc.Some?
    requires cloud.world.net.sg.Some? && cloud.world.net.sg.value.admitsCluster ==> admits
    modifies cloud
    ensures cloud.Valid() && Extends(old(cloud.trace), cloud.trace)
    ensures cloud.world ==
              old(cloud.world).(net := if ok then PutSg(old(cloud.world.net), admits) else old(cloud.world.net))
    ensures cloud.reliable ==> ok
  {
    cloud.IsSafe();
    PutSgSafe(cloud.world.net, admits);
    ok := Grow(cloud, PutSg(cloud.world.net, admits));
  }

  ghost predicate HasClusterTable(n: Network) {
    exists t :: t in n.tables && n.tables[t].vpcId == CLUSTER_VPC
  }

  /** getClusterRouteTables; an empty answer is an error for every caller. */
  method GetClusterRouteTables(n: Network) returns (tables: seq<nat>)
    ensures forall t :: t in tables <==> t in n.tables && n.tables[t].vpcId == CLUSTER_VPC
    ensures tables != [] <==> HasClusterTable(n)
  {
    tables := Listing<nat>(set t | t in n.tables && n.tables[t].vpcId == CLUSTER_VPC);
    assert tables != [] ==> tables[0] in tables;
  }

  /** getCRORouteTables; an empty answer is an error. */
  method GetOwnRouteTables(n: Network) returns (tables: seq<nat>)
    ensures forall t :: t in tables <==> t in n.tables && n.tables[t].tagged
    ensures tables == [] <==> Untagged(n)
  {
    tables := Listing<nat>(set t | t in n.tables && n.tables[t].tagged);
    assert tables != [] ==> tables[0] in tables;
  }

  ghost predicate ClusterRouted(n: Network, v: VpcRecord, p: nat) {
    && HasClusterTable(n)
    && forall t :: t in n.tables && n.tables[t].vpcId == CLUSTER_VPC && n.tables[t].accepts ==>
         HasRoute(n, t, v.cidr, p)
  }

  ghost predicate OwnRouted(n: Network, p: nat) {
    !Untagged(n) && forall t :: t in n.tables && n.tables[t].tagged ==> HasRoute(n, t, n.cluster, p)
  }

  /** Only tables of the cluster differ. */
  ghost predicate OthersSame(n: Network, n': Network) {
    && n' == n.(tables := n'.tables) && n'.tables.Keys == n.tables.Keys
    && forall t :: t in n.tables && n.tables[t].vpcId != CLUSTER_VPC ==> n'.tables[t] == n.tables[t]
  }

  method RouteCluster(cloud: Cloud, v: VpcRecord, p: nat) returns (ok: bool)
    requires cloud.Valid() && cloud.world.net.vpc == Some(v) && Live(cloud.world.net, p)
    modifies cloud
    ensures cloud.Valid() && Extends(old(cloud.trace), cloud.trace)
    ensures cloud.world == old(cloud.world).(net := cloud.world.net)
    ensures RoutesOnly(old(cloud.world.net), cloud.world.net)
    ensures OthersSame(old(cloud.world.net), cloud.world.net)
    ensures ok ==> ClusterRouted(cloud.world.net, v, p) && HasClusterTable(old(cloud.world.net))
    ensures cloud.reliable ==> (ok <==> HasClusterTable(old(cloud.world.net)))
  {
    ghost var n := cloud.world.net;
    var tables := GetClusterRouteTables(cloud.world.net);
    if tables == [] {
      return false;
    }
    assert AllFit(n, tables, v.cidr, p, true) by {
      cloud.IsSafe();
      ClusterTablesFit(n, tables, v, p);
    }
    ok := EnsureRoutes(cloud, tables, v.cidr, p, true);
    if ok {
      ghost var t0 :| t0 in n.tables && n.tables[t0].vpcId == CLUSTER_VPC;
      assert cloud.world.net.tables[t0].vpcId == CLUSTER_VPC;
      ghost var after := cloud.world.net;
      forall t | t in after.tables && after.tables[t].vpcId == CLUSTER_VPC && after.tables[t].accepts
        ensures HasRoute(after, t, v.cidr, p)
      {
        assert t in tables;
      }
    }
  }

  lemma ClusterTablesFit(n: Network, tables: seq<nat>, v: VpcRecord, p: nat)
    requires NetSafe(n) && n.vpc == Some(v) && Live(n, p)
    requires forall t :: t in tables <==> t in n.tables && n.tables[t].vpcId == CLUSTER_VPC
    ensures AllFit(n, tables, v.cidr, p, true)
  {
    forall i | 0 <= i < |tables|
      ensures tables[i] in n.tables && (Fits(n, tables[i], v.cidr, p) || !n.tables[tables[i]].accepts)
    {
      assert tables[i] in tables;
      OnlyRoute(n, tables[i], p);
    }
  }

  /** Every table with the owner tag has the route to the cluster through p, or takes it. */
  ghost predicate OwnFit(n: Network, p: nat) {
    !Untagged(n) && forall t :: t in n.tables && n.tables[t].tagged ==> Fits(n, t, n.cluster, p)
  }

  method RouteOwn(cloud: Cloud, p: nat) returns (ok: bool)
    requires cloud.Valid() && cloud.world.net.vpc.Some? && Live(cloud.world.net, p)
    modifies cloud
    ensures cloud.Valid() && Extends(old(cloud.trace), cloud.trace)
    ensures cloud.world == old(cloud.world).(net := cloud.world.net)
    ensures RoutesOnly(old(cloud.world.net), cloud.world.net)
    ensures forall u, e, q :: HasRoute(old(cloud.world.net), u, e, q) ==> HasRoute(cloud.world.net, u, e, q)
    ensures Untagged(old(cloud.world.net)) ==> cloud.world == old(cloud.world)
    ensures ok ==> OwnRouted(cloud.world.net, p) && OwnFit(old(cloud.world.net), p)
    ensures cloud.reliable ==> (ok <==> OwnFit(old(cloud.world.net), p))
  {
    ghost var n := cloud.world.net;
    var tables := GetOwnRouteTables(cloud.world.net);
    if tables == [] {
      return false;
    }
    assert forall i :: 0 <= i < |tables| ==> n.tables[tables[i]].vpcId != CLUSTER_VPC by { cloud.IsSafe(); }
    assert OwnFit(n, p) <==> AllFit(n, tables, n.cluster, p, false) by {
      if AllFit(n, tables, n.cluster, p, false) {
        forall t | t in n.tables && n.tables[t].tagged ensures Fits(n, t, n.cluster, p) {
          assert t in tables;
        }
      }
    }
    ok := EnsureRoutes(cloud, tables, cloud.world.net.cluster, p, false);
    if ok {
      assert tables[0] in tables && cloud.world.net.tables[tables[0]].tagged;
      forall t | t in cloud.world.net.tables && cloud.world.net.tables[t].tagged
        ensures HasRoute(cloud.world.net, t, cloud.world.net.cluster, p)
      {
        assert t in tables;
      }
    }
  }

  /** CreateNetworkConnection: security group, then the cluster's routes, then the VPC's own. */
  method CreateNetworkConnection(cloud: Cloud, v: VpcRecord, ghost p: nat) returns (ok: bool)
    requires cloud.Valid() && cloud.world.net.vpc == Some(v) && Live(cloud.world.net, p)
    modifies cloud
    ensures cloud.Valid() && Extends(old(cloud.trace), cloud.trace)
    ensures cloud.world == old(cloud.world).(net := cloud.world.net)
    ensures RoutesOnly(old(cloud.world.net).(sg := cloud.world.net.sg), cloud.world.net)
    ensures ok ==> cloud.world.net.sg.Some? && cloud.world.net.sg.value.admitsCluster && !Untagged(cloud.world.net)
    ensures cloud.reliable ==> cloud.world.net.sg.Some? && cloud.world.net.sg.value.admitsCluster
    ensures ok && TablesTagged(cloud.world.net, v) ==> RoutedThrough(cloud.world.net, v, p)
    ensures cloud.reliable ==> (ok <==> HasClusterTable(old(cloud.world.net)) && OwnFit(old(cloud.world.net), p))
    ensures Untagged(old(cloud.world.net)) ==>
              OthersSame(old(cloud.world.net).(sg := cloud.world.net.sg), cloud.world.net)
  {
    ok := ReconcileSecurityGroup(cloud);
    if !ok {
      return;
    }
    var peering := GetClusterNetworkPeering(cloud, v);
    if peering.None? {
      return false;
    }
    assert peering.value == p by { cloud.IsSafe(); }
    assert HasClusterTable(cloud.world.net) <==> HasClusterTable(old(cloud.world.net));
    ok := RouteCluster(cloud, v, peering.value);
    if !ok {
      return;
    }
    ghost var mid := cloud.world.net;
    assert OwnFit(mid, p) <==> OwnFit(old(cloud.world.net), p) by {
      cloud.IsSafe();
      OwnUntouched(old(cloud.world.net), mid, p);
    }
    ok := RouteOwn(cloud, peering.value);
    if ok && TablesTagged(cloud.world.net, v) {
      BothWays(mid, cloud.world.net, v, p);
    }
  }

  lemma OwnUntouched(n: Network, n': Network, p: nat)
    requires NetSafe(n') && n'.vpc.Some? && RoutesOnly(n.(sg := n'.sg), n') && OthersSame(n.(sg := n'.sg), n')
    ensures OwnFit(n', p) <==> OwnFit(n, p)
  {
    forall t | t in n.tables && n.tables[t].tagged
      ensures n'.tables[t] == n.tables[t] && (Fits(n, t, n.cluster, p) <==> Fits(n', t, n.cluster, p))
    {
      assert n'.tables[t].tagged && n'.tables[t].vpcId == n'.vpc.value.id;
    }
    assert forall t :: t in n.tables ==> n'.tables[t].tagged == n.tables[t].tagged;
  }

  lemma BothWays(mid: Network, n: Network, v: VpcRecord, p: nat)
    requires RoutesOnly(mid, n) && ClusterRouted(mid, v, p) && OwnRouted(n, p) && TablesTagged(n, v)
    requires forall u, e, q :: HasRoute(mid, u, e, q) ==> HasRoute(n, u, e, q)
    ensures RoutedThrough(n, v, p)
  {
    var t0 :| t0 in mid.tables && mid.tables[t0].vpcId == CLUSTER_VPC;
    assert n.tables[t0].vpcId == CLUSTER_VPC;
    forall t | t in n.tables && n.tables[t].vpcId == CLUSTER_VPC && n.tables[t].accepts
      ensures HasRoute(n, t, v.cidr, p)
    {
      assert HasRoute(mid, t, v.cidr, p);
    }
    assert forall t :: t in n.tables && n.tables[t].vpcId == v.id ==> HasRoute(n, t, n.cluster, p);
  }

  // ---------------------------------------------------------------- teardown

  /** Deletes the security group first, and only then asks for the peering whose routes are to go. */
  method DeleteNetworkConnection(cloud: Cloud, peering: Option<nat>) returns (ok: bool)
    requires cloud.Valid() && cloud.world.instances == map[] && cloud.world.crs != map[]
    requires cloud.world.net.vpc.Some?
    requires peering.None? ==> NoLivePeering(cloud.world.net)
    requires peering.Some? ==> Live(cloud.world.net, peering.value)
    modifies cloud
    ensures cloud.Valid() && Extends(old(cloud.trace), cloud.trace)
    ensures cloud.world == old(cloud.world).(net := cloud.world.net)
    ensures RoutesOnly(old(cloud.world.net).(sg := cloud.world.net.sg), cloud.world.net)
    ensures ok ==> peering.Some? && HasClusterTable(old(cloud.world.net))
    ensures ok ==> cloud.world.net.sg.None? && NoClusterRoutes(cloud.world.net)
    ensures cloud.reliable ==> cloud.world.net.sg.None?
    ensures cloud.reliable ==> (ok <==> peering.Some? && HasClusterTable(old(cloud.world.net)))
  {
    ok := cloud.Answers();
    if !ok {
      return;
    }
    if cloud.world.net.sg.Some? {
      cloud.IsSafe();
      RemoveSgSafe(cloud.world.net);
      ok := Reshape(cloud, RemoveSg(cloud.world.net));
      if !ok {
        return;
      }
    }
    var tables := GetClusterRouteTables(cloud.world.net);
    assert HasClusterTable(cloud.world.net) == HasClusterTable(old(cloud.world.net));
    if tables == [] || peering.None? {
      return false;
    }
    ok := DeleteRoutes(cloud, tables, peering.value);
  }

  method DeleteRoutes(cloud: Cloud, tables: seq<nat>, p: nat) returns (ok: bool)
    requires cloud.Valid() && cloud.world.instances == map[] && cloud.world.crs != map[]
    requires cloud.world.net.vpc.Some? && Live(cloud.world.net, p)
    requires forall t :: t in tables <==> t in cloud.world.net.tables && cloud.world.net.tables[t].vpcId == CLUSTER_VPC
    modifies cloud
    ensures cloud.Valid() && Extends(old(cloud.trace), cloud.trace)
    ensures cloud.world == old(cloud.world).(net := cloud.world.net)
    ensures RoutesOnly(old(cloud.world.net), cloud.world.net)
    ensures ok ==> NoClusterRoutes(cloud.world.net)
    ensures cloud.reliable ==> ok
  {
    ghost var n := cloud.world.net;
    for i := 0 to |tables|
      invariant cloud.Valid() && Extends(old(cloud.trace), cloud.trace)
      invariant cloud.world == old(cloud.world).(net := cloud.world.net) && RoutesOnly(n, cloud.world.net)
      invariant forall k :: 0 <= k < i ==> NoRoutes(cloud.world.net, tables[k])
    {
      assert tables[i] in tables;
      ok := DeleteRoute(cloud, tables[i], p);
      if !ok {
        return;
      }
    }
    ok := true;
  }

  ghost predicate NoRoutes(n: Network, t: nat) {
    t in n.tables && n.tables[t].routes == map[]
  }

  /** One cluster table: the route to the VPC through p goes, if it is there. */
  method DeleteRoute(cloud: Cloud, t: nat, p: nat) returns (ok: bool)
    requires cloud.Valid() && cloud.world.instances == map[] && cloud.world.crs != map[]
    requires cloud.world.net.vpc.Some? && Live(cloud.world.net, p)
    requires t in cloud.world.net.tables && cloud.world.net.tables[t].vpcId == CLUSTER_VPC
    modifies cloud
    ensures cloud.Valid() && Extends(old(cloud.trace), cloud.trace)
    ensures cloud.world == old(cloud.world).(net := cloud.world.net)
    ensures RoutesOnly(old(cloud.world.net), cloud.world.net)
    ensures forall u :: NoRoutes(old(cloud.world.net), u) ==> NoRoutes(cloud.world.net, u)
    ensures ok ==> NoRoutes(cloud.world.net, t)
    ensures cloud.reliable ==> ok
  {
    var table := cloud.world.net.tables[t];
    var d := cloud.world.net.vpc.value.cidr;
    cloud.IsSafe();
    OnlyRoute(cloud.world.net, t, p);
    ok := true;
    if d in table.routes && table.routes[d] == p {
      RemoveRouteSafe(cloud.world.net, t, d);
      ok := Reshape(cloud, RemoveRoute(cloud.world.net, t, d));
    }
  }

  /** A cluster table holds at most the one route the operator looks for. */
  lemma OnlyRoute(n: Network, t: nat, p: nat)
    requires NetSafe(n) && n.vpc.Some? && Live(n, p) && t in n.tables && n.tables[t].vpcId == CLUSTER_VPC
    ensures n.tables[t].routes == map[] || n.tables[t].routes == map[n.vpc.value.cidr := p]
  {
    if n.tables[t].routes != map[] {
      var d :| d in n.tables[t].routes;
      assert d == n.vpc.value.cidr && Live(n, n.tables[t].routes[d]);
      assert n.tables[t].routes == map[n.vpc.value.cidr := p];
    }
  }

  method DeleteNetworkPeering(cloud: Cloud, p: nat) returns (ok: bool)
    requires cloud.Valid() && cloud.world.instances == map[] && cloud.world.crs != map[]
    requires Live(cloud.world.net, p) && NoClusterRoutes(cloud.world.net)
    modifies cloud
    ensures cloud.Valid() && Extends(old(cloud.trace), cloud.trace)
    ensures cloud.world == old(cloud.world).(net := cloud.world.net)
    ensures PeeringsOnly(old(cloud.world.net), cloud.world.net)
    ensures ok ==> NoLivePeering(cloud.world.net)
    ensures cloud.reliable ==> ok
  {
    ok := cloud.Answers();
    if !ok {
      return;
    }
    cloud.IsSafe();
    KillPeeringSafe(cloud.world.net, p);
    ok := Reshape(cloud, SetPeering(cloud.world.net, p, Deleting));
  }

  /** DeleteNetwork: all subnets, both groups, and the VPC last. */
  method DeleteNetwork(cloud: Cloud) returns (ok: bool)
    requires cloud.Valid() && cloud.world.instances == map[] && cloud.world.crs != map[]
    requires cloud.world.net.vpc.Some? && cloud.world.net.sg.None? && NoLivePeering(cloud.world.net)
    modifies cloud
    ensures cloud.Valid() && Extends(old(cloud.trace), cloud.trace)
    ensures cloud.world == old(cloud.world).(net := cloud.world.net)
    ensures ok <==> cloud.world.net.vpc.None?
    ensures cloud.reliable ==> ok
  {
    ok := DeleteSubnets(cloud);
    if !ok {
      return;
    }
    ok := DeleteGroup(cloud, Postgres);
    if !ok {
      return;
    }
    ok := DeleteGroup(cloud, Redis);
    if !ok {
      return;
    }
    cloud.IsSafe();
    RemoveVpcSafe(cloud.world.net);
    ok := Reshape(cloud, RemoveVpc(cloud.world.net));
  }

  method DeleteSubnet(cloud: Cloud, s: nat) returns (ok: bool)
    requires cloud.Valid() && cloud.world.instances == map[] && cloud.world.crs != map[]
    modifies cloud
    ensures cloud.Valid() && Extends(old(cloud.trace), cloud.trace)
    ensures cloud.world ==
              old(cloud.world).(net := if ok then RemoveSubnet(old(cloud.world.net), s) else old(cloud.world.net))
    ensures cloud.reliable ==> ok
  {
    cloud.IsSafe();
    RemoveSubnetSafe(cloud.world.net, s);
    ok := Reshape(cloud, RemoveSubnet(cloud.world.net, s));
  }

  method DeleteSubnets(cloud: Cloud) returns (ok: bool)
    requires cloud.Valid() && cloud.world.instances == map[] && cloud.world.crs != map[]
    requires cloud.world.net.vpc.Some?
    modifies cloud
    ensures cloud.Valid() && Extends(old(cloud.trace), cloud.trace)
    ensures cloud.world == old(cloud.world).(net := old(cloud.world.net).(subnets := cloud.world.net.subnets))
    ensures ok ==> cloud.world.net.subnets == map[]
    ensures cloud.reliable ==> ok
  {
    ok := cloud.Answers();
    if !ok {
      return;
    }
    ghost var before := cloud.world.net.subnets;
    var ids := GetVpcAssociatedSubnets(cloud);
    for i := 0 to |ids|
      invariant cloud.Valid() && Extends(old(cloud.trace), cloud.trace)
      invariant cloud.world == old(cloud.world).(net := old(cloud.world.net).(subnets := cloud.world.net.subnets))
      invariant cloud.world.net.subnets.Keys <= before.Keys
      invariant forall k :: 0 <= k < i ==> ids[k] !in cloud.world.net.subnets
    {
      ok := DeleteSubnet(cloud, ids[i]);
      if !ok {
        return;
      }
    }
    assert forall s :: s in before ==> s in ids;
    ok := true;
  }

  /** getVPCAssociatedSubnets finds all the operator's subnets, since all of them are in the VPC. */
  method GetVpcAssociatedSubnets(cloud: Cloud) returns (ids: seq<nat>)
    requires cloud.Valid() && cloud.world.net.vpc.Some?
    ensures forall s :: s in cloud.world.net.subnets <==> s in ids
  {
    cloud.IsSafe();
    var n := cloud.world.net;
    ids := Listing<nat>(set s | s in n.subnets && n.subnets[s].vpcId == n.vpc.value.id);
  }

  method DeleteGroup(cloud: Cloud, kind: Kind) returns (ok: bool)
    requires cloud.Valid() && cloud.world.instances == map[] && cloud.world.crs != map[]
    modifies cloud
    ensures cloud.Valid() && Extends(old(cloud.trace), cloud.trace)
    ensures cloud.world ==
              old(cloud.world).(net := if ok then RemoveGroup(old(cloud.world.net), kind) else old(cloud.world.net))
    ensures cloud.reliable ==> ok
  {
    ok := cloud.Answers();
    if !ok {
      return;
    }
    if Group(cloud.world.net, kind).Some? {
      cloud.IsSafe();
      RemoveGroupSafe(cloud.world.net, kind);
      ok := Reshape(cloud, RemoveGroup(cloud.world.net, kind));
    }
  }
}

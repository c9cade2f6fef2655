/**
 Private subnets inside the cluster's own VPC (pkg/providers/aws/cluster_vpc.go): one per
 availability zone, each in a free /27 slot of the VPC block.
 */
module BundledSubnets {
  import opened Arithmetic
  import opened Cidr
  import opened CloudVpc
  import opened SubnetGenerator
  import opened Wrappers

  datatype Zone = Zone(name: string, available: bool)

  /** Slot j is the block, it is free, and every higher slot is not. */
  ghost predicate IsHighestFree(vpc: Net, subnets: seq<Subnet>, block: Net, j: int)
    requires vpc.prefix < DEFAULT_SUBNET_MASK
  {
    var slots := SubBlocks(vpc, DEFAULT_SUBNET_MASK);
    && 0 <= j < |slots| && block == slots[j] && FreeIn(block, subnets)
    && forall i :: j < i < |slots| ==> !FreeIn(slots[i], subnets)
  }

  ghost predicate TakesHighestFree(vpc: Net, subnets: seq<Subnet>, block: Net)
    requires vpc.prefix < DEFAULT_SUBNET_MASK
  {
    exists j :: IsHighestFree(vpc, subnets, block, j)
  }

  ghost predicate NoSlotFree(vpc: Net, subnets: seq<Subnet>)
    requires vpc.prefix < DEFAULT_SUBNET_MASK
  {
    forall i :: 0 <= i < Pow2(DEFAULT_SUBNET_MASK - vpc.prefix) ==>
      !FreeIn(SubBlock(vpc, DEFAULT_SUBNET_MASK, i), subnets)
  }

  /** Later lists extend earlier ones, each new subnet in the slot that was the highest free one at that moment. */
  ghost predicate GrownBySlots(vpc: Net, before: seq<Subnet>, after: seq<Subnet>) {
    && |before| <= |after| && after[..|before|] == before
    && (|before| < |after| ==> vpc.prefix < DEFAULT_SUBNET_MASK)
    && forall i :: |before| <= i < |after| ==> TakesHighestFree(vpc, after[..i], after[i].block)
  }

  ghost predicate HasPrivate(subnets: seq<Subnet>, zone: string) {
    exists i :: 0 <= i < |subnets| && subnets[i].private && subnets[i].zone == zone
  }

  lemma GrowOne(vpc: Net, before: seq<Subnet>, mid: seq<Subnet>, s: Subnet)
    requires GrownBySlots(vpc, before, mid)
    requires vpc.prefix < DEFAULT_SUBNET_MASK && TakesHighestFree(vpc, mid, s.block)
    ensures GrownBySlots(vpc, before, mid + [s])
  {
    var after := mid + [s];
    forall i | |before| <= i < |after| ensures TakesHighestFree(vpc, after[..i], after[i].block) {
      assert i < |mid| ==> after[..i] == mid[..i] && after[i] == mid[i];
      assert i == |mid| ==> after[..i] == mid;
    }
  }

  /** The n highest slots are all taken. */
  ghost predicate TriedBelow(vpc: Net, subnets: seq<Subnet>, n: int)
    requires vpc.prefix < DEFAULT_SUBNET_MASK && 0 <= n <= Pow2(DEFAULT_SUBNET_MASK - vpc.prefix)
  {
    var slots := SubBlocks(vpc, DEFAULT_SUBNET_MASK);
    forall i :: |slots| - n <= i < |slots| ==> !FreeIn(slots[i], subnets)
  }

  lemma HighestOrNext(vpc: Net, subnets: seq<Subnet>, block: Net, n: int)
    requires vpc.prefix < DEFAULT_SUBNET_MASK && 0 <= n < Pow2(DEFAULT_SUBNET_MASK - vpc.prefix)
    requires TriedBelow(vpc, subnets, n) && block == Reversed(SubBlocks(vpc, DEFAULT_SUBNET_MASK))[n]
    ensures FreeIn(block, subnets) ==> TakesHighestFree(vpc, subnets, block)
    ensures !FreeIn(block, subnets) ==> TriedBelow(vpc, subnets, n + 1)
  {
    var slots := SubBlocks(vpc, DEFAULT_SUBNET_MASK);
    if FreeIn(block, subnets) {
      assert IsHighestFree(vpc, subnets, block, |slots| - 1 - n);
    }
  }

  datatype AllocationError = NoSubnets | BlockUnusable | NoRoom | ApiError

  /** One attempt of createPrivateSubnet: create the subnet in this slot, then tag it. */
  method TrySlot(v: Vpc, zone: string, block: Net) returns (r: CreateOutcome)
    requires v.Valid()
    modifies v
    ensures v.Valid()
    ensures r.Conflict? ==> v.subnets == old(v.subnets) && !FreeIn(block, v.subnets)
    ensures r.Created? ==>
              && FreeIn(block, old(v.subnets)) && v.subnets == old(v.subnets) + [r.subnet]
              && r.subnet.private && r.subnet.zone == zone && r.subnet.block == block
    ensures r.CallFailed? && v.subnets != old(v.subnets) ==>
              && FreeIn(block, old(v.subnets)) && |v.subnets| == |old(v.subnets)| + 1
              && v.subnets == old(v.subnets) + [v.subnets[|old(v.subnets)|]]
              && v.subnets[|old(v.subnets)|].block == block && !v.subnets[|old(v.subnets)|].private
              && v.subnets[|old(v.subnets)|].zone == zone
  {
    r := v.CreateSubnet(zone, block);
    if r.Created? {
      ghost var created := v.subnets;
      var tagged := v.Tag(|v.subnets| - 1);
      assert created[..|created| - 1] == old(v.subnets);
      r := if tagged then Created(r.subnet.(private := true)) else CallFailed;
    }
  }

  /**
   createPrivateSubnet tries the slots from the top of the VPC downwards. It takes the highest
   free one, gives up only when none is free, and whatever fails leaves at most one new,
   untagged subnet behind.
   */
  method CreatePrivateSubnet(v: Vpc, zone: string) returns (r: Result<Subnet, AllocationError>)
    requires v.Valid()
    modifies v
    ensures v.Valid() && GrownBySlots(v.cidr, old(v.subnets), v.subnets)
    ensures r.Success? ==> v.subnets == old(v.subnets) + [r.value] && r.value.private && r.value.zone == zone
    ensures r == Failure(NoRoom) ==>
              v.subnets == old(v.subnets) && v.cidr.prefix < DEFAULT_SUBNET_MASK && NoSlotFree(v.cidr, v.subnets)
    ensures r == Failure(BlockUnusable) <==> v.cidr.prefix >= DEFAULT_SUBNET_MASK
    ensures r.Failure? && v.subnets != old(v.subnets) ==>
              && |v.subnets| == |old(v.subnets)| + 1
              && !v.subnets[|old(v.subnets)|].private && v.subnets[|old(v.subnets)|].zone == zone
  {
    var slots := BuildSubnetAddress(Some(v.cidr));
    if slots.Failure? {
      return Failure(BlockUnusable);
    }
    for i := 0 to |slots.value|
      invariant v.Valid() && v.subnets == old(v.subnets)
      invariant TriedBelow(v.cidr, v.subnets, i)
    {
      var outcome := TrySlot(v, zone, slots.value[i]);
      HighestOrNext(v.cidr, old(v.subnets), slots.value[i], i);
      if !outcome.Conflict? {
        if v.subnets != old(v.subnets) {
          GrowOne(v.cidr, old(v.subnets), old(v.subnets), v.subnets[|old(v.subnets)|]);
        }
        return if outcome.Created? then Success(outcome.subnet) else Failure(ApiError);
      }
    }
    return Failure(NoRoom);
  }

  /** The ids of the subnets that carry the private tag, in order. */
  function PrivateIds(subnets: seq<Subnet>): seq<nat> {
    if subnets == [] then []
    else
      var rest := PrivateIds(subnets[..|subnets| - 1]);
      var last := subnets[|subnets| - 1];
      if last.private then rest + [last.id] else rest
  }

  ghost predicate IsPrivateId(subnets: seq<Subnet>, id: nat) {
    exists i :: 0 <= i < |subnets| && subnets[i].private && subnets[i].id == id
  }

  lemma {:induction false} PrivateIdsAre(subnets: seq<Subnet>, id: nat)
    ensures id in PrivateIds(subnets) <==> IsPrivateId(subnets, id)
  {
    if subnets != [] {
      var init, last := subnets[..|subnets| - 1], subnets[|subnets| - 1];
      PrivateIdsAre(init, id);
      assert forall i :: 0 <= i < |init| ==> init[i] == subnets[i];
      if id in PrivateIds(init) {
        var i :| 0 <= i < |init| && init[i].private && init[i].id == id;
        assert subnets[i] == init[i];
      }
    }
  }

  /** The subnet at i was made for a listed zone that was not available or had no private subnet yet. */
  ghost predicate WasNeeded(subnets: seq<Subnet>, i: int, zones: seq<Zone>)
    requires 0 <= i < |subnets|
  {
    exists z :: z in zones && z.name == subnets[i].zone && !(z.available && HasPrivate(subnets[..i], z.name))
  }

  ghost predicate AllNeeded(subnets: seq<Subnet>, from: int, zones: seq<Zone>)
    requires 0 <= from
  {
    forall i :: from <= i < |subnets| ==> WasNeeded(subnets, i, zones)
  }

  /** Every zone is available and has a private subnet. */
  ghost predicate AllServed(zones: seq<Zone>, subnets: seq<Subnet>) {
    forall i :: 0 <= i < |zones| ==> zones[i].available && HasPrivate(subnets, zones[i].name)
  }

  /**
   GetPrivateSubnetIDS. On success every listed zone has a private subnet, and the result is the
   ids of exactly the private subnets; all subnets stay pairwise disjoint and nothing is removed;
   and a subnet is made only for a zone that needs one, so when every zone is available and
   already has one, nothing is created.
   */
  method GetPrivateSubnetIds(v: Vpc, zones: seq<Zone>) returns (r: Result<seq<nat>, AllocationError>)
    requires v.Valid()
    modifies v
    ensures v.Valid() && GrownBySlots(v.cidr, old(v.subnets), v.subnets)
    ensures r.Success? ==> r.value == PrivateIds(v.subnets) && forall z :: z in zones ==> HasPrivate(v.subnets, z.name)
    ensures r.Success? ==> forall id :: id in r.value <==> IsPrivateId(v.subnets, id)
    ensures AllNeeded(v.subnets, |old(v.subnets)|, zones)
    ensures r == Failure(NoRoom) ==> v.cidr.prefix < DEFAULT_SUBNET_MASK && NoSlotFree(v.cidr, v.subnets)
    ensures AllServed(zones, old(v.subnets)) ==> v.subnets == old(v.subnets)
  {
    if v.subnets == [] {
      return Failure(NoSubnets);
    }
    var ids, privateZones := GatherPrivate(v.subnets);
    for i := 0 to |zones|
      invariant v.Valid() && GrownBySlots(v.cidr, old(v.subnets), v.subnets)
      invariant ids == PrivateIds(v.subnets) && IsZonesOf(privateZones, v.subnets)
      invariant forall k :: 0 <= k < i ==> HasPrivate(v.subnets, zones[k].name)
      invariant AllNeeded(v.subnets, |old(v.subnets)|, zones)
      invariant AllServed(zones, old(v.subnets)) ==> v.subnets == old(v.subnets)
    {
      ghost var mid := v.subnets;
      var served := ServeZone(v, zones[i], ids, privateZones);
      GrowMore(v.cidr, old(v.subnets), mid, v.subnets);
      NeedsStay(mid, v.subnets, |old(v.subnets)|, zones, zones[i]);
      if served.Failure? {
        return Failure(served.error);
      }
      ids, privateZones := served.value.0, served.value.1;
    }
    forall id ensures id in ids <==> IsPrivateId(v.subnets, id) {
      PrivateIdsAre(v.subnets, id);
    }
    if ids == [] {
      return Failure(NoSubnets);
    }
    return Success(ids);
  }

  /** One zone: nothing if it is available and has a private subnet, else one more subnet. */
  method ServeZone(v: Vpc, zone: Zone, ids: seq<nat>, privateZones: seq<string>)
    returns (r: Result<(seq<nat>, seq<string>), AllocationError>)
    requires v.Valid() && ids == PrivateIds(v.subnets) && IsZonesOf(privateZones, v.subnets)
    modifies v
    ensures v.Valid() && GrownBySlots(v.cidr, old(v.subnets), v.subnets) && |v.subnets| <= |old(v.subnets)| + 1
    ensures zone.available && HasPrivate(old(v.subnets), zone.name) ==> r.Success? && v.subnets == old(v.subnets)
    ensures |v.subnets| > |old(v.subnets)| ==> v.subnets[|old(v.subnets)|].zone == zone.name
    ensures r.Success? ==>
              && r.value.0 == PrivateIds(v.subnets) && IsZonesOf(r.value.1, v.subnets)
              && HasPrivate(v.subnets, zone.name)
    ensures forall z :: HasPrivate(old(v.subnets), z) ==> HasPrivate(v.subnets, z)
    ensures r == Failure(NoRoom) ==> v.cidr.prefix < DEFAULT_SUBNET_MASK && NoSlotFree(v.cidr, v.subnets)
  {
    var present := zone.available && zone.name in privateZones;
    if present {
      return Success((ids, privateZones));
    }
    ghost var before := v.subnets;
    var made := CreatePrivateSubnet(v, zone.name);
    PrivateStays(before, v.subnets);
    if made.Failure? {
      return Failure(made.error);
    }
    OneMorePrivate(old(v.subnets), made.value, privateZones);
    return Success((ids + [made.value.id], privateZones + [made.value.zone]));
  }

  lemma PrivateStays(before: seq<Subnet>, after: seq<Subnet>)
    requires |before| <= |after| && after[..|before|] == before
    ensures forall z :: HasPrivate(before, z) ==> HasPrivate(after, z)
  {
    forall z | HasPrivate(before, z) ensures HasPrivate(after, z) {
      var i :| 0 <= i < |before| && before[i].private && before[i].zone == z;
      assert after[i] == after[..|before|][i];
    }
  }

  /** The list holds exactly the zones that have a private subnet. */
  ghost predicate IsZonesOf(zones: seq<string>, subnets: seq<Subnet>) {
    forall z :: z in zones <==> HasPrivate(subnets, z)
  }

  /** The ids and zones of the subnets that carry the private tag. */
  method GatherPrivate(subnets: seq<Subnet>) returns (ids: seq<nat>, zones: seq<string>)
    ensures ids == PrivateIds(subnets) && IsZonesOf(zones, subnets)
  {
    ids, zones := [], [];
    for i := 0 to |subnets|
      invariant ids == PrivateIds(subnets[..i]) && IsZonesOf(zones, subnets[..i])
    {
      assert subnets[..i + 1] == subnets[..i] + [subnets[i]];
      if subnets[i].private {
        OneMorePrivate(subnets[..i], subnets[i], zones);
        ids, zones := ids + [subnets[i].id], zones + [subnets[i].zone];
      } else {
        NotOneMore(subnets[..i], subnets[i], zones);
      }
    }
    assert subnets[..|subnets|] == subnets;
  }

  lemma OneMorePrivate(subnets: seq<Subnet>, s: Subnet, zones: seq<string>)
    requires s.private && IsZonesOf(zones, subnets)
    ensures PrivateIds(subnets + [s]) == PrivateIds(subnets) + [s.id]
    ensures IsZonesOf(zones + [s.zone], subnets + [s])
  {
    var more := subnets + [s];
    assert more[..|more| - 1] == subnets && more[|subnets|] == s;
    forall z ensures z in zones + [s.zone] <==> HasPrivate(more, z) {
      if HasPrivate(subnets, z) {
        var i :| 0 <= i < |subnets| && subnets[i].private && subnets[i].zone == z;
        assert more[i] == subnets[i];
      }
      assert z in zones <==> HasPrivate(subnets, z);
    }
  }

  lemma NotOneMore(subnets: seq<Subnet>, s: Subnet, zones: seq<string>)
    requires !s.private && IsZonesOf(zones, subnets)
    ensures PrivateIds(subnets + [s]) == PrivateIds(subnets)
    ensures IsZonesOf(zones, subnets + [s])
  {
    var more := subnets + [s];
    assert more[..|more| - 1] == subnets && more[|subnets|] == s;
    forall z ensures z in zones <==> HasPrivate(more, z) {
      if HasPrivate(subnets, z) {
        var i :| 0 <= i < |subnets| && subnets[i].private && subnets[i].zone == z;
        assert more[i] == subnets[i];
      }
      assert z in zones <==> HasPrivate(subnets, z);
    }
  }

  /** What was needed before is still, and so is one more subnet for a zone without. */
  lemma NeedsStay(before: seq<Subnet>, after: seq<Subnet>, from: int, zones: seq<Zone>, zone: Zone)
    requires 0 <= from <= |before| <= |after| <= |before| + 1 && after[..|before|] == before
    requires AllNeeded(before, from, zones)
    requires zone in zones
    requires |after| > |before| ==> after[|before|].zone == zone.name
    requires |after| > |before| ==> !(zone.available && HasPrivate(before, zone.name))
    ensures AllNeeded(after, from, zones)
  {
    forall k | from <= k < |after| ensures WasNeeded(after, k, zones) {
      if k < |before| {
        assert WasNeeded(before, k, zones) && after[..k] == before[..k] && after[k] == before[k];
      } else {
        assert after[..k] == before;
      }
    }
  }

  lemma GrowMore(vpc: Net, a: seq<Subnet>, b: seq<Subnet>, c: seq<Subnet>)
    requires GrownBySlots(vpc, a, b) && GrownBySlots(vpc, b, c)
    ensures GrownBySlots(vpc, a, c)
  {
    assert c[..|a|] == c[..|b|][..|a|];
    forall i | |a| <= i < |c| ensures TakesHighestFree(vpc, c[..i], c[i].block) {
      if i < |b| {
        assert c[..i] == b[..i] && c[i] == b[i];
      }
    }
  }
}

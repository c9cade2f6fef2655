/** A VPC as the cloud sees it: a block and the subnets created in it. */
module CloudVpc {
  import opened Cidr

  datatype Subnet = Subnet(id: nat, block: Net, zone: string, private: bool)

  /** No subnet of the list shares an address with the block. */
  ghost predicate FreeIn(block: Net, subnets: seq<Subnet>) {
    forall i :: 0 <= i < |subnets| ==> !ShareAddress(subnets[i].block, block)
  }

  ghost predicate PairwiseDisjoint(subnets: seq<Subnet>) {
    forall i, j :: 0 <= i < j < |subnets| ==> !ShareAddress(subnets[i].block, subnets[j].block)
  }

  datatype CreateOutcome = Created(subnet: Subnet) | Conflict | CallFailed

  class Vpc {
    const cidr: Net
    var subnets: seq<Subnet>

    /** A prefix of 0 is no VPC block; see SubnetGenerator.GenerateAvailableSubnets. */
    ghost predicate Valid()
      reads this
    {
      cidr.prefix >= 1 && PairwiseDisjoint(subnets)
    }

    constructor (cidr: Net)
      requires cidr.prefix >= 1
      ensures Valid() && this.cidr == cidr && subnets == []
    {
      this.cidr := cidr;
      subnets := [];
    }

    /** The cloud's side of CreateSubnet: it reports a conflict for overlapping blocks only, and may fail otherwise. */
    method CreateSubnet(zone: string, block: Net) returns (r: CreateOutcome)
      requires Valid()
      modifies this
      ensures Valid()
      ensures r.Conflict? ==> !FreeIn(block, subnets)
      ensures !r.Created? ==> subnets == old(subnets)
      ensures r.Created? ==>
                && FreeIn(block, old(subnets)) && subnets == old(subnets) + [r.subnet]
                && r.subnet == Subnet(|old(subnets)|, block, zone, false)
    {
      if * {
        return CallFailed;
      }
      for i := 0 to |subnets|
        invariant subnets == old(subnets)
        invariant forall k :: 0 <= k < i ==> !ShareAddress(subnets[k].block, block)
      {
        TouchTestIsExact(subnets[i].block, block);
        if TouchTest(subnets[i].block, block) {
          return Conflict;
        }
      }
      var s := Subnet(|subnets|, block, zone, false);
      subnets := subnets + [s];
      return Created(s);
    }

    /** tagPrivateSubnet; may fail. */
    method Tag(i: nat) returns (ok: bool)
      requires Valid() && i < |subnets|
      modifies this
      ensures Valid()
      ensures subnets == if ok then old(subnets)[i := old(subnets)[i].(private := true)] else old(subnets)
    {
      ok := *;
      if ok {
        subnets := subnets[i := subnets[i].(private := true)];
      }
    }
  }
}

/**
 Subnets of the standalone VPC (reconcileStandaloneVPCSubnets of
 pkg/providers/aws/cluster_network_provider.go): the two halves of the VPC block, in the two
 lowest-named availability zones that offer the default instance types.
 */
module StandaloneSubnets {
  import opened Arithmetic
  import opened Cidr
  import opened CloudVpc
  import opened Sorting
  import opened SubnetGenerator
  import opened Wrappers

  // ---------------------------------------------------------------- zone names

  /** Go's "<" on strings. */
  predicate NameLess(a: string, b: string) {
    if b == [] then false
    else if a == [] then true
    else if a[0] != b[0] then a[0] < b[0]
    else NameLess(a[1..], b[1..])
  }

  lemma {:induction false} NameLessAsymmetric(a: string, b: string)
    ensures NameLess(a, b) ==> !NameLess(b, a)
    ensures !NameLess(a, b) && !NameLess(b, a) ==> a == b
  {
    if a != [] && b != [] && a[0] == b[0] {
      NameLessAsymmetric(a[1..], b[1..]);
      assert a == [a[0]] + a[1..] && b == [b[0]] + b[1..];
    }
  }

  lemma {:induction false} NotLessTransitive(a: string, b: string, c: string)
    requires !NameLess(b, a) && !NameLess(c, b)
    ensures !NameLess(c, a)
  {
    if a != [] && b != [] && c != [] && a[0] == b[0] == c[0] {
      NotLessTransitive(a[1..], b[1..], c[1..]);
    }
  }

  /** The order is lexicographic: a proper prefix comes first, otherwise the first difference decides. */
  lemma {:induction false} NameLessIsLexicographic(a: string, b: string)
    ensures NameLess(a, b) <==> a < b || exists k :: 0 <= k < |a| && k < |b| && a[..k] == b[..k] && a[k] < b[k]
  {
    if a != [] && b != [] && a[0] == b[0] {
      NameLessIsLexicographic(a[1..], b[1..]);
      assert a == [a[0]] + a[1..] && b == [b[0]] + b[1..];
      FirstDifferenceLater(a, b);
    } else if a != [] && b != [] {
      assert a[..0] == b[..0];
      forall k | 0 < k < |a| && k < |b| ensures a[..k] != b[..k] {
        assert a[..k][0] == a[0] && b[..k][0] == b[0];
      }
    }
  }

  lemma FirstDifferenceLater(a: string, b: string)
    requires a != [] && b != [] && a[0] == b[0]
    ensures (exists k :: 0 <= k < |a| && k < |b| && a[..k] == b[..k] && a[k] < b[k]) <==>
            (exists k :: 0 <= k < |a[1..]| && k < |b[1..]| && a[1..][..k] == b[1..][..k] && a[1..][k] < b[1..][k])
    ensures a < b <==> a[1..] < b[1..]
  {
    if k :| 0 <= k < |a| && k < |b| && a[..k] == b[..k] && a[k] < b[k] {
      assert a[1..][..k - 1] == a[..k][1..] == b[..k][1..] == b[1..][..k - 1];
      assert a[1..][k - 1] == a[k] && b[1..][k - 1] == b[k];
    }
    if k :| 0 <= k < |a[1..]| && k < |b[1..]| && a[1..][..k] == b[1..][..k] && a[1..][k] < b[1..][k] {
      assert a[..k + 1] == [a[0]] + a[1..][..k] == b[..k + 1];
      assert a[1..][k] == a[k + 1] && b[1..][k] == b[k + 1];
    }
    if a[1..] < b[1..] {
      assert b[..|a|] == [b[0]] + b[1..][..|a| - 1] == a;
    }
    if a < b {
      assert b[1..][..|a| - 1] == b[..|a|][1..] == a[1..];
    }
  }

  lemma NamesAreOrdered()
    ensures OrdersByKey(NameLess)
    ensures NoTies(NameLess)
  {
    forall x, y ensures NameLess(x, y) ==> !NameLess(y, x)
      ensures !NameLess(x, y) && !NameLess(y, x) ==> x == y
    {
      NameLessAsymmetric(x, y);
    }
    forall x, y, z | !NameLess(y, x) && !NameLess(z, y) ensures !NameLess(z, x) {
      NotLessTransitive(x, y, z);
    }
  }

  // ---------------------------------------------------------------- choosing the zones

  /** The zones with an offering, in the order the API listed them. */
  function Supported(zones: seq<string>, offered: set<string>): seq<string> {
    if zones == [] then []
    else
      var rest := Supported(zones[..|zones| - 1], offered);
      var last := zones[|zones| - 1];
      if last in offered then rest + [last] else rest
  }

  lemma {:induction false} SupportedCounts(zones: seq<string>, offered: set<string>, z: string)
    ensures multiset(Supported(zones, offered))[z] == if z in offered then multiset(zones)[z] else 0
  {
    if zones != [] {
      var init := zones[..|zones| - 1];
      SupportedCounts(init, offered, z);
      assert zones == init + [zones[|zones| - 1]];
    }
  }

  /** The two lowest names among the supported zones. */
  ghost predicate AreLowest(zones: seq<string>, offered: set<string>, first: string, second: string) {
    exists s :: SortsInto(Supported(zones, offered), s) && |s| >= 2 && s[0] == first && s[1] == second
  }

  ghost predicate SortsInto(zones: seq<string>, s: seq<string>) {
    multiset(s) == multiset(zones) && Sorted(s, NameLess)
  }

  method ChooseZones(zones: seq<string>, offered: set<string>) returns (r: Option<(string, string)>)
    ensures r.None? <==> |Supported(zones, offered)| < 2
    ensures r.Some? ==> AreLowest(zones, offered, r.value.0, r.value.1)
  {
    var supported: seq<string> := [];
    for i := 0 to |zones|
      invariant supported == Supported(zones[..i], offered)
    {
      assert zones[..i + 1][..i] == zones[..i];
      if zones[i] in offered {
        supported := supported + [zones[i]];
      }
    }
    assert zones[..|zones|] == zones;
    NamesAreOrdered();
    var sorted := SortBy(supported, NameLess);
    var valid: seq<string> := [];
    for i := 0 to |sorted|
      invariant i <= 2 && valid == sorted[..i]
    {
      valid := valid + [sorted[i]];
      if i == 1 {
        break;
      }
    }
    if |valid| != 2 {
      return None;
    }
    assert SortsInto(supported, sorted);
    return Some((valid[0], valid[1]));
  }

  /** The choice does not depend on the order in which the API lists the zones. */
  lemma ChoiceIgnoresOrder(zones: seq<string>, zones': seq<string>, offered: set<string>,
                           a: string, b: string, a': string, b': string)
    requires multiset(zones) == multiset(zones')
    requires AreLowest(zones, offered, a, b) && AreLowest(zones', offered, a', b')
    ensures a == a' && b == b'
  {
    var s :| SortsInto(Supported(zones, offered), s) && |s| >= 2 && s[0] == a && s[1] == b;
    var s' :| SortsInto(Supported(zones', offered), s') && |s'| >= 2 && s'[0] == a' && s'[1] == b';
    forall z ensures multiset(s)[z] == multiset(s')[z] {
      SupportedCounts(zones, offered, z);
      SupportedCounts(zones', offered, z);
    }
    NamesAreOrdered();
    SortedIsUnique(s, s', NameLess);
  }

  /**
   The two chosen zones differ exactly when the API lists the lowest supported zone only once: the
   code removes no duplicates.
   */
  lemma ZonesDifferIff(zones: seq<string>, offered: set<string>, a: string, b: string)
    requires AreLowest(zones, offered, a, b)
    ensures a in offered && (a != b <==> multiset(zones)[a] == 1)
  {
    var s :| SortsInto(Supported(zones, offered), s) && |s| >= 2 && s[0] == a && s[1] == b;
    SupportedCounts(zones, offered, a);
    assert a in multiset(s);
    var tail := s[2..];
    assert s == [a, b] + tail;
    if a != b {
      if a in tail {
        var k :| 0 <= k < |tail| && tail[k] == a;
        assert s[k + 2] == a && !NameLess(s[k + 2], s[1]) && !NameLess(s[1], s[0]);
        NameLessAsymmetric(a, b);
      }
      assert multiset(s)[a] == 1 + multiset(tail)[a];
    }
  }

  /** A listing that repeats its lowest zone puts both halves into that zone. */
  lemma RepeatedZoneIsChosenTwice()
    ensures AreLowest(["a", "a", "b"], {"a", "b"}, "a", "a")
  {
    assert NameLess("a", "b");
    RepeatedIsChosenTwice("a", "b");
  }

  lemma RepeatedIsChosenTwice(x: string, y: string)
    requires NameLess(x, y)
    ensures AreLowest([x, x, y], {x, y}, x, x)
  {
    NameLessAsymmetric(x, y);
    NameLessAsymmetric(x, x);
    AllSupported([x, x, y], {x, y});
    assert Sorted([x, x, y], NameLess);
    assert SortsInto(Supported([x, x, y], {x, y}), [x, x, y]);
  }

  lemma {:induction false} AllSupported(zones: seq<string>, offered: set<string>)
    requires forall i :: 0 <= i < |zones| ==> zones[i] in offered
    ensures Supported(zones, offered) == zones
  {
    if zones != [] {
      AllSupported(zones[..|zones| - 1], offered);
      assert zones == zones[..|zones| - 1] + [zones[|zones| - 1]];
    }
  }

  // ---------------------------------------------------------------- reconciling the subnets

  datatype ReconcileError = VpcTooSmall | TooFewZones | ApiError

  function Half(vpc: Net, h: int): Net
    requires vpc.prefix < 32 && 0 <= h < 2
  {
    assert Pow2(1) == 2;
    SubBlock(vpc, vpc.prefix + 1, h)
  }

  ghost predicate HasBlock(subnets: seq<Subnet>, block: Net) {
    exists i :: 0 <= i < |subnets| && subnets[i].block == block
  }

  /** Nothing but halves of the VPC. */
  ghost predicate OnlyHalves(vpc: Net, subnets: seq<Subnet>)
    requires vpc.prefix < 32
  {
    forall i :: 0 <= i < |subnets| ==> subnets[i].block == Half(vpc, 0) || subnets[i].block == Half(vpc, 1)
  }

  /** The two zones as chosen for the lower and the upper half. */
  datatype Zones = Zones(lower: string, upper: string) {
    function At(h: int): string {
      if h == 0 then lower else upper
    }
  }

  /** Same subnets, tags aside, followed only by halves that were missing before, in the zones chosen for them. */
  ghost predicate AddsMissingHalves(vpc: Net, before: seq<Subnet>, after: seq<Subnet>, zones: Zones)
    requires vpc.prefix < 32
  {
    && |before| <= |after|
    && (forall i :: 0 <= i < |before| ==> after[i].(private := before[i].private) == before[i])
    && (forall i :: |before| <= i < |after| ==> IsPlacedHalf(vpc, after[i], zones) && !HasBlock(before, after[i].block))
  }

  ghost predicate IsPlacedHalf(vpc: Net, s: Subnet, zones: Zones)
    requires vpc.prefix < 32
  {
    (s.block == Half(vpc, 0) && s.zone == zones.lower) || (s.block == Half(vpc, 1) && s.zone == zones.upper)
  }

  /** Where a half ends up: where its block already lay, whatever zone that is, and in the chosen zone otherwise. */
  ghost function EndZone(before: seq<Subnet>, block: Net, chosen: string): string {
    if HasBlock(before, block) then before[IndexOf(before, block)].zone else chosen
  }

  ghost function IndexOf(subnets: seq<Subnet>, block: Net): (i: int)
    requires HasBlock(subnets, block)
    ensures 0 <= i < |subnets| && subnets[i].block == block
  {
    var i :| 0 <= i < |subnets| && subnets[i].block == block;
    i
  }

  /** The zone of every half that exists after the pass. */
  lemma HalvesLieIn(vpc: Net, before: seq<Subnet>, after: seq<Subnet>, zones: Zones, i: int, h: int)
    requires vpc.prefix < 32 && PairwiseDisjoint(after) && AddsMissingHalves(vpc, before, after, zones)
    requires 0 <= i < |after| && 0 <= h < 2 && after[i].block == Half(vpc, h)
    ensures after[i].zone == EndZone(before, Half(vpc, h), zones.At(h))
  {
    assert Half(vpc, 0).base != Half(vpc, 1).base by { TwoHalves(vpc); }
    assert i < |before| ==> after[i].block == before[i].block;
    if HasBlock(before, Half(vpc, h)) {
      var k := IndexOf(before, Half(vpc, h));
      assert after[k].block == before[k].block;
      if i != k {
        SameBlockSameIndex(after, i, k);
      }
    }
  }

  /**
   The two subnets lie in different zones exactly if: both halves are new and the lowest
   supported zone is listed once; or one was there and not in the zone chosen for the other; or
   both were there, apart.
   */
  lemma EndZonesDifferIff(vpc: Net, before: seq<Subnet>, listed: seq<string>, offered: set<string>, zones: Zones)
    requires vpc.prefix < 32 && AreLowest(listed, offered, zones.lower, zones.upper)
    ensures var lower, upper := HasBlock(before, Half(vpc, 0)), HasBlock(before, Half(vpc, 1));
            EndZone(before, Half(vpc, 0), zones.lower) != EndZone(before, Half(vpc, 1), zones.upper) <==>
              (if lower && upper then
                 before[IndexOf(before, Half(vpc, 0))].zone != before[IndexOf(before, Half(vpc, 1))].zone
               else if lower then before[IndexOf(before, Half(vpc, 0))].zone != zones.upper
               else if upper then before[IndexOf(before, Half(vpc, 1))].zone != zones.lower
               else multiset(listed)[zones.lower] == 1)
  {
    ZonesDifferIff(listed, offered, zones.lower, zones.upper);
  }

  /** The lower half was left in "b" by an earlier pass; with "a" and "b" listed, the upper half joins it there. */
  lemma LeftoverHalfSharesZone(vpc: Net)
    requires vpc.prefix < DEFAULT_SUBNET_MASK
    ensures var before := [Subnet(0, Half(vpc, 0), "b", true)];
            && PairwiseDisjoint(before) && AreLowest(["a", "b"], {"a", "b"}, "a", "b")
            && EndZone(before, Half(vpc, 0), "a") == "b" == EndZone(before, Half(vpc, 1), "b")
  {
    var before := [Subnet(0, Half(vpc, 0), "b", true)];
    assert Half(vpc, 0).base != Half(vpc, 1).base by { TwoHalves(vpc); }
    assert before[0].block == Half(vpc, 0);
    assert !HasBlock(before, Half(vpc, 1));
    assert NameLess("a", "b");
    LowestOfTwo("a", "b");
  }

  lemma LowestOfTwo(x: string, y: string)
    requires NameLess(x, y)
    ensures AreLowest([x, y], {x, y}, x, y)
  {
    NameLessAsymmetric(x, y);
    AllSupported([x, y], {x, y});
    assert Sorted([x, y], NameLess);
    assert SortsInto(Supported([x, y], {x, y}), [x, y]);
  }

  method SubnetExists(subnets: seq<Subnet>, block: Net) returns (found: bool)
    ensures found <==> HasBlock(subnets, block)
  {
    for i := 0 to |subnets|
      invariant forall k :: 0 <= k < i ==> subnets[k].block != block
    {
      if subnets[i].block == block {
        return true;
      }
    }
    return false;
  }

  /** Creates and tags one expected subnet unless its block is there already. */
  method EnsureSubnet(v: Vpc, h: int, zones: Zones) returns (ok: bool)
    requires v.Valid() && v.cidr.prefix < DEFAULT_SUBNET_MASK && 0 <= h < 2
    modifies v
    ensures v.Valid() && AddsMissingHalves(v.cidr, old(v.subnets), v.subnets, zones)
    ensures ok ==> HasBlock(v.subnets, Half(v.cidr, h))
    ensures HasBlock(old(v.subnets), Half(v.cidr, h)) ==> ok && v.subnets == old(v.subnets)
    ensures forall i :: |old(v.subnets)| <= i < |v.subnets| ==>
              v.subnets[i].block == Half(v.cidr, h) && v.subnets[i].zone == zones.At(h)
  {
    var found := SubnetExists(v.subnets, Half(v.cidr, h));
    if found {
      return true;
    }
    var created := v.CreateSubnet(zones.At(h), Half(v.cidr, h));
    if !created.Created? {
      return false;
    }
    ghost var mid := v.subnets;
    assert mid[|old(v.subnets)|] == created.subnet;
    ok := v.Tag(|v.subnets| - 1);
    assert v.subnets[|old(v.subnets)|].block == Half(v.cidr, h);
  }

  /** Tags every subnet that lacks the tag; the subnets themselves stay. */
  method TagAll(v: Vpc) returns (ok: bool)
    requires v.Valid()
    modifies v
    ensures v.Valid() && SameButTags(old(v.subnets), v.subnets)
    ensures ok ==> forall i :: 0 <= i < |v.subnets| ==> v.subnets[i].private
  {
    for i := 0 to |v.subnets|
      invariant v.Valid() && SameButTags(old(v.subnets), v.subnets)
      invariant forall k :: 0 <= k < i ==> v.subnets[k].private
    {
      if !v.subnets[i].private {
        var tagged := v.Tag(i);
        if !tagged {
          return false;
        }
      }
    }
    return true;
  }

  ghost predicate SameButTags(a: seq<Subnet>, b: seq<Subnet>) {
    |a| == |b| && forall i :: 0 <= i < |a| ==> b[i].(private := a[i].private) == a[i]
  }

  /**
   reconcileStandaloneVPCSubnets. On success both halves of the VPC exist and are tagged, each
   where it already lay or else in the zone chosen for it, so they lie apart exactly if those two
   zones differ. Only missing halves are ever added, so a second run creates nothing; and a VPC
   that held nothing but halves ends with exactly two subnets.
   */
  method ReconcileStandaloneVpcSubnets(v: Vpc, zones: seq<string>, offered: set<string>)
    returns (r: Result<seq<Subnet>, ReconcileError>, ghost chosen: Zones)
    requires v.Valid()
    modifies v
    ensures v.Valid()
    ensures v.cidr.prefix >= DEFAULT_SUBNET_MASK ==> r == Failure(VpcTooSmall) && v.subnets == old(v.subnets)
    ensures v.cidr.prefix < DEFAULT_SUBNET_MASK ==>
              && Partition(v.cidr, v.cidr.prefix + 1, [Half(v.cidr, 0), Half(v.cidr, 1)])
              && AddsMissingHalves(v.cidr, old(v.subnets), v.subnets, chosen)
              && ((HasBlock(old(v.subnets), Half(v.cidr, 0)) && HasBlock(old(v.subnets), Half(v.cidr, 1))) ==>
                    |v.subnets| == |old(v.subnets)|)
    ensures r == Failure(TooFewZones) ==> v.subnets == old(v.subnets) && |Supported(zones, offered)| < 2
    ensures r.Success? ==>
              && r.value == v.subnets && v.cidr.prefix < DEFAULT_SUBNET_MASK
              && AreLowest(zones, offered, chosen.lower, chosen.upper)
              && HasBlock(v.subnets, Half(v.cidr, 0)) && HasBlock(v.subnets, Half(v.cidr, 1))
              && LieIn(v.cidr, old(v.subnets), v.subnets, chosen)
              && (OnlyHalves(v.cidr, old(v.subnets)) ==> |v.subnets| == 2)
              && forall i :: 0 <= i < |v.subnets| ==> v.subnets[i].private
  {
    chosen := Zones("", "");
    if v.cidr.prefix >= DEFAULT_SUBNET_MASK {
      return Failure(VpcTooSmall), chosen;
    }
    var halves := GenerateAvailableSubnets(v.cidr, Half(v.cidr, 0));
    TwoHalves(v.cidr);
    if |halves| != 2 {
      assert false;
    }
    var lowest := ChooseZones(zones, offered);
    if lowest.None? {
      return Failure(TooFewZones), chosen;
    }
    chosen := Zones(lowest.value.0, lowest.value.1);
    var ok := PlaceHalves(v, Zones(lowest.value.0, lowest.value.1));
    if !ok {
      return Failure(ApiError), chosen;
    }
    return Success(v.subnets), chosen;
  }

  /** Every half lies in its end zone. */
  ghost predicate LieIn(vpc: Net, before: seq<Subnet>, after: seq<Subnet>, zones: Zones)
    requires vpc.prefix < 32
  {
    forall i, h :: 0 <= i < |after| && 0 <= h < 2 && after[i].block == Half(vpc, h) ==>
      after[i].zone == EndZone(before, Half(vpc, h), zones.At(h))
  }

  lemma TwoHalves(vpc: Net)
    requires vpc.prefix < 32
    ensures SubBlocks(vpc, vpc.prefix + 1) == [Half(vpc, 0), Half(vpc, 1)]
    ensures Partition(vpc, vpc.prefix + 1, [Half(vpc, 0), Half(vpc, 1)])
  {
    assert Pow2(1) == 2;
    assert SubBlocks(vpc, vpc.prefix + 1) == [Half(vpc, 0), Half(vpc, 1)];
    SubBlocksPartition(vpc, vpc.prefix + 1);
  }

  /** Creates what is missing of the two halves, then tags. */
  method PlaceHalves(v: Vpc, zones: Zones) returns (ok: bool)
    requires v.Valid() && v.cidr.prefix < DEFAULT_SUBNET_MASK
    modifies v
    ensures v.Valid() && AddsMissingHalves(v.cidr, old(v.subnets), v.subnets, zones)
    ensures HasBlock(old(v.subnets), Half(v.cidr, 0)) && HasBlock(old(v.subnets), Half(v.cidr, 1)) ==>
              |v.subnets| == |old(v.subnets)|
    ensures ok ==>
              && HasBlock(v.subnets, Half(v.cidr, 0)) && HasBlock(v.subnets, Half(v.cidr, 1))
              && LieIn(v.cidr, old(v.subnets), v.subnets, zones)
              && (OnlyHalves(v.cidr, old(v.subnets)) ==> |v.subnets| == 2)
              && forall i :: 0 <= i < |v.subnets| ==> v.subnets[i].private
  {
    ok := EnsureSubnet(v, 0, zones);
    if !ok {
      return;
    }
    ghost var mid := v.subnets;
    ok := EnsureSubnet(v, 1, zones);
    AddsCompose(v.cidr, old(v.subnets), mid, v.subnets, zones);
    if !ok {
      return;
    }
    ghost var made := v.subnets;
    ok := TagAll(v);
    TaggedStays(v.cidr, old(v.subnets), made, v.subnets, zones);
    if ok {
      AllLieIn(v.cidr, old(v.subnets), v.subnets, zones);
      if OnlyHalves(v.cidr, old(v.subnets)) {
        HalvesStayHalves(v.cidr, old(v.subnets), v.subnets, zones);
        ExactlyTwo(v.cidr, v.subnets);
      }
    }
  }

  lemma AllLieIn(vpc: Net, before: seq<Subnet>, after: seq<Subnet>, zones: Zones)
    requires vpc.prefix < 32 && PairwiseDisjoint(after) && AddsMissingHalves(vpc, before, after, zones)
    ensures LieIn(vpc, before, after, zones)
  {
    forall i, h | 0 <= i < |after| && 0 <= h < 2 && after[i].block == Half(vpc, h)
      ensures after[i].zone == EndZone(before, Half(vpc, h), zones.At(h))
    {
      HalvesLieIn(vpc, before, after, zones, i, h);
    }
  }

  lemma HalvesStayHalves(vpc: Net, before: seq<Subnet>, after: seq<Subnet>, zones: Zones)
    requires vpc.prefix < 32 && AddsMissingHalves(vpc, before, after, zones) && OnlyHalves(vpc, before)
    ensures OnlyHalves(vpc, after)
  {
    forall i | 0 <= i < |after| ensures after[i].block == Half(vpc, 0) || after[i].block == Half(vpc, 1) {
      assert i < |before| ==> after[i].block == before[i].block;
    }
  }

  lemma AddsCompose(vpc: Net, a: seq<Subnet>, b: seq<Subnet>, c: seq<Subnet>, zones: Zones)
    requires vpc.prefix < 32 && AddsMissingHalves(vpc, a, b, zones) && AddsMissingHalves(vpc, b, c, zones)
    ensures AddsMissingHalves(vpc, a, c, zones)
    ensures forall block :: HasBlock(a, block) ==> HasBlock(b, block)
    ensures forall block :: HasBlock(b, block) ==> HasBlock(c, block)
  {
    forall block | HasBlock(a, block) ensures HasBlock(b, block) {
      assert b[IndexOf(a, block)].block == block;
    }
    forall block | HasBlock(b, block) ensures HasBlock(c, block) {
      assert c[IndexOf(b, block)].block == block;
    }
    forall i | |a| <= i < |b| ensures IsPlacedHalf(vpc, c[i], zones) && !HasBlock(a, c[i].block) {
      assert IsPlacedHalf(vpc, b[i], zones) && c[i].block == b[i].block && c[i].zone == b[i].zone;
    }
  }

  lemma TaggedStays(vpc: Net, before: seq<Subnet>, a: seq<Subnet>, b: seq<Subnet>, zones: Zones)
    requires vpc.prefix < 32 && AddsMissingHalves(vpc, before, a, zones) && SameButTags(a, b)
    ensures AddsMissingHalves(vpc, before, b, zones)
    ensures forall block :: HasBlock(a, block) ==> HasBlock(b, block)
  {
    forall block | HasBlock(a, block) ensures HasBlock(b, block) {
      assert b[IndexOf(a, block)].block == block;
    }
    forall i | |before| <= i < |b| ensures IsPlacedHalf(vpc, b[i], zones) && !HasBlock(before, b[i].block) {
      assert IsPlacedHalf(vpc, a[i], zones) && b[i].block == a[i].block && b[i].zone == a[i].zone;
    }
  }

  lemma ExactlyTwo(vpc: Net, subnets: seq<Subnet>)
    requires vpc.prefix < 32 && PairwiseDisjoint(subnets) && OnlyHalves(vpc, subnets)
    requires HasBlock(subnets, Half(vpc, 0)) && HasBlock(subnets, Half(vpc, 1))
    ensures |subnets| == 2
  {
    assert Half(vpc, 0).base != Half(vpc, 1).base by { TwoHalves(vpc); }
    var l :| 0 <= l < |subnets| && subnets[l].block == Half(vpc, 0);
    var u :| 0 <= u < |subnets| && subnets[u].block == Half(vpc, 1);
    if |subnets| > 2 {
      var i := if l != 0 && u != 0 then 0 else if l != 1 && u != 1 then 1 else 2;
      SameBlockSameIndex(subnets, i, l);
      SameBlockSameIndex(subnets, i, u);
    }
  }

  lemma SameBlockSameIndex(subnets: seq<Subnet>, i: int, j: int)
    requires PairwiseDisjoint(subnets) && 0 <= i < |subnets| && 0 <= j < |subnets| && i != j
    ensures subnets[i].block != subnets[j].block
  {
    BaseIsMasked(subnets[i].block);
    assert i < j ==> !ShareAddress(subnets[i].block, subnets[j].block);
    assert j < i ==> !ShareAddress(subnets[j].block, subnets[i].block);
  }
}

/**
 Choosing and validating the block of the standalone network:
 pkg/providers/aws/cluster_network_provider.go and, for the range check of the second cloud,
 pkg/providers/gcp/cluster_network_provider.go.
 */
module DefaultCidr {
  import opened Arithmetic
  import opened Cidr
  import opened SubnetGenerator
  import opened Wrappers

  const DEFAULT_MASK := 26
  const STEP := 0x1_0000

  /** The two private ranges of section 3 of RFC 1918 that the search walks. */
  const TEN: Block := Block(0x0A00_0000, 8)
  const ONE_SEVEN_TWO: Block := Block(0xAC10_0000, 12)

  lemma RangesAreNets()
    ensures TEN.Canonical() && ONE_SEVEN_TWO.Canonical()
    ensures Pow2(16 - TEN.prefix) == 256 && Pow2(16 - ONE_SEVEN_TWO.prefix) == 16
  {
    Pow2Values();
    Pow2Adds(4, 4);
    CanonicalIsAligned(TEN.base, 8);
    CanonicalIsAligned(ONE_SEVEN_TWO.base, 12);
  }

  /** Candidate j of a range: the first /26 of its j-th /16. */
  function Candidate(range: Net, j: int): (c: Net)
    requires range.prefix <= 16 && 0 <= j < Pow2(16 - range.prefix)
    ensures c == Block(range.base + j * STEP, DEFAULT_MASK)
    ensures Contains(range, c.base)
  {
    CandidateFits(range, j);
    Block(range.base + j * STEP, DEFAULT_MASK)
  }

  lemma CandidateFits(range: Net, j: int)
    requires range.prefix <= 16 && 0 <= j < Pow2(16 - range.prefix)
    ensures Block(range.base + j * STEP, DEFAULT_MASK).Canonical()
    ensures Contains(range, range.base + j * STEP)
  {
    assert Size(16) == STEP by { Pow2Values(); }
    var outer := SubBlock(range, 16, j);
    FirstOfBlock(outer);
    ContainsIsInterval(range, outer.base);
  }

  lemma FirstOfBlock(outer: Net)
    requires outer.prefix == 16
    ensures Block(outer.base, DEFAULT_MASK).Canonical()
  {
    assert SubBlock(outer, DEFAULT_MASK, 0).base == outer.base;
  }

  const CANDIDATES := 272

  /** All candidates in the order of the search: 10.0.0.0/26 to 10.255.0.0/26, then 172.16.0.0/26 to 172.31.0.0/26. */
  function CandidateAt(n: int): (c: Net)
    requires 0 <= n < CANDIDATES
    ensures c.prefix == DEFAULT_MASK
    ensures c.base == if n < 256 then 0x0A00_0000 + n * STEP else 0xAC10_0000 + (n - 256) * STEP
  {
    RangesAreNets();
    if n < 256 then Candidate(TEN, n) else Candidate(ONE_SEVEN_TWO, n - 256)
  }

  /** No address of c lies in a taken block. */
  ghost predicate Free(c: Net, taken: set<Net>) {
    forall t :: t in taken ==> !ShareAddress(c, t)
  }

  /** r is the first free candidate, or None when there is none. */
  ghost predicate IsFirstFree(r: Option<Net>, taken: set<Net>) {
    match r
    case None => forall n :: 0 <= n < CANDIDATES ==> !Free(CandidateAt(n), taken)
    case Some(c) => exists n :: IsFirstFreeAt(c, n, taken)
  }

  ghost predicate IsFirstFreeAt(c: Net, n: int, taken: set<Net>) {
    && 0 <= n < CANDIDATES && c == CandidateAt(n) && Free(c, taken)
    && forall m :: 0 <= m < n ==> !Free(CandidateAt(m), taken)
  }

  // ---------------------------------------------------------------- the search

  function Bytes(ip: array<Byte>): (a: Address)
    requires ip.Length == 4
    reads ip
  {
    ValueOf(Ip4(ip[0], ip[1], ip[2], ip[3]))
  }

  /** incrementIPForDefaultCIDR: the next /16, by changing the two upper bytes of the slice in place. */
  method IncrementIpForDefaultCidr(ip: array<Byte>)
    requires ip.Length == 4
    modifies ip
    ensures Bytes(ip) == (old(Bytes(ip)) + STEP) % ADDRESSES
  {
    if ip[1] < 255 {
      ip[1] := ip[1] + 1;
    } else {
      ip[1] := 0;
      ip[0] := if ip[0] < 255 then ip[0] + 1 else 0;
    }
  }

  function ToSet(o: Option<Net>): set<Net> {
    if o.Some? then {o.value} else {}
  }

  function Taken(cluster: Net, pod: Option<Net>, service: Option<Net>): set<Net> {
    {cluster} + ToSet(pod) + ToSet(service)
  }

  /** One round of the inner loop: the two-sided test against each block that was read. */
  method Clashes(c: Net, cluster: Net, pod: Option<Net>, service: Option<Net>) returns (clash: bool)
    ensures clash <==> !Free(c, Taken(cluster, pod, service))
  {
    TouchTestIsExact(cluster, c);
    clash := TouchTest(cluster, c);
    if !clash && pod.Some? {
      TouchTestIsExact(pod.value, c);
      clash := TouchTest(pod.value, c);
    }
    if !clash && service.Some? {
      TouchTestIsExact(service.value, c);
      clash := TouchTest(service.value, c);
    }
  }

  /** One round of the inner loop: take the block at the current address, move on in place, then test the block. */
  method TryCandidate(range: Net, ip: array<Byte>, cluster: Net, pod: Option<Net>, service: Option<Net>, ghost j: int)
    returns (r: Option<Net>)
    requires 1 <= range.prefix <= 16 && 0 <= j < Pow2(16 - range.prefix)
    requires ip.Length == 4 && Bytes(ip) == range.base + j * STEP
    modifies ip
    ensures Contains(range, Bytes(ip)) <==> j + 1 < Pow2(16 - range.prefix)
    ensures j + 1 < Pow2(16 - range.prefix) ==> Bytes(ip) == range.base + (j + 1) * STEP
    ensures r == if Free(Candidate(range, j), Taken(cluster, pod, service)) then Some(Candidate(range, j)) else None
  {
    CandidateFits(range, j);
    var c: Net := Block(Bytes(ip), DEFAULT_MASK);
    IncrementIpForDefaultCidr(ip);
    StepStaysInside(range, j + 1);
    var clash := Clashes(c, cluster, pod, service);
    r := if clash then None else Some(c);
  }

  /** The inner loop: walk one range until a candidate is free or the range is left. */
  method SearchRange(range: Net, cluster: Net, pod: Option<Net>, service: Option<Net>)
    returns (r: Option<Net>, ghost j: int)
    requires 1 <= range.prefix <= 16
    ensures 0 <= j <= Pow2(16 - range.prefix)
    ensures NoneFreeBelow(range, j, Taken(cluster, pod, service))
    ensures if j < Pow2(16 - range.prefix)
            then r == Some(Candidate(range, j)) && Free(r.value, Taken(cluster, pod, service))
            else r == None
  {
    j := 0;
    var start := ToBytes(range.base);
    var ip := new Byte[4] [start.b0, start.b1, start.b2, start.b3];
    StepStaysInside(range, 0);
    while Contains(range, Bytes(ip))
      invariant 0 <= j <= Pow2(16 - range.prefix)
      invariant Contains(range, Bytes(ip)) <==> j < Pow2(16 - range.prefix)
      invariant j < Pow2(16 - range.prefix) ==> Bytes(ip) == range.base + j * STEP
      invariant NoneFreeBelow(range, j, Taken(cluster, pod, service))
      decreases Pow2(16 - range.prefix) - j
    {
      r := TryCandidate(range, ip, cluster, pod, service, j);
      if r.Some? {
        return;
      }
      j := j + 1;
    }
    r := None;
  }

  ghost predicate NoneFreeBelow(range: Net, j: int, taken: set<Net>)
    requires range.prefix <= 16 && 0 <= j <= Pow2(16 - range.prefix)
  {
    forall i :: 0 <= i < j ==> !Free(Candidate(range, i), taken)
  }

  lemma StepStaysInside(range: Net, j: int)
    requires 1 <= range.prefix <= 16 && 0 <= j <= Pow2(16 - range.prefix)
    ensures var a := (range.base + j * STEP) % ADDRESSES;
            && (Contains(range, a) <==> j < Pow2(16 - range.prefix))
            && (j < Pow2(16 - range.prefix) ==> a == range.base + j * STEP)
  {
    SizeSplits(range.prefix, 16);
    Pow2Values();
    assert Size(range.prefix) == Pow2(16 - range.prefix) * STEP;
    if j < Pow2(16 - range.prefix) {
      assert j * STEP < Pow2(16 - range.prefix) * STEP;
    }
    WalkStaysInside(range, j * STEP);
  }

  datatype SearchError = UnreadableEntry | AllTaken

  /** getPodCIDR and getServiceCIDR: fail on an entry that does not parse, otherwise keep only the last one. */
  method LastEntry(entries: seq<Option<Net>>) returns (r: Result<Option<Net>, SearchError>)
    ensures r.Success? <==> None !in entries
    ensures r.Success? ==> r.value == (if entries == [] then None else entries[|entries| - 1])
    ensures r.Failure? ==> r.error == UnreadableEntry
  {
    var last: Option<Net> := None;
    for i := 0 to |entries|
      invariant None !in entries[..i]
      invariant last == if i == 0 then None else entries[i - 1]
    {
      if entries[i].None? {
        return Failure(UnreadableEntry);
      }
      last := entries[i];
      assert entries[..i + 1] == entries[..i] + [entries[i]];
    }
    assert entries[..|entries|] == entries;
    return Success(last);
  }

  /** The blocks the search compares with: the cluster's, and the last pod and service entry. */
  function BlocksRead(cluster: Net, pods: seq<Option<Net>>, services: seq<Option<Net>>): set<Net> {
    {cluster}
    + (if pods == [] then {} else ToSet(pods[|pods| - 1]))
    + (if services == [] then {} else ToSet(services[|services| - 1]))
  }

  /**
   getNonOverlappingDefaultCIDR returns the first of the 272 candidates that shares no address
   with the blocks it read, and fails exactly when all of them do. What it returns passes the
   check that CreateNetwork makes, and splits into two /27 blocks. It overlaps a listed block
   that was not read exactly when a dropped entry is the only thing that stands against the
   first candidate the blocks read leave open.
   */
  method GetNonOverlappingDefaultCidr(cluster: Net, pods: seq<Option<Net>>, services: seq<Option<Net>>)
    returns (r: Result<Net, SearchError>)
    ensures r == Failure(UnreadableEntry) <==> None in pods || None in services
    ensures r != Failure(UnreadableEntry) ==>
              IsFirstFree(if r.Success? then Some(r.value) else None, BlocksRead(cluster, pods, services))
    ensures r.Success? ==> ValidateStandaloneCidrBlock(r.value, cluster).None?
    ensures r.Success? ==> |SubBlocks(r.value, DEFAULT_SUBNET_MASK)| == 2
    ensures r.Success? ==> !ShareAddress(r.value, cluster)
    ensures r.Success? && pods != [] ==> !ShareAddress(r.value, pods[|pods| - 1].value)
    ensures r.Success? && services != [] ==> !ShareAddress(r.value, services[|services| - 1].value)
    ensures r.Success? ==>
              exists n :: IsCandidate(n, r.value) && forall m :: 0 <= m < n ==> Blocked(m, cluster, pods, services)
    ensures r == Failure(AllTaken) ==> forall m :: 0 <= m < CANDIDATES ==> Blocked(m, cluster, pods, services)
    ensures r.Success? ==>
              (Free(r.value, BlocksListed(cluster, pods, services))
               <==> DroppedAreHarmless(BlocksRead(cluster, pods, services), BlocksListed(cluster, pods, services)))
  {
    r := Search(cluster, pods, services);
    if r != Failure(UnreadableEntry) {
      forall m | 0 <= m < CANDIDATES && !Free(CandidateAt(m), BlocksRead(cluster, pods, services))
        ensures Blocked(m, cluster, pods, services)
      {
        NotFreeIsBlocked(m, cluster, pods, services);
      }
    }
    if r.Success? {
      AvoidsEveryEntryIff(BlocksRead(cluster, pods, services), BlocksListed(cluster, pods, services), r.value);
      ghost var n :| IsFirstFreeAt(r.value, n, BlocksRead(cluster, pods, services));
      assert IsCandidate(n, r.value);
    }
  }

  ghost predicate IsCandidate(n: int, c: Net) {
    0 <= n < CANDIDATES && c == CandidateAt(n)
  }

  /** The candidate shares an address with the cluster, or with the last pod or the last service network. */
  ghost predicate Blocked(m: int, cluster: Net, pods: seq<Option<Net>>, services: seq<Option<Net>>)
    requires 0 <= m < CANDIDATES && None !in pods && None !in services
  {
    || ShareAddress(CandidateAt(m), cluster)
    || (pods != [] && ShareAddress(CandidateAt(m), pods[|pods| - 1].value))
    || (services != [] && ShareAddress(CandidateAt(m), services[|services| - 1].value))
  }

  lemma NotFreeIsBlocked(m: int, cluster: Net, pods: seq<Option<Net>>, services: seq<Option<Net>>)
    requires 0 <= m < CANDIDATES && None !in pods && None !in services
    requires !Free(CandidateAt(m), BlocksRead(cluster, pods, services))
    ensures Blocked(m, cluster, pods, services)
  {
    var t :| t in BlocksRead(cluster, pods, services) && ShareAddress(CandidateAt(m), t);
  }

  /** With one service network, 10.0.0.0/16, the first candidate is taken. */
  lemma ServiceNetworkBlocks(cluster: Net, service: Net)
    requires service == Block(0x0A00_0000, 16)
    ensures Blocked(0, cluster, [], [Some(service)])
  {
    var c := CandidateAt(0);
    Pow2Values();
    ContainsIsInterval(c, c.base);
    ContainsIsInterval(service, c.base);
    assert Contains(c, c.base) && Contains(service, c.base);
  }

  /** The two ranges in turn. */
  method Search(cluster: Net, pods: seq<Option<Net>>, services: seq<Option<Net>>) returns (r: Result<Net, SearchError>)
    ensures r == Failure(UnreadableEntry) <==> None in pods || None in services
    ensures r != Failure(UnreadableEntry) ==>
              IsFirstFree(if r.Success? then Some(r.value) else None, BlocksRead(cluster, pods, services))
    ensures r.Success? ==> ValidateStandaloneCidrBlock(r.value, cluster).None?
    ensures r.Success? ==> |SubBlocks(r.value, DEFAULT_SUBNET_MASK)| == 2
  {
    var pod := LastEntry(pods);
    if pod.Failure? {
      return Failure(UnreadableEntry);
    }
    var service := LastEntry(services);
    if service.Failure? {
      return Failure(UnreadableEntry);
    }
    assert BlocksRead(cluster, pods, services) == Taken(cluster, pod.value, service.value);
    RangesAreNets();
    var low, i := SearchRange(TEN, cluster, pod.value, service.value);
    if low.Some? {
      FoundInFirst(i, low.value, Taken(cluster, pod.value, service.value), cluster);
      return Success(low.value);
    }
    var high, j := SearchRange(ONE_SEVEN_TWO, cluster, pod.value, service.value);
    FoundInSecond(j, high, Taken(cluster, pod.value, service.value), cluster);
    return if high.Some? then Success(high.value) else Failure(AllTaken);
  }

  lemma FoundInFirst(i: int, c: Net, taken: set<Net>, cluster: Net)
    requires TEN.Canonical() && Pow2(16 - TEN.prefix) == 256 && 0 <= i < 256 && cluster in taken
    requires c == Candidate(TEN, i) && Free(c, taken)
    requires NoneFreeBelow(TEN, i, taken)
    ensures IsFirstFree(Some(c), taken)
    ensures ValidateStandaloneCidrBlock(c, cluster).None? && |SubBlocks(c, DEFAULT_SUBNET_MASK)| == 2
  {
    assert forall n :: 0 <= n <= i ==> CandidateAt(n) == Candidate(TEN, n);
    assert IsFirstFreeAt(c, i, taken);
    ResultIsValid(c, i, cluster, taken);
  }

  lemma FoundInSecond(j: int, r: Option<Net>, taken: set<Net>, cluster: Net)
    requires TEN.Canonical() && Pow2(16 - TEN.prefix) == 256 && cluster in taken
    requires ONE_SEVEN_TWO.Canonical() && Pow2(16 - ONE_SEVEN_TWO.prefix) == 16 && 0 <= j <= 16
    requires NoneFreeBelow(TEN, 256, taken)
    requires NoneFreeBelow(ONE_SEVEN_TWO, j, taken)
    requires if j < 16 then r == Some(Candidate(ONE_SEVEN_TWO, j)) && Free(r.value, taken) else r == None
    ensures IsFirstFree(r, taken)
    ensures r.Some? ==>
              ValidateStandaloneCidrBlock(r.value, cluster).None? && |SubBlocks(r.value, DEFAULT_SUBNET_MASK)| == 2
  {
    forall n | 0 <= n < 256 + j ensures !Free(CandidateAt(n), taken) {
      assert CandidateAt(n) == if n < 256 then Candidate(TEN, n) else Candidate(ONE_SEVEN_TWO, n - 256);
    }
    if j < 16 {
      assert CandidateAt(256 + j) == r.value;
      assert IsFirstFreeAt(r.value, 256 + j, taken);
      ResultIsValid(r.value, 256 + j, cluster, taken);
    }
  }

  lemma ResultIsValid(c: Net, n: int, cluster: Net, taken: set<Net>)
    requires IsFirstFreeAt(c, n, taken) && cluster in taken
    ensures ValidateStandaloneCidrBlock(c, cluster).None?
    ensures |SubBlocks(c, DEFAULT_SUBNET_MASK)| == 2
  {
    assert Pow2(1) == 2;
    assert forall a: Address :: Contains(cluster, a) && Contains(c, a) ==> ShareAddress(c, cluster);
  }

  /** All blocks the configuration lists, the dropped entries included. */
  ghost function BlocksListed(cluster: Net, pods: seq<Option<Net>>, services: seq<Option<Net>>): set<Net> {
    {cluster}
    + (set i | 0 <= i < |pods| && pods[i].Some? :: pods[i].value)
    + (set i | 0 <= i < |services| && services[i].Some? :: services[i].value)
  }

  /** A candidate that only dropped blocks stand against comes after one that the blocks read leave open. */
  ghost predicate DroppedAreHarmless(read: set<Net>, listed: set<Net>) {
    forall n :: 0 <= n < CANDIDATES && Free(CandidateAt(n), read) && !Free(CandidateAt(n), listed) ==>
      OpenBefore(n, read)
  }

  ghost predicate OpenBefore(n: int, read: set<Net>)
    requires n <= CANDIDATES
  {
    exists m :: 0 <= m < n && Free(CandidateAt(m), read)
  }

  /**
   Of several pod or service entries only the last is compared, so the result may overlap an
   earlier one. It avoids every listed block exactly when the dropped entries are harmless.
   */
  lemma AvoidsEveryEntryIff(read: set<Net>, listed: set<Net>, c: Net)
    requires IsFirstFree(Some(c), read)
    ensures Free(c, listed) <==> DroppedAreHarmless(read, listed)
  {
    var n :| IsFirstFreeAt(c, n, read);
    assert !OpenBefore(n, read);
    forall k | n < k < CANDIDATES ensures OpenBefore(k, read) {
      assert Free(CandidateAt(n), read);
    }
  }

  /** Two pod networks, the first of them 10.0.0.0/14: the search answers 10.0.0.0/26. */
  lemma EarlierEntryIsIgnored()
    ensures var cluster, first, second := Block(0xC0A8_0000, 16), Block(0x0A00_0000, 14), Block(0x0A80_0000, 14);
            && cluster.Canonical() && first.Canonical() && second.Canonical()
            && BlocksRead(cluster, [Some(first), Some(second)], []) == {cluster, second}
            && IsFirstFree(Some(CandidateAt(0)), {cluster, second})
            && ShareAddress(CandidateAt(0), first)
            && !DroppedAreHarmless({cluster, second}, {cluster, first, second})
  {
    Pow2Values();
    Pow2Adds(16, 2);
    assert Pow2(2) == 4;
    CanonicalIsAligned(0xC0A8_0000, 16);
    CanonicalIsAligned(0x0A00_0000, 14);
    CanonicalIsAligned(0x0A80_0000, 14);
    var cluster: Net, first: Net, second: Net := Block(0xC0A8_0000, 16), Block(0x0A00_0000, 14), Block(0x0A80_0000, 14);
    var c := CandidateAt(0);
    forall a: Address | Contains(c, a) ensures !Contains(cluster, a) && !Contains(second, a) {
      ContainsIsInterval(c, a);
      ContainsIsInterval(cluster, a);
      ContainsIsInterval(second, a);
    }
    assert IsFirstFreeAt(c, 0, {cluster, second});
    assert Contains(c, c.base) && Contains(first, c.base);
  }

  // ---------------------------------------------------------------- validation

  datatype CidrError = OutOfRange | Overlaps | UnreadableSubnet

  predicate IsValidCidrRange(c: Net) {
    c.prefix > 15 && c.prefix < 27
  }

  /** validateStandaloneCidrBlock accepts exactly the /16 to /26 blocks that share no address with the cluster. */
  function ValidateStandaloneCidrBlock(c: Net, cluster: Net): (e: Option<CidrError>)
    ensures e.None? <==> 16 <= c.prefix <= 26 && !ShareAddress(cluster, c)
    ensures e == Some(OutOfRange) <==> !(16 <= c.prefix <= 26)
  {
    TouchTestIsExact(cluster, c);
    if !IsValidCidrRange(c) then Some(OutOfRange)
    else if Contains(cluster, c.base) || Contains(c, cluster.base) then Some(Overlaps)
    else None
  }

  /** The range asked of the second cloud: a block, or only its size when the cloud picks the address. */
  datatype RangeRequest = Fixed(net: Net) | CloudPicks(prefix: int)

  function PrefixOf(q: RangeRequest): int {
    match q
    case Fixed(net) => net.prefix
    case CloudPicks(p) => p
  }

  /**
   validateCidrBlock: a range of /22 or larger that shares no address with any cluster subnet.
   A request without an address contains nothing and is contained in nothing, so only its size is checked.
   */
  method ValidateCidrBlock(q: RangeRequest, subnets: seq<Option<Net>>) returns (e: Option<CidrError>)
    ensures e.None? <==>
              && PrefixOf(q) <= 22 && None !in subnets
              && (q.Fixed? ==> forall i :: 0 <= i < |subnets| ==> !ShareAddress(subnets[i].value, q.net))
    ensures e == Some(OutOfRange) <==> PrefixOf(q) > 22
  {
    if PrefixOf(q) > 22 {
      return Some(OutOfRange);
    }
    for i := 0 to |subnets|
      invariant forall k :: 0 <= k < i ==> subnets[k].Some?
      invariant q.Fixed? ==> forall k :: 0 <= k < i ==> !ShareAddress(subnets[k].value, q.net)
    {
      if subnets[i].None? {
        return Some(UnreadableSubnet);
      }
      if q.Fixed? {
        TouchTestIsExact(subnets[i].value, q.net);
        if TouchTest(subnets[i].value, q.net) {
          return Some(Overlaps);
        }
      }
    }
    return None;
  }
}

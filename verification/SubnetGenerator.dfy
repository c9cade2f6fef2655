/** pkg/providers/aws/cluster_vpc.go: splitting a VPC block into sub-networks. */
module SubnetGenerator {
  import opened Arithmetic
  import opened Cidr
  import opened Wrappers

  // ---------------------------------------------------------------- addresses byte by byte

  type Byte = b: int | 0 <= b < 0x100

  /** A net.IP in its four-byte form. */
  datatype Ip4 = Ip4(b0: Byte, b1: Byte, b2: Byte, b3: Byte)

  function ValueOf(ip: Ip4): (a: Address) {
    ip.b0 * 0x100_0000 + ip.b1 * 0x1_0000 + ip.b2 * 0x100 + ip.b3
  }

  const UINT64 := 0x1_0000_0000_0000_0000

  /**
   incrementIP joins the bytes in a 64-bit unsigned word, adds the increment and takes
   the low four bytes apart again. In address terms that is addition modulo 2^32,
   for every increment, negative ones included.
   */
  method IncrementIp(ip: Ip4, inc: int) returns (r: Ip4)
    ensures ValueOf(r) == (ValueOf(ip) + inc) % ADDRESSES
  {
    var joined := ip.b0 * 0x100_0000 + ip.b1 * 0x1_0000 + ip.b2 * 0x100 + ip.b3;
    joined := (joined + inc % UINT64) % UINT64;
    LowBytes(ValueOf(ip), inc, joined);
    var byte3 := joined % 0x100;
    var byte2 := joined / 0x100 % 0x100;
    var byte1 := joined / 0x1_0000 % 0x100;
    var byte0 := joined / 0x100_0000 % 0x100;
    r := Ip4(byte0, byte1, byte2, byte3);
  }

  lemma LowBytes(a: int, inc: int, joined: int)
    requires joined == (a + inc % UINT64) % UINT64
    ensures joined / 0x100_0000 % 0x100 * 0x100_0000 + joined / 0x1_0000 % 0x100 * 0x1_0000
            + joined / 0x100 % 0x100 * 0x100 + joined % 0x100 == (a + inc) % ADDRESSES
  {
    var k := inc / UINT64 + (a + inc % UINT64) / UINT64;
    assert a + inc == joined + UINT64 * k;
    var q := joined / ADDRESSES;
    DivModUnique(a + inc, ADDRESSES, ADDRESSES * k + q, joined % ADDRESSES);
    JoinBytes(joined);
  }

  lemma JoinBytes(x: nat)
    ensures x / 0x100_0000 % 0x100 * 0x100_0000 + x / 0x1_0000 % 0x100 * 0x1_0000
            + x / 0x100 % 0x100 * 0x100 + x % 0x100 == x % ADDRESSES
  {
    var y, z, w := x / 0x100, x / 0x1_0000, x / 0x100_0000;
    assert z == y / 0x100 && w == z / 0x100 && x / ADDRESSES == w / 0x100;
  }

  /** net.IP.To4: the four bytes of an address. */
  method ToBytes(a: Address) returns (ip: Ip4)
    ensures ValueOf(ip) == a
  {
    JoinBytes(a);
    ip := Ip4(a / 0x100_0000, a / 0x1_0000 % 0x100, a / 0x100 % 0x100, a % 0x100);
  }

  // ---------------------------------------------------------------- generateAvailableSubnets

  method ContainsNetwork(networks: seq<Net>, toFind: Address) returns (found: bool)
    ensures found <==> exists i :: 0 <= i < |networks| && networks[i].base == toFind
  {
    for i := 0 to |networks|
      invariant forall j :: 0 <= j < i ==> networks[j].base != toFind
    {
      if networks[i].base == toFind {
        return true;
      }
    }
    return false;
  }

  /**
   Walks the addresses of `from` one by one and keeps each masked address it has not seen.
   It stops at the first address outside `from`, which is also what happens when the block
   ends at 255.255.255.255 and the increment wraps to 0.0.0.0. A block of prefix 0 has no
   such address and the loop of the source never ends on it.
   */
  method GenerateAvailableSubnets(from: Net, to: Net) returns (networks: seq<Net>)
    requires from.base == to.base && 1 <= from.prefix <= to.prefix
    ensures networks == SubBlocks(from, to.prefix)
    ensures |networks| == Pow2(to.prefix - from.prefix)
    ensures Partition(from, to.prefix, networks)
  {
    networks := [to];
    WalkStarts(from, to.prefix);
    var i := 0;
    var next := AddressAt(from, i);
    while Contains(from, next)
      invariant 0 <= i <= Size(from.prefix)
      invariant Contains(from, next) <==> i < Size(from.prefix)
      invariant i < Size(from.prefix) ==> next == from.base + i
      invariant Walked(from, to.prefix, networks, i)
      decreases Size(from.prefix) - i
    {
      networks := VisitAddress(from, to.prefix, networks, next, i);
      i := i + 1;
      next := AddressAt(from, i);
    }
    WalkEnds(from, to.prefix, networks);
  }

  /** The loop condition on a block of prefix 0: every address meets it. */
  lemma PrefixZeroHasNoEnd(from: Net, a: Address)
    requires from.prefix == 0
    ensures Contains(from, a)
  {
    ContainsIsInterval(from, a);
    BlockEnds(from);
    Pow2Values();
  }

  /** The i-th address counted from the base of the block, which both blocks share. */
  method AddressAt(from: Net, i: int) returns (a: Address)
    requires 1 <= from.prefix && 0 <= i <= Size(from.prefix)
    ensures Contains(from, a) <==> i < Size(from.prefix)
    ensures i < Size(from.prefix) ==> a == from.base + i
  {
    var start := ToBytes(from.base);
    var next := IncrementIp(start, i);
    a := ValueOf(next);
    WalkStaysInside(from, i);
  }

  /** One round of the loop: mask the address and append the sub-network unless it is already listed. */
  method VisitAddress(from: Net, k: int, networks: seq<Net>, a: Address, ghost i: int) returns (found: seq<Net>)
    requires 1 <= from.prefix <= k && 0 <= i < Size(from.prefix) && a == from.base + i
    requires Walked(from, k, networks, i)
    ensures Walked(from, k, found, i + 1)
  {
    var masked := Mask(a, k);
    SlotMask(from, k, i);
    var seen := ContainsNetwork(networks, masked);
    MaskedIsKnown(from, k, networks, i, seen);
    found := if seen then networks else networks + [Block(masked, k)];
  }

  /**
   After i addresses the list is a prefix of the sub-blocks, and the walk is in its last block or
   has just left it.
   */
  ghost predicate Walked(from: Net, k: int, networks: seq<Net>, i: int) {
    && from.prefix <= k <= 32
    && 1 <= |networks| <= Pow2(k - from.prefix)
    && networks == SubBlocks(from, k)[..|networks|]
    && AtLast(networks[|networks| - 1], from.base + i)
  }

  ghost predicate AtLast(last: Net, a: int) {
    last.base <= a <= last.base + Size(last.prefix)
  }

  lemma WalkStarts(from: Net, k: int)
    requires from.prefix <= k <= 32
    ensures Block(from.base, k).Canonical() && Walked(from, k, [Block(from.base, k)], 0)
  {
    assert SubBlocks(from, k)[0] == Block(from.base, k);
  }

  lemma WalkEnds(from: Net, k: int, networks: seq<Net>)
    requires Walked(from, k, networks, Size(from.prefix))
    ensures networks == SubBlocks(from, k) && Partition(from, k, networks)
  {
    SubBlocksPartition(from, k);
    var n := |networks|;
    assert networks[n - 1] == SubBlocks(from, k)[n - 1];
    if n < Pow2(k - from.prefix) {
      SubBlocksDisjoint(from, k, n - 1, n);
    }
  }

  /** The i-th address from the base is in the block until the block's size is reached; the wrapped one is not. */
  lemma WalkStaysInside(from: Net, i: int)
    requires 1 <= from.prefix && 0 <= i <= Size(from.prefix)
    ensures Contains(from, (from.base + i) % ADDRESSES) <==> i < Size(from.prefix)
    ensures i < Size(from.prefix) ==> (from.base + i) % ADDRESSES == from.base + i
  {
    BlockEnds(from);
    HalfTheSpace(from.prefix);
    WrapsAtEnd(from.base + i);
    ContainsIsInterval(from, (from.base + i) % ADDRESSES);
  }

  lemma WrapsAtEnd(a: int)
    requires 0 <= a <= ADDRESSES
    ensures a % ADDRESSES == if a == ADDRESSES then 0 else a
  {
  }

  lemma HalfTheSpace(p: int)
    requires 1 <= p <= 32
    ensures 2 * Size(p) <= ADDRESSES
  {
    SizeSplits(1, p);
    SpaceSplits(1);
    assert Pow2(1) == 2;
  }

  /** Masking the i-th address gives the base of its slot. */
  lemma SlotMask(from: Net, k: int, i: int)
    requires 1 <= from.prefix <= k <= 32 && 0 <= i < Size(from.prefix)
    ensures 0 <= i / Size(k) < Pow2(k - from.prefix)
    ensures from.base + i < ADDRESSES
    ensures Mask(from.base + i, k) == SubBlock(from, k, i / Size(k)).base
  {
    BlockEnds(from);
    var a := from.base + i;
    ContainsIsInterval(from, a);
    AddressIsInOneSubBlock(from, k, a);
  }

  /** The masked next address is new exactly when the block found last is used up, and then it starts the next one. */
  lemma MaskedIsKnown(from: Net, k: int, networks: seq<Net>, i: int, seen: bool)
    requires 1 <= from.prefix <= k && 0 <= i < Size(from.prefix)
    requires Walked(from, k, networks, i)
    requires seen <==> exists j :: 0 <= j < |networks| && networks[j].base == Mask(from.base + i, k)
    ensures if seen then Walked(from, k, networks, i + 1)
            else var next := Block(Mask(from.base + i, k), k);
                 next.Canonical() && Walked(from, k, networks + [next], i + 1)
  {
    SlotMask(from, k, i);
    var slot, n, all := i / Size(k), |networks|, SubBlocks(from, k);
    assert networks[n - 1] == all[n - 1] && all[n - 1].base == from.base + (n - 1) * Size(k);
    SlotIsLastOrNext(i, Size(k), n);
    assert all[slot].base == Mask(from.base + i, k);
    if slot < n {
      assert networks[slot] == all[slot];
    } else {
      forall j | 0 <= j < n ensures networks[j].base != all[slot].base {
        SubBlocksDisjoint(from, k, j, slot);
        assert networks[j] == all[j];
      }
    }
  }

  lemma SlotIsLastOrNext(i: int, s: int, n: int)
    requires s > 0 && n >= 1 && (n - 1) * s <= i <= (n - 1) * s + s
    ensures i / s == if i < (n - 1) * s + s then n - 1 else n
    ensures n * s == (n - 1) * s + s
  {
    assert n * s == (n - 1) * s + s;
    if i == n * s {
      DivModUnique(i, s, n, 0);
    } else {
      DivModUnique(i, s, n - 1, i - (n - 1) * s);
    }
  }

  // ---------------------------------------------------------------- buildSubnetAddress

  const DEFAULT_SUBNET_MASK := 27

  function Reversed<T>(s: seq<T>): (r: seq<T>)
    ensures |r| == |s|
    ensures forall k :: 0 <= k < |s| ==> r[k] == s[|s| - 1 - k]
  {
    seq(|s|, k requires 0 <= k < |s| => s[|s| - 1 - k])
  }

  method ReverseInPlace(a: array<Net>)
    modifies a
    ensures a[..] == Reversed(old(a[..]))
  {
    var i, j := 0, a.Length - 1;
    while i < j
      invariant 0 <= i <= a.Length && j == a.Length - 1 - i
      invariant forall k :: 0 <= k < a.Length ==>
                  a[k] == if i <= k <= j then old(a[k]) else old(a[a.Length - 1 - k])
    {
      a[i], a[j] := a[j], a[i];
      i, j := i + 1, j - 1;
    }
  }

  datatype SubnetError = UnreadableBlock | BlockTooSmall

  /**
   buildSubnetAddress: the /27 slots of a VPC, highest first. `vpc` is None when the VPC's
   CIDR string is empty or does not parse.
   */
  method BuildSubnetAddress(vpc: Option<Net>) returns (r: Result<seq<Net>, SubnetError>)
    requires vpc.Some? ==> vpc.value.prefix >= 1
    ensures r.Failure? <==> vpc.None? || vpc.value.prefix >= DEFAULT_SUBNET_MASK
    ensures vpc.None? ==> r == Failure(UnreadableBlock)
    ensures r.Success? ==> r.value == Reversed(SubBlocks(vpc.value, DEFAULT_SUBNET_MASK))
  {
    if vpc.None? {
      return Failure(UnreadableBlock);
    }
    var from := vpc.value;
    if from.prefix >= DEFAULT_SUBNET_MASK {
      return Failure(BlockTooSmall);
    }
    assert SubBlock(from, DEFAULT_SUBNET_MASK, 0) == Block(from.base, DEFAULT_SUBNET_MASK);
    var nets := GenerateAvailableSubnets(from, Block(from.base, DEFAULT_SUBNET_MASK));
    var a := new Net[|nets|](i requires 0 <= i < |nets| => nets[i]);
    assert a[..] == nets;
    ReverseInPlace(a);
    return Success(a[..]);
  }
}

/**
 IPv4 blocks in prefix notation (section 3.1 of RFC 4632), as Go's net.IPNet holds
 them after net.ParseCIDR: the base is already masked.
 */
module Cidr {
  import opened Arithmetic

  const ADDRESSES := 0x1_0000_0000

  type Address = a: int | 0 <= a < ADDRESSES

  /** Number of addresses in a block of prefix p. */
  function Size(p: int): (n: int)
    requires 0 <= p <= 32
    ensures n >= 1
  {
    Pow2(32 - p)
  }

  /** Clear the n lowest bits of a. */
  function ClearBits(a: int, n: nat): int
    decreases n
  {
    if n == 0 then a else 2 * ClearBits(a / 2, n - 1)
  }

  /** net.IP.Mask: clear the host bits. */
  function Mask(a: int, p: int): int
    requires 0 <= p <= 32
  {
    ClearBits(a, 32 - p)
  }

  datatype Block = Block(base: int, prefix: int) {
    predicate Canonical() {
      0 <= prefix <= 32 && 0 <= base < ADDRESSES && Mask(base, prefix) == base
    }
  }

  type Net = b: Block | b.Canonical() witness Block(0, 32)

  /** net.IPNet.Contains: equal after masking. */
  predicate Contains(b: Net, a: Address) {
    Mask(a, b.prefix) == b.base
  }

  /** The two-sided test the source uses wherever two blocks must not overlap. */
  predicate TouchTest(a: Net, b: Net) {
    Contains(a, b.base) || Contains(b, a.base)
  }

  /** What the test is for: some address lies in both blocks. */
  ghost predicate ShareAddress(a: Net, b: Net) {
    exists x: Address :: Contains(a, x) && Contains(b, x)
  }

  /** Clearing n bits rounds down to a multiple of 2^n. */
  lemma {:induction false} ClearBitsRounds(a: int, n: nat)
    ensures ClearBits(a, n) == a - a % Pow2(n)
    decreases n
  {
    if n > 0 {
      ClearBitsRounds(a / 2, n - 1);
      HalvedRemainder(a, Pow2(n - 1));
    } else {
      assert a % 1 == 0;
    }
  }

  lemma HalvedRemainder(a: int, d: int)
    requires d > 0
    ensures a % (2 * d) == 2 * (a / 2 % d) + a % 2
  {
    var h, b := a / 2, a % 2;
    var q, r := h / d, h % d;
    assert a == 2 * (d * q + r) + b == (2 * d) * q + (2 * r + b);
    DivModUnique(a, 2 * d, q, 2 * r + b);
  }

  /** Alignment in arithmetic terms. */
  lemma CanonicalIsAligned(base: int, p: int)
    requires 0 <= p <= 32 && 0 <= base < ADDRESSES
    ensures Block(base, p).Canonical() <==> base % Size(p) == 0
  {
    ClearBitsRounds(base, 32 - p);
  }

  lemma SizeSplits(p: int, q: int)
    requires 0 <= p <= q <= 32
    ensures Size(p) == Pow2(q - p) * Size(q)
    ensures Size(q) <= Size(p) <= ADDRESSES
  {
    Pow2Adds(q - p, 32 - q);
    Pow2Monotone(32 - q, 32 - p);
    Pow2Monotone(32 - p, 32);
    Pow2Values();
  }

  /** A block is the interval of Size addresses that starts at its base. */
  lemma ContainsIsInterval(b: Net, a: Address)
    ensures Contains(b, a) <==> b.base <= a < b.base + Size(b.prefix)
  {
    CanonicalIsAligned(b.base, b.prefix);
    ClearBitsRounds(a, 32 - b.prefix);
    AlignedInterval(a, b.base, Size(b.prefix));
  }

  lemma SpaceSplits(p: int)
    requires 0 <= p <= 32
    ensures ADDRESSES == Pow2(p) * Size(p)
  {
    SizeSplits(0, p);
    Pow2Values();
  }

  /** A block ends inside the address space. */
  lemma BlockEnds(b: Net)
    ensures b.base + Size(b.prefix) <= ADDRESSES
  {
    CanonicalIsAligned(b.base, b.prefix);
    SpaceSplits(b.prefix);
    AlignedEnd(b.base, Size(b.prefix), Pow2(b.prefix), ADDRESSES);
  }

  /** Masking to a long prefix and then to a shorter one is masking to the shorter one. */
  lemma MaskMask(a: int, p: int, q: int)
    requires 0 <= p <= q <= 32
    ensures Mask(Mask(a, q), p) == Mask(a, p)
  {
    SizeSplits(p, q);
    ClearBitsRounds(a, 32 - p);
    ClearBitsRounds(a, 32 - q);
    ClearBitsRounds(Mask(a, q), 32 - p);
    RoundTwice(a, Size(q), Pow2(q - p), Size(p));
  }

  /** The base of a block is its own mask. */
  lemma BaseIsMasked(b: Net)
    ensures Contains(b, b.base)
  {
  }

  /**
   Aligned blocks are nested or disjoint, so looking at the two bases is enough:
   the source's test holds exactly when the blocks share an address.
   */
  lemma TouchTestIsExact(a: Net, b: Net)
    ensures TouchTest(a, b) <==> ShareAddress(a, b)
  {
    BaseIsMasked(a);
    BaseIsMasked(b);
    if ShareAddress(a, b) {
      var x: Address :| Contains(a, x) && Contains(b, x);
      if a.prefix <= b.prefix {
        MaskMask(x, a.prefix, b.prefix);
      } else {
        MaskMask(x, b.prefix, a.prefix);
      }
    }
  }

  /** The j-th block of prefix k inside b, counted from b's base. */
  function SubBlock(b: Net, k: int, j: int): (r: Net)
    requires b.prefix <= k <= 32 && 0 <= j < Pow2(k - b.prefix)
    ensures r.prefix == k && r.base == b.base + j * Size(k)
    ensures b.base <= r.base && r.base + Size(k) <= b.base + Size(b.prefix)
  {
    SubBlockFits(b, k, j);
    Block(b.base + j * Size(k), k)
  }

  lemma SubBlockFits(b: Net, k: int, j: int)
    requires b.prefix <= k <= 32 && 0 <= j < Pow2(k - b.prefix)
    ensures Block(b.base + j * Size(k), k).Canonical()
    ensures 0 <= j * Size(k) && b.base + j * Size(k) + Size(k) <= b.base + Size(b.prefix)
  {
    SizeSplits(b.prefix, k);
    BlockEnds(b);
    CanonicalIsAligned(b.base, b.prefix);
    AlignedSteps(b.base, Size(k), Pow2(k - b.prefix), j);
    CanonicalIsAligned(b.base + j * Size(k), k);
  }

  /** All blocks of prefix k inside b, in ascending order. */
  function SubBlocks(b: Net, k: int): (r: seq<Net>)
    requires b.prefix <= k <= 32
    ensures |r| == Pow2(k - b.prefix)
    ensures forall j :: 0 <= j < |r| ==> r[j] == SubBlock(b, k, j)
  {
    seq(Pow2(k - b.prefix), j requires 0 <= j < Pow2(k - b.prefix) => SubBlock(b, k, j))
  }

  /** An address lies in the parent exactly if it lies in the sub-block that its offset selects. */
  lemma AddressIsInOneSubBlock(b: Net, k: int, a: Address)
    requires b.prefix <= k <= 32
    ensures var j := (a - b.base) / Size(k);
            Contains(b, a) <==> 0 <= j < Pow2(k - b.prefix) && Contains(SubBlock(b, k, j), a)
  {
    var j := (a - b.base) / Size(k);
    ContainsIsInterval(b, a);
    if Contains(b, a) {
      SizeSplits(b.prefix, k);
      SlotOf(a - b.base, Size(k), Pow2(k - b.prefix));
    }
    if 0 <= j < Pow2(k - b.prefix) {
      ContainsIsInterval(SubBlock(b, k, j), a);
    }
  }

  /** Two sub-blocks of the same prefix share no address unless they are the same one. */
  lemma SubBlocksDisjoint(b: Net, k: int, i: int, j: int)
    requires b.prefix <= k <= 32 && 0 <= i < j < Pow2(k - b.prefix)
    ensures !ShareAddress(SubBlock(b, k, i), SubBlock(b, k, j))
    ensures SubBlock(b, k, i).base + Size(k) <= SubBlock(b, k, j).base
  {
    var x, y, s := SubBlock(b, k, i), SubBlock(b, k, j), Size(k);
    MulMonotone(s, i + 1, j);
    assert s * (i + 1) == i * s + s;
    forall a: Address | Contains(x, a) ensures !Contains(y, a) {
      ContainsIsInterval(x, a);
      ContainsIsInterval(y, a);
    }
  }

  /**
   What a list of sub-networks of a block has to be: ascending, pairwise disjoint
   (hence without duplicates), every entry of the asked prefix, and together the block itself.
   */
  ghost predicate Partition(b: Net, k: int, nets: seq<Net>) {
    && (forall i :: 0 <= i < |nets| ==> nets[i].prefix == k)
    && (forall i, j :: 0 <= i < j < |nets| ==> nets[i].base < nets[j].base && !ShareAddress(nets[i], nets[j]))
    && (forall a: Address :: Contains(b, a) <==> exists i :: 0 <= i < |nets| && Contains(nets[i], a))
  }

  lemma SubBlocksPartition(b: Net, k: int)
    requires b.prefix <= k <= 32
    ensures Partition(b, k, SubBlocks(b, k))
  {
    var nets := SubBlocks(b, k);
    forall i, j | 0 <= i < j < |nets|
      ensures nets[i].base < nets[j].base && !ShareAddress(nets[i], nets[j])
    {
      SubBlocksDisjoint(b, k, i, j);
    }
    forall a: Address
      ensures Contains(b, a) <==> exists i :: 0 <= i < |nets| && Contains(nets[i], a)
    {
      ContainsIsInterval(b, a);
      if Contains(b, a) {
        AddressIsInOneSubBlock(b, k, a);
        assert Contains(nets[(a - b.base) / Size(k)], a);
      } else if i :| 0 <= i < |nets| && Contains(nets[i], a) {
        ContainsIsInterval(nets[i], a);
      }
    }
  }
}

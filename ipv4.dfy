/**
 * The part of Python's `ipaddress` module the cluster network relies on: IPv4 networks in CIDR
 * notation (section 3.1 of RFC 4632), their usable hosts (network and broadcast addresses
 * excluded, section 3.2.1.3 of RFC 1122), subnet enumeration and dotted-quad rendering.
 * Addresses are naturals below 2^32.
 */
module Ipv4 {
  import opened Strings

  const AddressCount: nat := 0x1_0000_0000

  function Pow2(n: nat): (r: nat)
    ensures r >= 1
  {
    if n == 0 then 1 else 2 * Pow2(n - 1)
  }

  lemma {:induction false} Pow2Add(a: nat, b: nat)
    ensures Pow2(a + b) == Pow2(a) * Pow2(b)
  {
    if a > 0 {
      Pow2Add(a - 1, b);
      assert Pow2(a + b) == 2 * Pow2(a - 1 + b);
    }
  }

  lemma {:induction false} Pow2Monotonic(a: nat, b: nat)
    requires a <= b
    ensures Pow2(a) <= Pow2(b)
  {
    if a < b {
      Pow2Monotonic(a, b - 1);
    }
  }

  lemma Pow2At32()
    ensures Pow2(32) == AddressCount
  {
    Pow2Add(16, 16);
    assert Pow2(16) == 65536 by {
      Pow2Add(8, 8);
      assert Pow2(8) == 256;
    }
  }

  /** A prefix length. */
  type Prefix = p: nat | p <= 32

  /** Number of addresses in a block with the given prefix length. */
  function BlockSize(prefix: Prefix): nat
  {
    Pow2(32 - prefix)
  }

  /** An `IPv4Network`: base address and prefix length. */
  datatype Block = Block(base: nat, prefix: Prefix)

  /** A well-formed network: no host bits set, inside the IPv4 address space. */
  predicate ValidBlock(b: Block)
  {
    && b.base % BlockSize(b.prefix) == 0
    && b.base + BlockSize(b.prefix) <= AddressCount
  }

  /** The last address of a block: its broadcast address. */
  function Broadcast(b: Block): nat
  {
    b.base + BlockSize(b.prefix) - 1
  }

  predicate InBlock(b: Block, a: nat)
  {
    b.base <= a <= Broadcast(b)
  }

  /** Two blocks share at least one address. */
  predicate Overlaps(x: Block, y: Block)
  {
    x.base <= Broadcast(y) && y.base <= Broadcast(x)
  }

  /** A block with at least two usable hosts, where `hosts()` excludes network and broadcast. */
  predicate HostBlock(b: Block)
  {
    ValidBlock(b) && b.prefix <= 30
  }

  lemma HostBlockSize(b: Block)
    requires HostBlock(b)
    ensures BlockSize(b.prefix) >= 4
  {
    Pow2Monotonic(2, 32 - b.prefix);
  }

  /** `list(network.hosts())`: every address strictly between network and broadcast, ascending. */
  function Hosts(b: Block): (hs: seq<nat>)
    requires HostBlock(b)
    ensures |hs| >= 2
  {
    HostBlockSize(b);
    seq(BlockSize(b.prefix) - 2, i => b.base + 1 + i)
  }

  /** The usable hosts are exactly the block's addresses other than network and broadcast. */
  lemma HostsAreUsable(b: Block, a: nat)
    requires HostBlock(b)
    ensures a in Hosts(b) <==> InBlock(b, a) && a != b.base && a != Broadcast(b)
  {
    var hs := Hosts(b);
    if InBlock(b, a) && a != b.base && a != Broadcast(b) {
      assert hs[a - b.base - 1] == a;
    }
  }

  /** Hosts are strictly ascending, so distinct positions hold distinct addresses. */
  lemma HostsAscending(b: Block, i: nat, j: nat)
    requires HostBlock(b)
    requires i < j < |Hosts(b)|
    ensures Hosts(b)[i] < Hosts(b)[j]
  {
  }

  /**
   * `network.subnets(new_prefix=bits)`: the consecutive blocks of length `bits` that make up
   * the network, ascending.
   */
  function Subnets(super: Block, bits: nat): (r: seq<Block>)
    requires ValidBlock(super) && super.prefix <= bits <= 32
  {
    seq(Pow2(bits - super.prefix), i requires 0 <= i => SubnetAt(super, bits, i))
  }

  /** The subnet at position `i` of `Subnets(super, bits)`. */
  function SubnetAt(super: Block, bits: Prefix, i: nat): Block
  {
    Block(super.base + i * BlockSize(bits), bits)
  }

  lemma SubnetSizes(super: Block, bits: nat)
    requires ValidBlock(super) && super.prefix <= bits <= 32
    ensures BlockSize(super.prefix) == Pow2(bits - super.prefix) * BlockSize(bits)
  {
    Pow2Add(bits - super.prefix, 32 - bits);
  }

  lemma MulLe(a: nat, b: nat, k: nat)
    requires a <= b
    ensures a * k <= b * k
  {
  }

  /** Euclidean division has one quotient and one remainder. */
  lemma DivModUnique(x: nat, k: nat, q: nat, r: nat)
    requires k > 0 && r < k && x == q * k + r
    ensures x % k == r && x / k == q
  {
    var q0, r0 := x / k, x % k;
    if q > q0 {
      MulLe(q0 + 1, q, k);
      assert false;
    } else if q < q0 {
      MulLe(q + 1, q0, k);
      assert false;
    }
  }

  /** An offset by whole small blocks from a big-block-aligned base stays small-block-aligned. */
  lemma AlignedOffset(base: nat, big: nat, n: nat, s: nat, i: nat)
    requires s > 0 && n > 0 && big == n * s && base % big == 0
    ensures (base + i * s) % s == 0
  {
    var m := base / big;
    assert base == m * big;
    assert m * big == (m * n) * s;
    assert base + i * s == (m * n + i) * s;
    DivModUnique(base + i * s, s, m * n + i, 0);
  }

  lemma OffsetInside(n: nat, s: nat, i: nat)
    requires i < n
    ensures i * s + s <= n * s
  {
    MulLe(i + 1, n, s);
    assert (i + 1) * s == i * s + s;
  }

  /** Each subnet is a well-formed block of length `bits` inside the supernet. */
  lemma SubnetInside(super: Block, bits: nat, i: nat)
    requires ValidBlock(super) && super.prefix <= bits <= 32
    requires i < Pow2(bits - super.prefix)
    ensures ValidBlock(SubnetAt(super, bits, i))
    ensures super.base <= SubnetAt(super, bits, i).base
    ensures Broadcast(SubnetAt(super, bits, i)) <= Broadcast(super)
  {
    var n, s, big := Pow2(bits - super.prefix), BlockSize(bits), BlockSize(super.prefix);
    SubnetSizes(super, bits);
    AlignedOffset(super.base, big, n, s, i);
    OffsetInside(n, s, i);
  }

  /** Consecutive subnets: one ends right where the next begins. */
  lemma SubnetsAdjacent(super: Block, bits: Prefix, i: nat)
    ensures Broadcast(SubnetAt(super, bits, i)) + 1 == SubnetAt(super, bits, i + 1).base
  {
    var s := BlockSize(bits);
    assert (i + 1) * s == i * s + s;
  }

  /**
   * There are 2^(bits - prefix) subnets; each is a well-formed block of length `bits`
   * inside the supernet, and each ends right where the next begins.
   */
  lemma SubnetsTile(super: Block, bits: nat)
    requires ValidBlock(super) && super.prefix <= bits <= 32
    ensures |Subnets(super, bits)| == Pow2(bits - super.prefix)
    ensures forall i :: 0 <= i < |Subnets(super, bits)| ==>
      && ValidBlock(Subnets(super, bits)[i])
      && Subnets(super, bits)[i].prefix == bits
      && super.base <= Subnets(super, bits)[i].base
      && Broadcast(Subnets(super, bits)[i]) <= Broadcast(super)
    ensures forall i :: 0 <= i < |Subnets(super, bits)| - 1 ==>
      Broadcast(Subnets(super, bits)[i]) + 1 == Subnets(super, bits)[i + 1].base
  {
    var subs := Subnets(super, bits);
    forall i | 0 <= i < |subs|
      ensures ValidBlock(subs[i]) && super.base <= subs[i].base
      ensures Broadcast(subs[i]) <= Broadcast(super)
    {
      SubnetInside(super, bits, i);
    }
    forall i | 0 <= i < |subs| - 1
      ensures Broadcast(subs[i]) + 1 == subs[i + 1].base
    {
      SubnetsAdjacent(super, bits, i);
    }
  }

  /** Subnets are ascending and pairwise disjoint. */
  lemma SubnetsDisjoint(super: Block, bits: nat, i: nat, j: nat)
    requires ValidBlock(super) && super.prefix <= bits <= 32
    requires i < j < |Subnets(super, bits)|
    ensures Subnets(super, bits)[i].base < Subnets(super, bits)[j].base
    ensures !Overlaps(Subnets(super, bits)[i], Subnets(super, bits)[j])
  {
    var s := BlockSize(bits);
    MulLe(i + 1, j, s);
    assert (i + 1) * s == i * s + s;
  }

  lemma QuotientBelow(x: nat, n: nat, s: nat)
    requires s > 0 && x < n * s
    ensures 0 <= x / s < n
    ensures (x / s) * s <= x < (x / s) * s + s
  {
    if x / s >= n {
      MulLe(n, x / s, s);
    }
  }

  /** Every address of the supernet lies in one of the subnets: they leave no gaps. */
  lemma SubnetsCover(super: Block, bits: nat, a: nat)
    requires ValidBlock(super) && super.prefix <= bits <= 32
    requires InBlock(super, a)
    ensures exists i :: 0 <= i < |Subnets(super, bits)| && InBlock(Subnets(super, bits)[i], a)
  {
    var n, s := Pow2(bits - super.prefix), BlockSize(bits);
    SubnetSizes(super, bits);
    var x := a - super.base;
    QuotientBelow(x, n, s);
    var i := x / s;
    var sub := SubnetAt(super, bits, i);
    assert Subnets(super, bits)[i] == sub;
    assert sub.base == super.base + i * s;
    assert InBlock(sub, a);
  }

  /** The four octets of an address, most significant first. */
  function Octets(a: nat): (o: (nat, nat, nat, nat))
    requires a < AddressCount
    ensures o.0 < 256 && o.1 < 256 && o.2 < 256 && o.3 < 256
    ensures a == ((o.0 * 256 + o.1) * 256 + o.2) * 256 + o.3
  {
    var q1 := a / 256;
    var q2 := q1 / 256;
    (q2 / 256, q2 % 256, q1 % 256, a % 256)
  }

  /** `str(IPv4Address(a))`: the dotted quad. */
  function FormatIp(a: nat): string
    requires a < AddressCount
  {
    DottedQuad(Octets(a))
  }

  function DottedQuad(o: (nat, nat, nat, nat)): string
  {
    Decimal(o.0) + "." + (Decimal(o.1) + "." + (Decimal(o.2) + "." + Decimal(o.3)))
  }

  /** `str(network)`: dotted quad of the base, a slash and the prefix length. */
  function FormatBlock(b: Block): string
    requires b.base < AddressCount
  {
    FormatIp(b.base) + "/" + Decimal(b.prefix)
  }

  /** The first dot of `x + "." + y` is the one after `x`, when `x` is all digits. */
  lemma FirstDot(x: string, y: string)
    requires forall i :: 0 <= i < |x| ==> IsDigit(x[i])
    ensures Find(x + "." + y, '.') == |x|
  {
    var s := x + "." + y;
    assert forall j :: 0 <= j < |x| ==> s[j] == x[j];
    FindAt(s, '.', |x|);
  }

  lemma DotSplit(x: string, y: string, x': string, y': string)
    requires forall i :: 0 <= i < |x| ==> IsDigit(x[i])
    requires forall i :: 0 <= i < |x'| ==> IsDigit(x'[i])
    requires x + "." + y == x' + "." + y'
    ensures x == x' && y == y'
  {
    var s := x + "." + y;
    FirstDot(x, y);
    FirstDot(x', y');
    assert x == s[..|x|] == x';
    assert y == s[|x| + 1..] == y';
  }

  lemma DottedQuadInjective(o: (nat, nat, nat, nat), p: (nat, nat, nat, nat))
    requires DottedQuad(o) == DottedQuad(p)
    ensures o == p
  {
    DotSplit(Decimal(o.0), Decimal(o.1) + "." + (Decimal(o.2) + "." + Decimal(o.3)),
             Decimal(p.0), Decimal(p.1) + "." + (Decimal(p.2) + "." + Decimal(p.3)));
    DotSplit(Decimal(o.1), Decimal(o.2) + "." + Decimal(o.3),
             Decimal(p.1), Decimal(p.2) + "." + Decimal(p.3));
    DotSplit(Decimal(o.2), Decimal(o.3), Decimal(p.2), Decimal(p.3));
    DecimalInjective(o.0, p.0);
    DecimalInjective(o.1, p.1);
    DecimalInjective(o.2, p.2);
    DecimalInjective(o.3, p.3);
  }

  lemma OctetsInjective(a: nat, b: nat)
    requires a < AddressCount && b < AddressCount
    requires Octets(a) == Octets(b)
    ensures a == b
  {
  }

  /** Different addresses render differently, so IP strings are sound dictionary keys. */
  lemma FormatIpInjective(a: nat, b: nat)
    requires a < AddressCount && b < AddressCount
    requires FormatIp(a) == FormatIp(b)
    ensures a == b
  {
    DottedQuadInjective(Octets(a), Octets(b));
    OctetsInjective(a, b);
  }
}

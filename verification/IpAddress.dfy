/** Address and network normalisation, and the peeling of a proxy chain: app/security/ip.py.
  * An address is its version and its bits as a number; text is read by a given parser. */
module IpAddresses {
  import opened Facts

  // ---- Bits -------------------------------------------------------------------------------

  function Pow2(n: nat): (p: nat)
    ensures p >= 1
  {
    if n == 0 then 1 else 2 * Pow2(n - 1)
  }

  lemma {:induction false} Pow2Adds(m: nat, n: nat)
    ensures Pow2(m + n) == Pow2(m) * Pow2(n)
  {
    if m > 0 {
      Pow2Adds(m - 1, n);
      assert Pow2(m + n) == 2 * Pow2(m + n - 1);
      Product3(2, Pow2(m - 1), Pow2(n));
    }
  }

  /** The largest multiple of `d` not above `x`. */
  function Floor(x: nat, d: nat): (r: nat)
    requires d > 0
    ensures r <= x < r + d && r % d == 0
  {
    assert x == d * (x / d) + x % d;
    DivModIs(d * (x / d), d, x / d, 0);
    d * (x / d)
  }

  lemma FloorIs(x: nat, d: nat, q: nat, r: nat)
    requires d > 0 && x == d * q + r && r < d
    ensures Floor(x, d) == d * q && x % d == r && x / d == q
  {
    DivModIs(x, d, q, r);
  }

  /** Multiples of the divisor pass through. */
  lemma FloorShift(q: nat, low: nat, d: nat)
    requires d > 0
    ensures Floor(d * q + low, d) == d * q + Floor(low, d)
    ensures (d * q + low) % d == low % d
  {
    var t := low / d;
    assert low == d * t + low % d;
    Distributes(d, q, t);
    FloorIs(d * q + low, d, q + t, low % d);
    FloorIs(low, d, t, low % d);
  }

  lemma FloorOfMultiple(x: nat, d: nat)
    requires d > 0 && x % d == 0
    ensures Floor(x, d) == x
  {
    FloorIs(x, d, x / d, 0);
  }

  lemma Distributes(d: nat, q: nat, t: nat)
    ensures d * (q + t) == d * q + d * t
  {
  }

  /** Clearing low bits leaves the bits of a larger block as they are. */
  lemma FloorInBlock(high: nat, low: nat, block: nat, times: nat, d: nat)
    requires d > 0 && block == times * d
    ensures Floor(high * block + low, d) == high * block + Floor(low, d)
    ensures (high * block + low) % d == low % d
  {
    assert high * block == d * (high * times) by { Product3(high, times, d); }
    FloorShift(high * times, low, d);
  }

  lemma Product3(a: nat, b: nat, c: nat)
    ensures a * (b * c) == (a * b) * c
  {
  }

  /** A number whose lowest bits are cleared. */
  function Masked(bits: nat, host: nat): (r: nat)
    ensures r <= bits && r % Pow2(host) == 0
  {
    Floor(bits, Pow2(host))
  }

  /** The number of IPv4 addresses. */
  const BLOCK: nat := 0x1_0000_0000

  lemma BlockIsPow2()
    ensures Pow2(32) == BLOCK
  {
    assert Pow2(4) == 16;
    Pow2Adds(4, 4);
    Pow2Adds(8, 8);
    Pow2Adds(16, 16);
  }

  lemma PowerDividesBlock(host: nat) returns (times: nat)
    requires host <= 32
    ensures BLOCK == times * Pow2(host)
  {
    Pow2Adds(32 - host, host);
    BlockIsPow2();
    times := Pow2(32 - host);
  }

  lemma MaskInBlock(high: nat, low: nat, host: nat)
    requires host <= 32
    ensures Masked(high * BLOCK + low, host) == high * BLOCK + Masked(low, host)
    ensures (high * BLOCK + low) % Pow2(host) == low % Pow2(host)
  {
    var times := PowerDividesBlock(host);
    FloorInBlock(high, low, BLOCK, times, Pow2(host));
  }

  // ---- Addresses and networks -------------------------------------------------------------

  datatype Version = V4 | V6

  function Width(version: Version): nat {
    if version.V4? then 32 else 128
  }

  /** How many addresses the version has: 2 to the power of its width. */
  function Size(version: Version): nat {
    if version.V4? then BLOCK else BLOCK * BLOCK * BLOCK * BLOCK
  }

  datatype Address = Address(version: Version, bits: nat) {
    predicate Valid() {
      bits < Size(version)
    }
  }

  datatype Network = Network(version: Version, base: nat, prefix: nat) {
    predicate Valid() {
      prefix <= Width(version) && base < Size(version) && base % Pow2(Width(version) - prefix) == 0
    }

    /** `address in network`, false across versions. */
    predicate Contains(a: Address)
      requires Valid()
    {
      a.version == version && Masked(a.bits, Width(version) - prefix) == base
    }
  }

  /** `ip_network(.., strict=False)`. */
  function MakeNetwork(a: Address, prefix: nat): (n: Network)
    requires a.Valid() && prefix <= Width(a.version)
    ensures n.Valid() && n.Contains(a)
  {
    Network(a.version, Masked(a.bits, Width(a.version) - prefix), prefix)
  }

  /** A network holds the addresses from its base on, as many as its host bits make. */
  lemma ContainsIff(n: Network, a: Address)
    requires n.Valid() && a.Valid()
    ensures n.Contains(a) <==>
              a.version == n.version && n.base <= a.bits < n.base + Pow2((if n.version.V4? then 32 else 128) - n.prefix)
  {
    var size := Pow2(Width(n.version) - n.prefix);
    if n.base <= a.bits < n.base + size {
      assert n.base == size * (n.base / size) + n.base % size;
      FloorIs(a.bits, size, n.base / size, a.bits - n.base);
    }
  }

  const MAPPED: nat := 0xFFFF

  /** Section 2.5.5.2 of RFC 4291: eighty zero bits, sixteen ones, then the IPv4 address. */
  predicate Mapped(version: Version, bits: nat) {
    version.V6? && bits / BLOCK == MAPPED
  }

  function NormalizeIp(a: Address): (r: Address)
    requires a.Valid()
    ensures r.Valid() && !Mapped(r.version, r.bits)
  {
    if Mapped(a.version, a.bits) then Address(V4, a.bits % BLOCK) else a
  }

  /** An IPv4-mapped address becomes the IPv4 address in its last four bytes, every other stays. */
  lemma NormalizeIpIs(a: Address)
    requires a.Valid()
    ensures NormalizeIp(a) == if a.version.V6? && 0xFFFF_0000_0000 <= a.bits <= 0xFFFF_FFFF_FFFF
                              then Address(V4, a.bits - 0xFFFF_0000_0000) else a
  {
    assert a.bits == BLOCK * (a.bits / BLOCK) + a.bits % BLOCK;
  }

  function NormalizeNetwork(n: Network): (r: Network)
    requires n.Valid()
    ensures r.Valid()
  {
    if Mapped(n.version, n.base) then
      MakeNetwork(Address(V4, n.base % BLOCK), if n.prefix >= 96 then n.prefix - 96 else 0)
    else n
  }

  /** A network whose masked base is IPv4-mapped is at least a /96, so the clamp to 0 never fires. */
  lemma MappedNetworksAreNarrow(n: Network)
    requires n.Valid() && Mapped(n.version, n.base)
    ensures n.prefix >= 96
  {
    if n.prefix < 96 {
      var above := 95 - n.prefix;
      Pow2Adds(above, 33);
      BlockIsPow2();
      EvenBlocks(n.base, BLOCK, Pow2(above));
    }
  }

  lemma EvenBlocks(x: nat, block: nat, times: nat)
    requires block > 0 && times > 0 && x % (times * (2 * block)) == 0
    ensures x / block % 2 == 0
  {
    var d := times * (2 * block);
    var t := x / d;
    assert x == d * t + x % d;
    var half := times * t;
    assert d * t == block * (2 * half);
    DivModIs(x, block, 2 * half, 0);
  }

  lemma SplitMapped(bits: nat)
    requires bits / BLOCK == MAPPED
    ensures bits == MAPPED * BLOCK + bits % BLOCK
  {
    assert bits == BLOCK * (bits / BLOCK) + bits % BLOCK;
  }

  /** Inside a /96 or narrower, masking stays below the mapped marker. */
  lemma MaskMapped(bits: nat, host: nat)
    requires bits / BLOCK == MAPPED && host <= 32
    ensures Masked(bits, host) == MAPPED * BLOCK + Masked(bits % BLOCK, host)
    ensures Masked(bits, host) / BLOCK == MAPPED
    ensures bits % Pow2(host) == bits % BLOCK % Pow2(host)
  {
    SplitMapped(bits);
    MaskInBlock(MAPPED, bits % BLOCK, host);
    DivModIs(Masked(bits, host), BLOCK, MAPPED, Masked(bits % BLOCK, host));
  }

  lemma NormalizedMapped(n: Network)
    requires n.Valid() && Mapped(n.version, n.base)
    ensures n.prefix >= 96 && NormalizeNetwork(n) == Network(V4, n.base % BLOCK, n.prefix - 96)
  {
    MappedNetworksAreNarrow(n);
    MaskMapped(n.base, 128 - n.prefix);
    FloorOfMultiple(n.base % BLOCK, Pow2(128 - n.prefix));
  }

  /** The text form is normalised again before each use; that changes nothing. */
  lemma NormalizeNetworkTwice(n: Network)
    requires n.Valid()
    ensures NormalizeNetwork(NormalizeNetwork(n)) == NormalizeNetwork(n)
  {
    if Mapped(n.version, n.base) { NormalizedMapped(n); }
  }

  lemma MappedInMapped(a: Address, n: Network)
    requires a.Valid() && n.Valid() && Mapped(n.version, n.base) && Mapped(a.version, a.bits)
    ensures NormalizeNetwork(n).Contains(NormalizeIp(a)) <==> n.Contains(a)
  {
    NormalizedMapped(n);
    SplitMapped(n.base);
    MaskMapped(a.bits, 128 - n.prefix);
  }

  lemma UnmappedInMapped(a: Address, n: Network)
    requires a.Valid() && n.Valid() && Mapped(n.version, n.base) && !Mapped(a.version, a.bits) && a.version.V6?
    ensures !NormalizeNetwork(n).Contains(NormalizeIp(a)) && !n.Contains(a)
  {
    NormalizedMapped(n);
    BlockOfMasked(a.bits, 128 - n.prefix);
  }

  /** Between two IPv6 values, normalisation changes membership exactly when the address is
    * IPv4-mapped and the network wider than a /96: such a network loses its mapped addresses. */
  lemma NormalizedMembership(a: Address, n: Network)
    requires a.Valid() && n.Valid() && a.version.V6? && n.version.V6?
    ensures NormalizeNetwork(n).Contains(NormalizeIp(a))
            <==> n.Contains(a) && !(Mapped(a.version, a.bits) && n.prefix < 96)
  {
    if Mapped(n.version, n.base) {
      MappedNetworksAreNarrow(n);
      if Mapped(a.version, a.bits) { MappedInMapped(a, n); } else { UnmappedInMapped(a, n); }
    } else if Mapped(a.version, a.bits) && n.prefix >= 96 {
      MaskMapped(a.bits, 128 - n.prefix);
    }
  }

  lemma BlockOfMasked(bits: nat, host: nat)
    requires host <= 32
    ensures Masked(bits, host) / BLOCK == bits / BLOCK
  {
    var q, low := bits / BLOCK, bits % BLOCK;
    assert bits == q * BLOCK + low;
    MaskInBlock(q, low, host);
    DivModIs(Masked(bits, host), BLOCK, q, Masked(low, host));
  }

  /** The IPv6 form of an IPv4 address. */
  function Embedded(a: Address): (r: Address)
    requires a.Valid() && a.version.V4?
    ensures r.Valid() && r.version.V6? && NormalizeIp(r) == a
  {
    DivModIs(MAPPED * BLOCK + a.bits, BLOCK, MAPPED, a.bits);
    Address(V6, MAPPED * BLOCK + a.bits)
  }

  /** An IPv4 address is in a normalised IPv6 network exactly when its mapped form was in the
    * original one and that one was at least a /96. */
  lemma EmbeddedMembership(a: Address, n: Network)
    requires a.Valid() && n.Valid() && a.version.V4? && n.version.V6?
    ensures NormalizeNetwork(n).Contains(NormalizeIp(a)) <==> n.Contains(Embedded(a)) && n.prefix >= 96
  {
    var e := Embedded(a);
    NormalizedMembership(e, n);
    DivModIs(e.bits, BLOCK, MAPPED, a.bits);
  }

  /** `address_in_networks`. */
  predicate InNetworks(a: Address, networks: seq<Network>)
    requires forall n :: n in networks ==> n.Valid()
  {
    exists i :: 0 <= i < |networks| && networks[i].Contains(a)
  }
}

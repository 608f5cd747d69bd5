// CIDR arithmetic of the packet filter: what the manager compiles, what the filter compares.
module CidrMask {

  // A prefix length as ipaddress.IPv4Network accepts it.
  type Prefix = p: bv64 | p <= 32 witness 0

  datatype ByteOrder = BigEndian | LittleEndian

  // _cidr_to_mask. The shifted constant fits 64 bits, so this is Python's unbounded integer arithmetic.
  function PrefixMask(p: Prefix): bv32 {
    var m := ((0xFFFF_FFFF as bv64) << (32 - p)) & 0xFFFF_FFFF;
    m as bv32
  }

  // 2^(32 - p) - 1, the offset of the last address of a block.
  function LastOffset(p: Prefix): bv32 {
    var offset := ((1 as bv64) << (32 - p)) - 1;
    offset as bv32
  }

  // IPv4Network(..., strict=False) clears the host bits.
  function NetworkOf(address: bv32, p: Prefix): bv32 {
    address & PrefixMask(p)
  }

  // The block of a prefix as a range of addresses (section 3.1 of RFC 4632), independent of masks.
  predicate InBlock(ip: bv32, first: bv32, p: Prefix) {
    first <= ip <= first + LastOffset(p)
  }

  // check_cidr_match
  predicate MaskedEqual(ip: bv32, network: bv32, mask: bv32) {
    ip & mask == network & mask
  }

  // Clearing the host bits rounds down to the start of the block, setting them rounds up to its end.
  lemma RoundsDown(ip: bv32, host: bv32)
    ensures ip & !host <= ip
  {
  }

  lemma RoundsUp(ip: bv32, host: bv32)
    ensures ip <= ip | host && (ip & !host) | host == ip | host
  {
  }

  lemma EndOfBlock(first: bv32, host: bv32)
    requires first & host == 0
    ensures first + host == first | host
  {
  }

  // Addresses between the ends of an aligned block differ in host bits only.
  lemma DiffersInHostBits(ip: bv32, first: bv32, host: bv32)
    requires host & (host + 1) == 0 && first & host == 0 && first <= ip <= first | host
    ensures (ip ^ first) & !host == 0
  {
  }

  lemma SameNetworkBits(ip: bv32, first: bv32, host: bv32)
    requires (ip ^ first) & !host == 0 && first & host == 0
    ensures ip & !host == first
  {
  }

  lemma BetweenThenMasked(ip: bv32, first: bv32, host: bv32)
    requires host & (host + 1) == 0 && first & host == 0 && first <= ip <= first + host
    ensures ip & !host == first
  {
    EndOfBlock(first, host);
    DiffersInHostBits(ip, first, host);
    SameNetworkBits(ip, first, host);
  }

  lemma HostMask(p: Prefix)
    ensures PrefixMask(p) == !LastOffset(p) && LastOffset(p) & (LastOffset(p) + 1) == 0
  {
  }

  lemma NetworkHasNoHostBits(address: bv32, host: bv32)
    ensures (address & !host) & host == 0 && (address & !host) & !host == address & !host
  {
  }

  lemma MaskedThenInBlock(ip: bv32, first: bv32, p: Prefix)
    requires first & LastOffset(p) == 0 && ip & !LastOffset(p) == first
    ensures InBlock(ip, first, p)
  {
    RoundsDown(ip, LastOffset(p));
    RoundsUp(ip, LastOffset(p));
    EndOfBlock(first, LastOffset(p));
  }

  lemma InBlockThenMasked(ip: bv32, first: bv32, p: Prefix)
    requires first & LastOffset(p) == 0 && InBlock(ip, first, p)
    ensures ip & !LastOffset(p) == first
  {
    HostMask(p);
    BetweenThenMasked(ip, first, LastOffset(p));
  }

  // The masked comparison is membership in the range.
  lemma MaskIsRange(ip: bv32, address: bv32, p: Prefix)
    ensures MaskedEqual(ip, NetworkOf(address, p), PrefixMask(p)) <==> InBlock(ip, NetworkOf(address, p), p)
  {
    hide PrefixMask, LastOffset;
    HostMask(p);
    NetworkHasNoHostBits(address, LastOffset(p));
    if MaskedEqual(ip, NetworkOf(address, p), PrefixMask(p)) {
      MaskedThenInBlock(ip, NetworkOf(address, p), p);
    }
    if InBlock(ip, NetworkOf(address, p), p) {
      InBlockThenMasked(ip, NetworkOf(address, p), p);
    }
  }

  // The first p bits agree: the difference is in the last 32 - p bits.
  predicate SamePrefix(x: bv32, y: bv32, p: Prefix) {
    IsLow(x ^ y, p)
  }

  predicate IsLow(difference: bv32, p: Prefix) {
    difference as bv64 < (1 as bv64) << (32 - p)
  }

  lemma MaskedDifference(x: bv32, y: bv32, m: bv32)
    ensures MaskedEqual(x, y & m, m) <==> (x ^ y) & m == 0
  {
    MaskedTwice(y, m);
    EqualIffNoDifference(x & m, y & m);
    DifferenceOfMasked(x, y, m);
  }

  lemma MaskedTwice(y: bv32, m: bv32)
    ensures (y & m) & m == y & m
  {
  }

  lemma EqualIffNoDifference(x: bv32, y: bv32)
    ensures x == y <==> x ^ y == 0
  {
  }

  lemma DifferenceOfMasked(x: bv32, y: bv32, m: bv32)
    ensures (x & m) ^ (y & m) == (x ^ y) & m
  {
  }

  lemma MaskedIsBelow(difference: bv32, p: Prefix)
    ensures difference & PrefixMask(p) == 0 <==> IsLow(difference, p)
  {
  }

  // The masked comparison with a block's network compares the first bits with those of its address.
  lemma MaskIsPrefix(ip: bv32, address: bv32, p: Prefix)
    ensures MaskedEqual(ip, NetworkOf(address, p), PrefixMask(p)) <==> SamePrefix(ip, address, p)
  {
    hide PrefixMask, MaskedEqual, IsLow;
    MaskedDifference(ip, address, PrefixMask(p));
    MaskedIsBelow(ip ^ address, p);
  }

  // So the block of an address is the range of the addresses with the same first bits.
  lemma BlockIsPrefix(ip: bv32, address: bv32, p: Prefix)
    ensures InBlock(ip, NetworkOf(address, p), p) <==> SamePrefix(ip, address, p)
  {
    MaskIsRange(ip, address, p);
    MaskIsPrefix(ip, address, p);
    hide *;
  }

  predicate Nested(m: bv32, n: bv32) {
    m & n == m
  }

  lemma MasksNest(p: Prefix, q: Prefix)
    requires p <= q
    ensures Nested(PrefixMask(p), PrefixMask(q))
  {
  }

  lemma NestedMasks(ip: bv32, address: bv32, m: bv32, n: bv32)
    requires Nested(m, n) && MaskedEqual(ip, address & n, n)
    ensures MaskedEqual(ip, address & m, m)
  {
  }

  // A longer prefix of the same address gives a smaller block.
  lemma LongerPrefixIsSmaller(ip: bv32, address: bv32, p: Prefix, q: Prefix)
    requires p <= q && InBlock(ip, NetworkOf(address, q), q)
    ensures InBlock(ip, NetworkOf(address, p), p)
  {
    hide PrefixMask, LastOffset, InBlock, MaskedEqual, Nested;
    MaskIsRange(ip, address, q);
    MaskIsRange(ip, address, p);
    MasksNest(p, q);
    NestedMasks(ip, address, PrefixMask(p), PrefixMask(q));
  }
}

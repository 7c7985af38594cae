/**
 The deterministic IPv4 star of a network. Addresses are their 32-bit values; bit masks
 become division and remainder by powers of two.
 */
module AddressPlan {
  import opened Vocabulary
  import TlsRecords

  datatype IpAddress = V4(value: U32) | V6(groups: seq<Byte>)

  datatype Prefix = Prefix(address: IpAddress, length: Byte)

  type Interface = string

  datatype InterfaceAddress = InterfaceAddress(interface: Interface, prefix: Prefix, owner: NetworkId)

  /** An active kernel prefix; the interface may be unidentified. */
  datatype ActivePrefix = ActivePrefix(interface: Option<Interface>, prefix: Prefix)

  datatype Endpoint = Endpoint(ip: U32, port: int)

  const CONTROL_TCP_PORT := 46071

  // ---------------------------------------------------------------- pools

  datatype Pool = Pool(network: U32, poolLength: Byte, segmentLength: Byte)

  /** The three private ranges as (leading bits, their number). */
  const PRIVATE_RANGES: seq<(nat, nat)> := [(10, 8), (0xac1, 12), (0xc0a8, 16)]

  predicate InRange(ip: U32, range: (nat, nat))
    requires range.1 <= 32
  {
    ip / Pow2(32 - range.1) == range.0
  }

  predicate PoolIsPrivate(pool: Pool) {
    exists i :: 0 <= i < |PRIVATE_RANGES|
      && pool.poolLength >= PRIVATE_RANGES[i].1 && InRange(pool.network, PRIVATE_RANGES[i])
  }

  function Validate(pool: Pool): Result<()> {
    if pool.poolLength > 32 then
      Fail(InvalidInput)
    else if pool.segmentLength > 30 then
      Fail(InvalidInput)
    else if pool.segmentLength < pool.poolLength then
      Fail(InvalidInput)
    else if pool.network % Pow2(32 - pool.poolLength) != 0 then
      Fail(InvalidInput)
    else if !PoolIsPrivate(pool) then
      Fail(InvalidInput)
    else
      Ok(())
  }

  /** `Ipv4Addr::is_private`: 10/8, 172.16/12 or 192.168/16. */
  predicate IsPrivate(ip: U32) {
    ip / 0x100_0000 == 10 || ip / 0x10_0000 == 0xac1 || ip / 0x1_0000 == 0xc0a8
  }

  predicate IsLoopback(ip: U32) { ip / 0x100_0000 == 127 }

  // ---------------------------------------------------------------- the plan

  datatype StarPlan = StarPlan(segment: Prefix, host: Prefix, firstClient: Prefix)

  function Selector(network: NetworkId): U32 {
    var b := network.bytes;
    0x100_0000 * (b[0] as int) + 0x1_0000 * (b[1] as int) + 0x100 * (b[2] as int) + b[3]
  }

  /** First address of the segment; may leave the 32-bit range on an unchecked pool. */
  function SegmentStart(network: NetworkId, pool: Pool): nat
    requires pool.poolLength <= pool.segmentLength <= 32
  {
    pool.network + Selector(network) % Pow2(pool.segmentLength - pool.poolLength) * Pow2(32 - pool.segmentLength)
  }

  function PlanFor(network: NetworkId, pool: Pool): Result<StarPlan> {
    if Validate(pool).Err? then
      Err(Validate(pool).error)
    else
      var start := SegmentStart(network, pool);
      if start >= 0x1_0000_0000 then
        Fail(InvalidInput)
      else if start + 1 >= 0x1_0000_0000 then
        Fail(InvalidInput)
      else if start + 2 >= 0x1_0000_0000 then
        Fail(InvalidInput)
      else
        Ok(StarPlan(Prefix(V4(start), pool.segmentLength),
                    Prefix(V4(start + 1), pool.segmentLength),
                    Prefix(V4(start + 2), pool.segmentLength)))
  }

  lemma {:induction false} Pow2Sum(a: nat, b: nat)
    ensures Pow2(a + b) == Pow2(a) * Pow2(b)
  {
    if b != 0 {
      Pow2Sum(a, b - 1);
      assert Pow2(a) * (2 * Pow2(b - 1)) == 2 * (Pow2(a) * Pow2(b - 1));
    }
  }

  lemma {:induction false} Pow2Monotone(a: nat, b: nat)
    requires a <= b
    ensures Pow2(a) <= Pow2(b)
  {
    if a < b { Pow2Monotone(a, b - 1); }
  }

  lemma Scale(a: nat, b: nat, d: nat)
    requires a <= b
    ensures a * d <= b * d
  {
  }

  lemma DivideBetween(x: nat, q: nat, d: nat)
    requires d > 0 && q * d <= x < (q + 1) * d
    ensures x / d == q && x % d == x - q * d
  {
    var k := x / d;
    assert x == k * d + x % d;
    if k < q {
      Scale(k + 1, q, d);
    } else if q < k {
      Scale(q + 1, k, d);
    }
  }

  /** A multiple of `unit` below another multiple is at least one unit below. */
  lemma OneUnitBelow(k: nat, high: nat, unit: nat)
    requires unit > 0 && k * unit < high * unit
    ensures (k + 1) * unit <= high * unit
  {
    if k < high { Scale(k + 1, high, unit); } else { Scale(high, k, unit); }
  }

  /** An aligned block of `unit` that starts in the `q`-th block of `n * unit` stays in it. */
  lemma BlockInBlock(start: nat, q: nat, width: nat, n: nat, unit: nat, ip: nat)
    requires unit > 0 && width > 0 && width == n * unit
    requires start % unit == 0 && start / width == q
    requires start <= ip < start + unit
    ensures ip / width == q && ip < (q + 1) * width
  {
    var k := start / unit;
    assert start == k * unit;
    assert start == q * width + start % width;
    assert (q + 1) * width == q * width + width;
    assert (q + 1) * width == ((q + 1) * n) * unit;
    OneUnitBelow(k, (q + 1) * n, unit);
    assert (k + 1) * unit == k * unit + unit;
    DivideBetween(ip, q, width);
  }

  /** An aligned block that starts in a private range and is no wider stays inside it. */
  lemma BlockStaysInRange(start: U32, length: nat, range: (nat, nat), ip: nat)
    requires range.1 <= length <= 32 && range.0 < Pow2(range.1)
    requires start % Pow2(32 - length) == 0 && InRange(start, range)
    requires start <= ip < start + Pow2(32 - length)
    ensures ip < 0x1_0000_0000 && InRange(ip, range)
  {
    Pow2Sum(length - range.1, 32 - length);
    assert length - range.1 + (32 - length) == 32 - range.1;
    BlockInBlock(start, range.0, Pow2(32 - range.1), Pow2(length - range.1), Pow2(32 - length), ip);
    RangeFits(range);
  }

  lemma RangeFits(range: (nat, nat))
    requires range.1 <= 32 && range.0 < Pow2(range.1)
    ensures (range.0 + 1) * Pow2(32 - range.1) <= 0x1_0000_0000
  {
    Scale(range.0 + 1, Pow2(range.1), Pow2(32 - range.1));
    Pow2Sum(range.1, 32 - range.1);
    Whole(range.1 + (32 - range.1));
  }

  lemma Whole(n: nat)
    requires n == 32
    ensures Pow2(n) == 0x1_0000_0000
  {
    assert Pow2(4) == 16;
    assert Pow2(8) == 256 by { Pow2Sum(4, 4); }
    assert Pow2(16) == 65536 by { Pow2Sum(8, 8); }
    Pow2Sum(16, 16);
  }

  /** The `i`-th of `n` units inside the `k`-th block of `n * unit`. */
  lemma UnitInBlock(base: nat, width: nat, i: nat, n: nat, unit: nat)
    requires unit > 0 && i < n && width == n * unit && base % width == 0
    ensures (base + i * unit) % unit == 0
    ensures i * unit + unit <= width
  {
    var k := base / width;
    assert base == k * width;
    Scale(i + 1, n, unit);
    assert (i + 1) * unit == i * unit + unit;
    var m := k * n + i;
    assert base + i * unit == m * unit;
    assert (m + 1) * unit == m * unit + unit;
    DivideBetween(m * unit, m, unit);
  }

  lemma AlignedSegment(base: nat, width: nat, n: nat, unit: nat, selector: nat)
    requires n > 0 && unit > 0 && width == n * unit && base % width == 0
    ensures var start := base + selector % n * unit;
            base <= start && start % unit == 0 && start + unit <= base + width
  {
    UnitInBlock(base, width, selector % n, n, unit);
  }

  /** Every segment is an aligned block lying wholly inside the pool. */
  lemma SegmentInsidePool(network: NetworkId, pool: Pool)
    requires Validate(pool).Ok?
    ensures pool.network <= SegmentStart(network, pool)
    ensures SegmentStart(network, pool) + Pow2(32 - pool.segmentLength) <= pool.network + Pow2(32 - pool.poolLength)
    ensures SegmentStart(network, pool) % Pow2(32 - pool.segmentLength) == 0
  {
    var inner, outer := pool.segmentLength, pool.poolLength;
    Pow2Sum(inner - outer, 32 - inner);
    assert inner - outer + (32 - inner) == 32 - outer;
    AlignedSegment(pool.network, Pow2(32 - outer), Pow2(inner - outer), Pow2(32 - inner), Selector(network));
  }

  lemma PrivateRangesFit()
    ensures forall i :: 0 <= i < |PRIVATE_RANGES| ==> PRIVATE_RANGES[i].0 < Pow2(PRIVATE_RANGES[i].1)
  {
    assert Pow2(8) == 256;
    Pow2Sum(8, 4);
    Pow2Sum(8, 8);
    assert Pow2(4) == 16;
  }

  /** Every address of a valid pool is a 32-bit private address. */
  lemma PoolAddressesArePrivate(pool: Pool, ip: nat)
    requires Validate(pool).Ok?
    requires pool.network <= ip < pool.network + Pow2(32 - pool.poolLength)
    ensures ip < 0x1_0000_0000 && IsPrivate(ip) && !IsLoopback(ip)
  {
    PrivateRangesFit();
    var i :| 0 <= i < |PRIVATE_RANGES|
      && pool.poolLength >= PRIVATE_RANGES[i].1 && InRange(pool.network, PRIVATE_RANGES[i]);
    BlockStaysInRange(pool.network, pool.poolLength, PRIVATE_RANGES[i], ip);
    InRangeIsPrivate(ip, i);
  }

  lemma InRangeIsPrivate(ip: U32, i: nat)
    requires i < |PRIVATE_RANGES| && InRange(ip, PRIVATE_RANGES[i])
    ensures IsPrivate(ip) && !IsLoopback(ip)
  {
    assert Pow2(8) == 256 by { assert Pow2(4) == 16; Pow2Sum(4, 4); }
    assert Pow2(16) == 0x1_0000 by { Pow2Sum(8, 8); }
    assert Pow2(20) == 0x10_0000 by { assert Pow2(4) == 16; Pow2Sum(16, 4); }
    assert Pow2(24) == 0x100_0000 by { Pow2Sum(16, 8); }
  }

  /**
   For every network and every valid pool the plan exists (no addition overflows), its
   three prefixes are one segment of the pool, and host and client are distinct private
   addresses strictly between the segment's first and last address.
   */
  lemma PlanExists(network: NetworkId, pool: Pool)
    ensures PlanFor(network, pool).Ok? <==> Validate(pool).Ok?
    ensures PlanFor(network, pool).Ok? ==> WellPlaced(network, pool, PlanFor(network, pool).value)
  {
    if Validate(pool).Ok? {
      SegmentInsidePool(network, pool);
      var start := SegmentStart(network, pool);
      Pow2Monotone(2, 32 - pool.segmentLength);
      assert Pow2(2) == 4;
      PoolAddressesArePrivate(pool, start);
      PoolAddressesArePrivate(pool, start + 1);
      PoolAddressesArePrivate(pool, start + 2);
    }
  }

  ghost predicate WellPlaced(network: NetworkId, pool: Pool, plan: StarPlan)
    requires Validate(pool).Ok?
  {
    && plan.segment.address.V4? && plan.host.address.V4? && plan.firstClient.address.V4?
    && plan.segment.length == plan.host.length == plan.firstClient.length == pool.segmentLength
    && var start, host, client := plan.segment.address.value, plan.host.address.value, plan.firstClient.address.value;
    var last := start + Pow2(32 - pool.segmentLength) - 1;
    && pool.network <= start && last < pool.network + Pow2(32 - pool.poolLength)
    && start % Pow2(32 - pool.segmentLength) == 0
    && start < host < last && start < client < last && host != client
    && IsPrivate(host) && IsPrivate(client) && !IsLoopback(client)
  }

  /** Two networks of one pool share a whole segment or no address at all. */
  lemma SegmentsAreDisjointOrEqual(a: NetworkId, b: NetworkId, pool: Pool, ip: nat)
    requires Validate(pool).Ok?
    requires SegmentStart(a, pool) <= ip < SegmentStart(a, pool) + Pow2(32 - pool.segmentLength)
    requires SegmentStart(b, pool) <= ip < SegmentStart(b, pool) + Pow2(32 - pool.segmentLength)
    ensures PlanFor(a, pool) == PlanFor(b, pool)
  {
    SegmentInsidePool(a, pool);
    SegmentInsidePool(b, pool);
    SameBlock(SegmentStart(a, pool), SegmentStart(b, pool), Pow2(32 - pool.segmentLength), ip);
  }

  lemma SameBlock(x: nat, y: nat, unit: nat, ip: nat)
    requires unit > 0 && x % unit == 0 && y % unit == 0
    requires x <= ip < x + unit && y <= ip < y + unit
    ensures x == y
  {
    var i, j := x / unit, y / unit;
    assert x == i * unit && y == j * unit;
    assert (i + 1) * unit == i * unit + unit && (j + 1) * unit == j * unit + unit;
    DivideBetween(ip, i, unit);
    DivideBetween(ip, j, unit);
  }

  // ---------------------------------------------------------------- which pools, which segments

  predicate PrivateAddress(ip: nat) { ip < 0x1_0000_0000 && IsPrivate(ip) }

  /** Every address of the block is a private 32-bit address. */
  ghost predicate WhollyPrivate(network: U32, length: nat)
    requires length <= 32
  {
    forall ip: nat :: network <= ip < network + Pow2(32 - length) ==> PrivateAddress(ip)
  }

  /** An aligned block at least twice as wide as a unit starts at an even unit and holds the next one too. */
  lemma NextUnitToo(start: nat, q: nat, width: nat, n: nat, unit: nat)
    requires n > 0 && unit > 0 && width == n * (2 * unit) && start % width == 0 && start / unit == q
    ensures q % 2 == 0 && start + unit < start + width && (start + unit) / unit == q + 1
  {
    var k := start / width;
    var half := k * n;
    assert start == half * (2 * unit) by { Regroup(k, n, 2 * unit); }
    EvenUnit(start, half, unit);
    Scale(1, n, 2 * unit);
  }

  lemma Regroup(a: nat, b: nat, c: nat)
    ensures a * (b * c) == (a * b) * c
  {
  }

  lemma EvenUnit(start: nat, half: nat, unit: nat)
    requires unit > 0 && start == half * (2 * unit)
    ensures start / unit == 2 * half && (start + unit) / unit == 2 * half + 1
  {
    var q := 2 * half;
    assert start == q * unit;
    assert (q + 1) * unit == q * unit + unit;
    assert (q + 2) * unit == q * unit + unit + unit;
    DivideBetween(start, q, unit);
    DivideBetween(start + unit, q + 1, unit);
  }

  lemma Doubled(a: nat, b: nat)
    ensures Pow2(a + b + 1) == Pow2(a) * (2 * Pow2(b))
  {
    Pow2Sum(a, b + 1);
  }

  lemma WiderHoldsNext(start: nat, length: nat, r: nat, q: nat)
    requires length < r <= 32 && start % Pow2(32 - length) == 0 && start / Pow2(32 - r) == q
    ensures q % 2 == 0 && start + Pow2(32 - r) < start + Pow2(32 - length)
    ensures (start + Pow2(32 - r)) / Pow2(32 - r) == q + 1
  {
    var a, b := r - length - 1, 32 - r;
    Doubled(a, b);
    assert a + b + 1 == 32 - length;
    NextUnitToo(start, q, Pow2(32 - length), Pow2(a), Pow2(b));
  }

  /** No aligned block wider than the private range it starts in is wholly private. */
  lemma WiderIsNotPrivate(network: U32, length: nat, i: nat) returns (ip: nat)
    requires i < |PRIVATE_RANGES| && length < PRIVATE_RANGES[i].1
    requires network % Pow2(32 - length) == 0 && InRange(network, PRIVATE_RANGES[i])
    ensures network <= ip < network + Pow2(32 - length) && !PrivateAddress(ip)
  {
    var r, q := PRIVATE_RANGES[i].1, PRIVATE_RANGES[i].0;
    WiderHoldsNext(network, length, r, q);
    ip := network + Pow2(32 - r);
    NextIsPublic(ip, i);
  }

  lemma NextIsPublic(ip: nat, i: nat)
    requires i < |PRIVATE_RANGES| && ip / Pow2(32 - PRIVATE_RANGES[i].1) == PRIVATE_RANGES[i].0 + 1
    ensures PRIVATE_RANGES[i].0 % 2 == 0 ==> !PrivateAddress(ip)
  {
    Widths();
  }

  lemma Widths()
    ensures Pow2(16) == 0x1_0000 && Pow2(20) == 0x10_0000 && Pow2(24) == 0x100_0000
  {
    assert Pow2(4) == 16;
    Pow2Sum(4, 4);
    Pow2Sum(8, 8);
    Pow2Sum(16, 4);
    Pow2Sum(16, 8);
  }

  /** A private address lies in one of the three ranges. */
  lemma PrivateIsInRange(ip: U32) returns (i: nat)
    requires IsPrivate(ip)
    ensures i < |PRIVATE_RANGES| && InRange(ip, PRIVATE_RANGES[i])
  {
    Widths();
    i := if ip / 0x100_0000 == 10 then 0 else if ip / 0x10_0000 == 0xac1 then 1 else 2;
  }

  lemma FitsItsRange(network: U32, length: nat, i: nat)
    requires length <= 32 && i < |PRIVATE_RANGES| && InRange(network, PRIVATE_RANGES[i])
    requires network % Pow2(32 - length) == 0 && WhollyPrivate(network, length)
    ensures length >= PRIVATE_RANGES[i].1
  {
    if length < PRIVATE_RANGES[i].1 {
      var ip := WiderIsNotPrivate(network, length, i);
      assert false;
    }
  }

  lemma StartsInRange(network: U32, length: nat) returns (i: nat)
    requires length <= 32 && WhollyPrivate(network, length)
    ensures i < |PRIVATE_RANGES| && InRange(network, PRIVATE_RANGES[i])
  {
    assert PrivateAddress(network);
    i := PrivateIsInRange(network);
  }

  lemma PoolIsWhollyPrivate(pool: Pool)
    requires Validate(pool).Ok?
    ensures WhollyPrivate(pool.network, pool.poolLength)
  {
    forall ip: nat | pool.network <= ip < pool.network + Pow2(32 - pool.poolLength)
      ensures PrivateAddress(ip)
    {
      PoolAddressesArePrivate(pool, ip);
    }
  }

  lemma WhollyPrivateIsInPool(pool: Pool)
    requires pool.poolLength <= 32 && pool.network % Pow2(32 - pool.poolLength) == 0
    requires WhollyPrivate(pool.network, pool.poolLength)
    ensures PoolIsPrivate(pool)
  {
    var i := StartsInRange(pool.network, pool.poolLength);
    FitsItsRange(pool.network, pool.poolLength, i);
  }

  /** A pool is valid exactly when it is an aligned, wholly private block of segments that can hold two hosts. */
  lemma ValidExactly(pool: Pool)
    ensures Validate(pool).Ok? <==>
            && pool.poolLength <= pool.segmentLength <= 30
            && pool.network % Pow2(32 - pool.poolLength) == 0 && WhollyPrivate(pool.network, pool.poolLength)
  {
    if Validate(pool).Ok? {
      PoolIsWhollyPrivate(pool);
    } else if pool.poolLength <= pool.segmentLength <= 30 {
      if pool.network % Pow2(32 - pool.poolLength) == 0 && WhollyPrivate(pool.network, pool.poolLength) {
        WhollyPrivateIsInPool(pool);
      }
    }
  }

  /** What selects the segment is the first four bytes of the network id, most significant first. */
  lemma SelectedByLeadingBytes(network: NetworkId)
    ensures TlsRecords.BigEndian(Selector(network)) == network.bytes[..4]
  {
    TlsRecords.FromBigEndianUnique(network.bytes[..4]);
  }

  lemma SameOffset(i: nat, j: nat, unit: nat)
    requires unit > 0
    ensures i * unit == j * unit <==> i == j
  {
    if i < j { Scale(i + 1, j, unit); } else if j < i { Scale(j + 1, i, unit); }
  }

  /** Two networks have the same plan exactly when their selectors agree modulo the number of segments. */
  lemma SamePlanExactly(a: NetworkId, b: NetworkId, pool: Pool, n: nat)
    requires Validate(pool).Ok? && n == Pow2(pool.segmentLength - pool.poolLength)
    ensures PlanFor(a, pool) == PlanFor(b, pool) <==> Selector(a) % n == Selector(b) % n
  {
    PlanExists(a, pool);
    PlanExists(b, pool);
    SameOffset(Selector(a) % n, Selector(b) % n, Pow2(32 - pool.segmentLength));
  }

  /** No segment of a pool is left out: each is some network's. */
  lemma EverySegmentIsUsed(pool: Pool, i: nat) returns (network: NetworkId)
    requires Validate(pool).Ok? && i < Pow2(pool.segmentLength - pool.poolLength)
    ensures SegmentStart(network, pool) == pool.network + i * Pow2(32 - pool.segmentLength)
  {
    Pow2Monotone(pool.segmentLength - pool.poolLength, 32);
    Whole(32);
    network := Selecting(i);
    SmallRemainder(i, Pow2(pool.segmentLength - pool.poolLength));
  }

  lemma SmallRemainder(i: nat, n: nat)
    requires i < n
    ensures i % n == i
  {
  }

  lemma Selecting(selector: U32) returns (network: NetworkId)
    ensures Selector(network) == selector
  {
    var bytes := TlsRecords.BigEndian(selector) + seq(12, _ => 0);
    network := NetworkId(bytes);
    assert bytes[..4] == TlsRecords.BigEndian(selector);
    TlsRecords.BigEndianRoundTrip(selector);
  }
}

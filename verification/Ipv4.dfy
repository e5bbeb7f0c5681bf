/**
 * The IPv4 arithmetic behind managed DHCP (internal/dhcp/dhcp.go:1009-1102).
 * Addresses are 32-bit values; masks are shifts, and every sum the source
 * forms in uint32 goes through `Wrap32`.
 */
module Ipv4 {
  import opened Faults

  const SPACE: int := 0x1_0000_0000
  const POOL_START_OFFSET: int := 50

  type Address = a: int | 0 <= a < SPACE

  type Bits = n: int | 0 <= n <= 32

  function Pow2(n: nat): (p: nat)
    ensures p > 0
  {
    if n == 0 then 1 else 2 * Pow2(n - 1)
  }

  /** a >> h */
  function ShiftRight(a: nat, h: nat): (r: nat)
    ensures r <= a
  {
    if h == 0 then a else ShiftRight(a / 2, h - 1)
  }

  /** a << h, before it is cut to 32 bits */
  function ShiftLeft(a: nat, h: nat): (r: nat)
    ensures r >= a
  {
    if h == 0 then a else 2 * ShiftLeft(a, h - 1)
  }

  function Wrap32(value: int): Address {
    value % SPACE
  }

  datatype Prefix = Prefix(addr: Address, bits: Bits) {
    function HostBits(): nat {
      32 - bits
    }

    /** The prefix with its host bits cleared. */
    function Masked(): Prefix {
      BlockBounds(addr, HostBits());
      Prefix(ShiftLeft(ShiftRight(addr, HostBits()), HostBits()), bits)
    }

    predicate Contains(address: Address) {
      ShiftRight(address, HostBits()) == ShiftRight(addr, HostBits())
    }
  }

  datatype Range = Range(prefix: Prefix, server: Address, poolStart: Address, poolEnd: Address, broadcast: Address) {
    predicate InPool(address: Address) {
      poolStart <= address <= poolEnd
    }

    predicate InStaticRange(address: Address) {
      prefix.Contains(address) && address != server && address < poolStart
    }
  }

  /** `value | (1 << h - 1)`: the low h bits of value become ones. */
  function OrLowBits(value: Address, h: nat): nat {
    ShiftLeft(ShiftRight(value, h), h) + Pow2(h) - 1
  }

  /** The service range of a CIDR, or None where the source reports an error. */
  function ParseRange(value: Prefix): Option<Range> {
    var prefix := value.Masked();
    if prefix.bits < 8 || prefix.bits > 26 then None
    else
      var network := prefix.addr;
      var broadcast := Wrap32(OrLowBits(network, prefix.HostBits()));
      var range := Range(prefix, Wrap32(network + 1), Wrap32(network + POOL_START_OFFSET), Wrap32(broadcast - 1),
                         broadcast);
      if range.poolStart > range.poolEnd then None else Some(range)
  }

  /** A range as `ParseRange` produces them. */
  predicate IsRange(range: Range) {
    ParseRange(range.prefix) == Some(range)
  }

  predicate PrefixesOverlap(left: Prefix, right: Prefix) {
    left.Contains(right.addr) || right.Contains(left.addr)
  }

  /** Whether an address already on the host prevents serving the range. */
  predicate AddressConflicts(network: Range, onBridge: bool, existing: Prefix) {
    var subnet := existing.Masked();
    if !network.prefix.Contains(subnet.addr) && !subnet.Contains(network.prefix.addr) then false
    else if !onBridge || existing.bits != network.prefix.bits then true
    else if existing.addr == network.server then false
    else network.InPool(existing.addr) || !network.prefix.Contains(existing.addr)
  }

  // ---- shifts and aligned blocks

  lemma {:induction false} Pow2AtLeast(low: nat, high: nat)
    requires low <= high
    ensures Pow2(low) <= Pow2(high)
    decreases high
  {
    if low < high {
      Pow2AtLeast(low, high - 1);
    }
  }

  lemma {:induction false} SpaceIsPow2(n: nat)
    requires n <= 32
    ensures Pow2(32) == ShiftLeft(Pow2(n), 32 - n)
    ensures Pow2(32) == SPACE
  {
    assert Pow2(8) == 256 by {
      assert Pow2(4) == 2 * Pow2(3) == 4 * Pow2(2) == 16 by { assert Pow2(2) == 2 * Pow2(1) == 4; }
      assert Pow2(8) == 2 * Pow2(7) == 4 * Pow2(6) == 8 * Pow2(5) == 16 * Pow2(4);
    }
    assert Pow2(16) == 65536 by {
      assert Pow2(12) == 2 * Pow2(11) == 4 * Pow2(10) == 8 * Pow2(9) == 16 * Pow2(8);
      assert Pow2(16) == 2 * Pow2(15) == 4 * Pow2(14) == 8 * Pow2(13) == 16 * Pow2(12);
    }
    assert Pow2(24) == 16777216 by {
      assert Pow2(20) == 2 * Pow2(19) == 4 * Pow2(18) == 8 * Pow2(17) == 16 * Pow2(16);
      assert Pow2(24) == 2 * Pow2(23) == 4 * Pow2(22) == 8 * Pow2(21) == 16 * Pow2(20);
    }
    assert Pow2(32) == SPACE by {
      assert Pow2(28) == 2 * Pow2(27) == 4 * Pow2(26) == 8 * Pow2(25) == 16 * Pow2(24);
      assert Pow2(32) == 2 * Pow2(31) == 4 * Pow2(30) == 8 * Pow2(29) == 16 * Pow2(28);
    }
    ShiftedPower(n, 32 - n);
  }

  lemma {:induction false} ShiftedPower(n: nat, h: nat)
    ensures ShiftLeft(Pow2(n), h) == Pow2(n + h)
  {
    if h > 0 {
      ShiftedPower(n, h - 1);
    }
  }

  lemma {:induction false} NextBlock(q: nat, h: nat)
    ensures ShiftLeft(q + 1, h) == ShiftLeft(q, h) + Pow2(h)
  {
    if h > 0 {
      NextBlock(q, h - 1);
    }
  }

  lemma {:induction false} ShiftLeftMonotone(p: nat, q: nat, h: nat)
    requires p <= q
    ensures ShiftLeft(p, h) <= ShiftLeft(q, h)
  {
    if h > 0 {
      ShiftLeftMonotone(p, q, h - 1);
    }
  }

  lemma {:induction false} ShiftLeftTail(q: nat, h: nat)
    requires h > 0
    ensures ShiftLeft(q, h) == ShiftLeft(2 * q, h - 1)
  {
    if h > 1 {
      ShiftLeftTail(q, h - 1);
    }
  }

  /** The numbers with the same high bits are the block that starts at those bits. */
  lemma {:induction false} SameHighBits(a: nat, q: nat, h: nat)
    ensures ShiftRight(a, h) == q <==> ShiftLeft(q, h) <= a < ShiftLeft(q, h) + Pow2(h)
  {
    if h > 0 {
      SameHighBits(a / 2, q, h - 1);
    }
  }

  lemma BlockBounds(a: Address, h: nat)
    requires h <= 32
    ensures ShiftLeft(ShiftRight(a, h), h) <= a < ShiftLeft(ShiftRight(a, h), h) + Pow2(h) <= SPACE
  {
    var q := ShiftRight(a, h);
    SameHighBits(a, q, h);
    SpaceIsPow2(32 - h);
    NextBlock(q, h);
    if q + 1 > Pow2(32 - h) {
      ShiftLeftMonotone(Pow2(32 - h), q, h);
    } else {
      ShiftLeftMonotone(q + 1, Pow2(32 - h), h);
    }
  }

  lemma {:induction false} ShiftInTwoSteps(a: nat, h: nat, d: nat)
    ensures ShiftRight(ShiftRight(a, h), d) == ShiftRight(a, h + d)
  {
    if h > 0 {
      ShiftInTwoSteps(a / 2, h - 1, d);
    }
  }

  lemma MaskedIsMasked(p: Prefix)
    ensures p.Masked().Masked() == p.Masked()
    ensures p.Masked().Contains(p.addr)
  {
    var h := p.HostBits();
    BlockBounds(p.addr, h);
    SameHighBits(p.Masked().addr, ShiftRight(p.addr, h), h);
  }

  /** Containment in a masked prefix is membership of its block. */
  lemma ContainsIsInterval(p: Prefix, a: Address)
    requires p.Masked() == p
    ensures p.Contains(a) <==> p.addr <= a < p.addr + Pow2(p.HostBits())
  {
    SameHighBits(a, ShiftRight(p.addr, p.HostBits()), p.HostBits());
  }

  // ---- main results

  /** Every CIDR from /8 to /26 yields a range, laid out without wrap-around; no other does. */
  lemma RangeLayout(value: Prefix)
    ensures ParseRange(value).Some? <==> 8 <= value.bits <= 26
    ensures ParseRange(value).Some? ==>
              var r := ParseRange(value).value;
              && r.prefix == value.Masked() && r.prefix.Masked() == r.prefix
              && r.prefix.addr < r.server < r.poolStart <= r.poolEnd < r.broadcast
              && r.server == r.prefix.addr + 1
              && r.poolStart == r.prefix.addr + POOL_START_OFFSET
              && r.poolEnd == r.broadcast - 1
              && r.broadcast == r.prefix.addr + Pow2(value.HostBits()) - 1
              && r.poolEnd - r.poolStart + 1 == Pow2(value.HostBits()) - 51
  {
    if 8 <= value.bits <= 26 {
      BlockLayout(value);
      RangeOfBlock(value, value.Masked(), Pow2(value.HostBits()));
    }
  }

  lemma BlockLayout(value: Prefix)
    requires 8 <= value.bits <= 26
    ensures var prefix, size := value.Masked(), Pow2(value.HostBits());
            && size >= 64 && prefix.addr + size <= SPACE && prefix.Masked() == prefix
            && OrLowBits(prefix.addr, prefix.HostBits()) == prefix.addr + size - 1
  {
    MaskedIsMasked(value);
    BlockBounds(value.addr, value.HostBits());
    SmallestBlock(value.HostBits());
  }

  lemma RangeOfBlock(value: Prefix, prefix: Prefix, size: nat)
    requires 8 <= value.bits <= 26 && prefix == value.Masked()
    requires size >= 64 && prefix.addr + size <= SPACE
    requires OrLowBits(prefix.addr, prefix.HostBits()) == prefix.addr + size - 1
    ensures var broadcast := prefix.addr + size - 1;
            ParseRange(value) == Some(Range(prefix, prefix.addr + 1, prefix.addr + 50, broadcast - 1, broadcast))
  {
  }

  lemma SmallestBlock(h: nat)
    requires h >= 6
    ensures Pow2(h) >= 64
  {
  }

  lemma ParsedIsRange(value: Prefix)
    requires ParseRange(value).Some?
    ensures IsRange(ParseRange(value).value)
  {
    MaskedIsMasked(value);
  }

  /** Pool, static range, server and broadcast all lie in the prefix, and the leasable sets are apart. */
  lemma LeasableAddresses(r: Range, a: Address)
    requires IsRange(r)
    ensures && (r.InPool(a) || r.InStaticRange(a) ==> r.prefix.Contains(a) && a != r.server && a != r.broadcast)
            && !(r.InPool(a) && r.InStaticRange(a))
            && (r.InPool(a) ==> a != r.prefix.addr)
  {
    RangeLayout(r.prefix);
    ContainsIsInterval(r.prefix, a);
  }

  ghost predicate Meet(left: Prefix, right: Prefix) {
    exists a: Address :: left.Contains(a) && right.Contains(a)
  }

  /** The overlap test of the source is exact. */
  lemma OverlapIsMeeting(left: Prefix, right: Prefix)
    ensures PrefixesOverlap(left, right) <==> Meet(left, right)
  {
    if left.Contains(right.addr) {
      assert right.Contains(right.addr);
    }
    if right.Contains(left.addr) {
      assert left.Contains(left.addr);
    }
    if Meet(left, right) {
      var a: Address :| left.Contains(a) && right.Contains(a);
      if left.bits <= right.bits {
        CommonAddressNests(left, right, a);
      } else {
        CommonAddressNests(right, left, a);
      }
    }
  }

  lemma CommonAddressNests(outer: Prefix, inner: Prefix, a: Address)
    requires outer.bits <= inner.bits
    requires outer.Contains(a) && inner.Contains(a)
    ensures outer.Contains(inner.addr)
  {
    var d := inner.bits - outer.bits;
    ShiftInTwoSteps(a, inner.HostBits(), d);
    ShiftInTwoSteps(inner.addr, inner.HostBits(), d);
  }

  /** When nothing conflicts, an address the host already has is never handed to a guest. */
  lemma NoConflictKeepsPoolFree(r: Range, onBridge: bool, existing: Prefix)
    requires IsRange(r)
    ensures !AddressConflicts(r, onBridge, existing) ==> !r.InPool(existing.addr)
  {
    var subnet := existing.Masked();
    LeasableAddresses(r, existing.addr);
    RangeLayout(r.prefix);
    MaskedIsMasked(existing);
    if r.InPool(existing.addr) {
      assert Meet(r.prefix, subnet);
      OverlapIsMeeting(r.prefix, subnet);
    }
  }
}

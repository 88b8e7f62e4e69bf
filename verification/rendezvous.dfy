/** Subnet arithmetic: which addresses share a network, and which address of a
    peer this machine should dial. */
module Rendezvous {
  import opened Wrappers
  import opened Fleet

  /** All ones, shifted left once for every bit the prefix is short of 32. */
  function Mask(prefix: nat): bv32
    requires 1 <= prefix <= 32
    decreases 32 - prefix
  {
    if prefix == 32 then 0xFFFF_FFFF else Mask(prefix + 1) << 1
  }

  predicate Agree(a: bv32, b: bv32, mask: bv32) {
    a & mask == b & mask
  }

  predicate SameNetwork(a: bv32, b: bv32, prefix: nat) {
    1 <= prefix <= 32 && Agree(a, b, Mask(prefix))
  }

  predicate SharesNetwork(host: Address, prefix: nat, other: Address) {
    host.V4? && other.V4? && SameNetwork(host.bits, other.bits, prefix)
  }

  predicate OnLocalSubnet(target: Address, local: seq<NodeAddress>) {
    target.V4? && exists a | a in local :: a.addr.V4? && SameNetwork(a.addr.bits, target.bits, a.prefix)
  }

  function BestReachable(candidates: seq<NodeAddress>, local: seq<NodeAddress>): Option<NodeAddress> {
    var near := Best(candidates, (a: NodeAddress) => a.link.UsableForCluster() && OnLocalSubnet(a.addr, local));
    if near.Some? then near else Best(candidates, (a: NodeAddress) => a.link.UsableForCluster())
  }

  predicate Within(wide: bv32, narrow: bv32) {
    wide & narrow == narrow
  }

  /** Ones, then zeros. */
  predicate HighBits(mask: bv32) {
    !mask & (!mask + 1) == 0
  }

  lemma ShiftedHighBits(mask: bv32)
    requires HighBits(mask)
    ensures HighBits(mask << 1) && Within(mask, mask << 1)
  {
  }

  lemma WithinWithin(wide: bv32, middle: bv32, narrow: bv32)
    requires Within(wide, middle) && Within(middle, narrow)
    ensures Within(wide, narrow)
  {
  }

  lemma {:induction false} MaskIsHighBits(p: nat)
    requires 1 <= p <= 32
    ensures HighBits(Mask(p))
    decreases 32 - p
  {
    if p < 32 {
      MaskIsHighBits(p + 1);
      ShiftedHighBits(Mask(p + 1));
    }
  }

  /** Every shorter prefix's mask is contained in a longer one's. */
  lemma {:induction false} MaskNests(p: nat, q: nat)
    requires 1 <= q <= p <= 32
    ensures Within(Mask(p), Mask(q))
    decreases p - q
  {
    if q < p {
      MaskNests(p, q + 1);
      MaskIsHighBits(q + 1);
      ShiftedHighBits(Mask(q + 1));
      WithinWithin(Mask(p), Mask(q + 1), Mask(q));
    }
  }

  lemma NarrowerMask(a: bv32, b: bv32, wide: bv32, narrow: bv32)
    requires Within(wide, narrow) && Agree(a, b, wide)
    ensures Agree(a, b, narrow) && Agree(b, a, narrow)
  {
  }

  /** Sharing a /p means sharing every shorter prefix, seen from either side. */
  lemma ShorterPrefixShared(a: bv32, b: bv32, p: nat, q: nat)
    requires SameNetwork(a, b, p) && 1 <= q <= p
    ensures SameNetwork(a, b, q) && SameNetwork(b, a, q)
  {
    MaskNests(p, q);
    NarrowerMask(a, b, Mask(p), Mask(q));
  }

  /** No bit of `x` above the host part. */
  predicate HostBitsOnly(x: bv32, mask: bv32) {
    x <= !mask
  }

  lemma XorDistributes(a: bv32, b: bv32, m: bv32)
    ensures (a ^ b) & m == (a & m) ^ (b & m)
  {
  }

  lemma XorZero(x: bv32, y: bv32)
    ensures x ^ y == 0 <==> x == y
  {
  }

  lemma HighBitsKillHostBits(x: bv32, mask: bv32)
    requires HighBits(mask)
    ensures x & mask == 0 <==> HostBitsOnly(x, mask)
  {
  }

  lemma AgreeIsNoDifference(a: bv32, b: bv32, m: bv32)
    ensures Agree(a, b, m) <==> (a ^ b) & m == 0
  {
    XorDistributes(a, b, m);
    XorZero(a & m, b & m);
  }

  /** Two addresses share a /p exactly when they differ in host bits alone. */
  lemma SameNetworkIsHostBits(a: bv32, b: bv32, p: nat)
    requires 1 <= p <= 32
    ensures SameNetwork(a, b, p) <==> HostBitsOnly(a ^ b, Mask(p))
  {
    AgreeIsNoDifference(a, b, Mask(p));
    MaskIsHighBits(p);
    HighBitsKillHostBits(a ^ b, Mask(p));
  }

  // ---- Two prefixes -----------------------------------------------------------

  lemma ShortestMask()
    ensures Mask(1) == 0x8000_0000
  {
    assert Mask(31) == 0xFFFF_FFFE && Mask(30) == 0xFFFF_FFFC && Mask(29) == 0xFFFF_FFF8;
    assert Mask(28) == 0xFFFF_FFF0 && Mask(27) == 0xFFFF_FFE0 && Mask(26) == 0xFFFF_FFC0;
    assert Mask(25) == 0xFFFF_FF80 && Mask(24) == 0xFFFF_FF00 && Mask(23) == 0xFFFF_FE00;
    assert Mask(22) == 0xFFFF_FC00 && Mask(21) == 0xFFFF_F800 && Mask(20) == 0xFFFF_F000;
    assert Mask(19) == 0xFFFF_E000 && Mask(18) == 0xFFFF_C000 && Mask(17) == 0xFFFF_8000;
    assert Mask(16) == 0xFFFF_0000 && Mask(15) == 0xFFFE_0000 && Mask(14) == 0xFFFC_0000;
    assert Mask(13) == 0xFFF8_0000 && Mask(12) == 0xFFF0_0000 && Mask(11) == 0xFFE0_0000;
    assert Mask(10) == 0xFFC0_0000 && Mask(9) == 0xFF80_0000 && Mask(8) == 0xFF00_0000;
    assert Mask(7) == 0xFE00_0000 && Mask(6) == 0xFC00_0000 && Mask(5) == 0xF800_0000;
    assert Mask(4) == 0xF000_0000 && Mask(3) == 0xE000_0000 && Mask(2) == 0xC000_0000;
  }

  lemma WithinSome(wide: bv32, narrow: bv32)
    requires Within(wide, narrow) && narrow != 0
    ensures wide != 0
  {
  }

  lemma MaskIsNotEmpty(p: nat)
    requires 1 <= p <= 32
    ensures Mask(p) != 0
  {
    ShortestMask();
    MaskNests(p, 1);
    WithinSome(Mask(p), Mask(1));
  }

  predicate Overlap(x: bv32, mask: bv32) {
    x & mask != 0
  }

  lemma OverlapWider(x: bv32, wide: bv32, narrow: bv32)
    requires Within(wide, narrow) && Overlap(x, narrow)
    ensures Overlap(x, wide)
  {
  }

  lemma ZeroAgrees(x: bv32, mask: bv32)
    ensures Agree(0, x, mask) <==> !Overlap(x, mask)
  {
  }

  lemma NextBit(p: nat) returns (x: bv32)
    requires 1 <= p < 32
    ensures !Overlap(x, Mask(p)) && Overlap(x, Mask(p + 1))
  {
    var mask := Mask(p + 1);
    MaskIsNotEmpty(p + 1);
    x := LostBit(mask);
  }

  /** The lowest one of a mask is not in it shifted. */
  lemma LostBit(mask: bv32) returns (x: bv32)
    requires mask != 0
    ensures !Overlap(x, mask << 1) && Overlap(x, mask)
  {
    x := !(mask << 1);
  }

  lemma LongerOverlaps(x: bv32, p: nat, q: nat)
    requires 1 <= p < q <= 32 && Overlap(x, Mask(p + 1))
    ensures Overlap(x, Mask(q))
  {
    MaskNests(q, p + 1);
    OverlapWider(x, Mask(q), Mask(p + 1));
  }

  /** Some two addresses that share a /p share no longer prefix. */
  lemma LongerPrefixSeparates(p: nat, q: nat) returns (x: bv32)
    requires 1 <= p < q <= 32
    ensures SameNetwork(0, x, p) && !SameNetwork(0, x, q)
  {
    x := NextBit(p);
    LongerOverlaps(x, p, q);
    ZeroAgrees(x, Mask(p));
    ZeroAgrees(x, Mask(q));
  }

  /** Whoever shares a /p shares a /q exactly when /q is a prefix no longer than /p. */
  lemma PrefixesAgreeExactly(p: nat, q: nat)
    requires 1 <= p <= 32
    ensures (forall a, b :: SameNetwork(a, b, p) ==> SameNetwork(a, b, q)) <==> 1 <= q <= p
  {
    if 1 <= q <= p {
      forall a, b | SameNetwork(a, b, p)
        ensures SameNetwork(a, b, q)
      {
        ShorterPrefixShared(a, b, p, q);
      }
    } else if p < q <= 32 {
      var x := LongerPrefixSeparates(p, q);
    } else {
      assert SameNetwork(0, 0, p) && !SameNetwork(0, 0, q);
    }
  }

  /** Two addresses that differ, if at all, in the host bits of a known prefix. */
  predicate DifferInHost(a: bv32, b: bv32, prefix: nat) {
    1 <= prefix <= 32 && HostBitsOnly(a ^ b, Mask(prefix))
  }

  lemma SameExactly(a: bv32, b: bv32, prefix: nat)
    ensures SameNetwork(a, b, prefix) <==> DifferInHost(a, b, prefix)
  {
    if 1 <= prefix <= 32 {
      SameNetworkIsHostBits(a, b, prefix);
    }
  }

  /** A target is local exactly when some interface of a known prefix differs from it in
      host bits only. */
  lemma LocalExactly(target: Address, local: seq<NodeAddress>)
    ensures OnLocalSubnet(target, local) <==>
      target.V4? && exists a | a in local :: a.addr.V4? && DifferInHost(a.addr.bits, target.bits, a.prefix)
  {
    if target.V4? {
      forall a | a in local && a.addr.V4?
        ensures SameNetwork(a.addr.bits, target.bits, a.prefix) <==> DifferInHost(a.addr.bits, target.bits, a.prefix)
      {
        SameExactly(a.addr.bits, target.bits, a.prefix);
      }
    }
  }

  // ---- Whom to dial -----------------------------------------------------------

  /** The address dialled is usable; if any usable one is on a local subnet so is
      this one; and none that qualifies as it does outranks it. */
  lemma BestReachableIsBest(candidates: seq<NodeAddress>, local: seq<NodeAddress>)
    ensures BestReachable(candidates, local).None? <==> forall a | a in candidates :: !a.link.UsableForCluster()
    ensures BestReachable(candidates, local).Some? ==>
              var b := BestReachable(candidates, local).value;
              && b in candidates && b.link.UsableForCluster()
              && ((exists a | a in candidates :: a.link.UsableForCluster() && OnLocalSubnet(a.addr, local)) ==>
                    OnLocalSubnet(b.addr, local))
              && forall a | a in candidates && a.link.UsableForCluster()
                   && OnLocalSubnet(a.addr, local) == OnLocalSubnet(b.addr, local) :: KeyLe(a, b)
  {
    BestIsBest(candidates, (a: NodeAddress) => a.link.UsableForCluster() && OnLocalSubnet(a.addr, local));
    BestIsBest(candidates, (a: NodeAddress) => a.link.UsableForCluster());
  }
}

/** The parts of a node descriptor the planner reads. */
module Fleet {
  import opened Wrappers

  /** A node's identity: opaque, and ordered, which is all the planner uses. */
  type NodeId = nat

  datatype LinkClass = Roce | InfiniBand | Ethernet | Wireless | Virtual | Loopback | Unverified {
    function Rank(): nat {
      match this
      case InfiniBand => 5
      case Roce => 4
      case Ethernet => 3
      case Wireless => 2
      case Unverified => 1
      case Virtual | Loopback => 0
    }

    predicate UsableForCluster() {
      InfiniBand? || Roce? || Ethernet? || Unverified?
    }

    predicate Warns() {
      !(InfiniBand? || Roce? || Unverified?)
    }
  }

  /** What an address string parses to. Only an IPv4 address takes part in subnet
      arithmetic; any other text either dials as a socket address or does not. */
  datatype Address = V4(bits: bv32) | Text(text: string, dials: bool)

  datatype NodeAddress = NodeAddress(
    iface: string,
    addr: Address,
    prefix: nat,
    link: LinkClass,
    speed: Option<nat>)

  datatype NodeDescriptor = NodeDescriptor(
    id: NodeId,
    name: string,
    isLocal: bool,
    paired: bool,
    canLaunch: bool,
    reason: string,
    addresses: seq<NodeAddress>)

  /** The (class rank, speed) key every "best address" choice maximises. */
  predicate KeyLe(a: NodeAddress, b: NodeAddress) {
    || a.link.Rank() < b.link.Rank()
    || (a.link.Rank() == b.link.Rank() && SpeedOf(a) <= SpeedOf(b))
  }

  function SpeedOf(a: NodeAddress): nat {
    if a.speed.Some? then a.speed.value else 0
  }

  /** The last of the best-ranked addresses that satisfy `ok`. */
  function Best(addresses: seq<NodeAddress>, ok: NodeAddress -> bool): Option<NodeAddress> {
    if addresses == [] then None
    else
      var before := Best(addresses[..|addresses| - 1], ok);
      var x := addresses[|addresses| - 1];
      if ok(x) && (before.None? || KeyLe(before.value, x)) then Some(x) else before
  }

  /** `Best` finds something whenever something qualifies, what it finds qualifies,
      and nothing that qualifies outranks it. */
  lemma {:induction false} BestIsBest(addresses: seq<NodeAddress>, ok: NodeAddress -> bool)
    ensures Best(addresses, ok).None? <==> forall x | x in addresses :: !ok(x)
    ensures Best(addresses, ok).Some? ==>
              var b := Best(addresses, ok).value;
              b in addresses && ok(b) && forall x | x in addresses && ok(x) :: KeyLe(x, b)
  {
    if addresses != [] {
      var init, last := addresses[..|addresses| - 1], addresses[|addresses| - 1];
      assert addresses == init + [last];
      BestIsBest(init, ok);
    }
  }

  /** Of several that rank alike it is the last listed. */
  lemma {:induction false} BestIsLast(addresses: seq<NodeAddress>, ok: NodeAddress -> bool) returns (i: nat)
    requires Best(addresses, ok).Some?
    ensures i < |addresses| && addresses[i] == Best(addresses, ok).value && ok(addresses[i])
    ensures forall j | i < j < |addresses| && ok(addresses[j]) :: !KeyLe(addresses[i], addresses[j])
  {
    var n := |addresses| - 1;
    var before, x := Best(addresses[..n], ok), addresses[n];
    if ok(x) && (before.None? || KeyLe(before.value, x)) {
      i := n;
    } else {
      i := BestIsLast(addresses[..n], ok);
    }
  }

  function Preferred(n: NodeDescriptor): Option<NodeAddress> {
    Best(n.addresses, (a: NodeAddress) => a.link.UsableForCluster())
  }
}

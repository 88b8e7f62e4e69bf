/** Which links a plan runs over, told by their names: InfiniBand before RoCE before Ethernet
    before one not yet verified, and never any other. */
module PlannerLinks {
  import opened Wrappers
  import opened Fleet
  import opened Planner
  import opened Rendezvous

  /** A link a collective can run over. */
  predicate Carries(link: LinkClass) {
    link.InfiniBand? || link.Roce? || link.Ethernet? || link.Unverified?
  }

  /** Of the addresses that qualify, one of the best class there is. */
  ghost predicate BestClass(qualifies: NodeAddress -> bool, addresses: seq<NodeAddress>, link: LinkClass) {
    if HasClass(qualifies, addresses, InfiniBand) then link == InfiniBand
    else if HasClass(qualifies, addresses, Roce) then link == Roce
    else if HasClass(qualifies, addresses, Ethernet) then link == Ethernet
    else link == Unverified
  }

  ghost predicate HasClass(qualifies: NodeAddress -> bool, addresses: seq<NodeAddress>, link: LinkClass) {
    exists a | a in addresses :: qualifies(a) && a.link == link
  }

  /** No other of its class that qualifies is faster, an unknown speed counting as none. */
  ghost predicate Fastest(qualifies: NodeAddress -> bool, addresses: seq<NodeAddress>, best: NodeAddress) {
    forall a | a in addresses && qualifies(a) && a.link == best.link && a.speed.Some? && a.speed.value > 0 ::
      best.speed.Some? && a.speed.value <= best.speed.value
  }

  lemma KeyByName(a: NodeAddress, b: NodeAddress)
    requires Carries(a.link) && Carries(b.link) && KeyLe(a, b)
    ensures a.link.InfiniBand? ==> b.link.InfiniBand?
    ensures a.link.Roce? ==> b.link.InfiniBand? || b.link.Roce?
    ensures a.link.Ethernet? ==> !b.link.Unverified?
    ensures a.link == b.link && a.speed.Some? && a.speed.value > 0 ==> b.speed.Some? && a.speed.value <= b.speed.value
  {
  }

  /** What maximising the key comes to, class by class. */
  lemma MaximalByName(qualifies: NodeAddress -> bool, addresses: seq<NodeAddress>, best: NodeAddress)
    requires best in addresses && qualifies(best)
    requires forall a | a in addresses && qualifies(a) :: Carries(a.link) && KeyLe(a, best)
    ensures BestClass(qualifies, addresses, best.link) && Fastest(qualifies, addresses, best)
  {
    forall a | a in addresses && qualifies(a)
      ensures a.link.InfiniBand? ==> best.link.InfiniBand?
      ensures a.link.Roce? ==> best.link.InfiniBand? || best.link.Roce?
      ensures a.link.Ethernet? ==> !best.link.Unverified?
      ensures a.link == best.link && a.speed.Some? && a.speed.value > 0 ==> best.speed.Some? && a.speed.value <= best.speed.value
    {
      KeyByName(a, best);
    }
    assert HasClass(qualifies, addresses, best.link);
  }

  // ---- The meeting point ------------------------------------------------------

  /** An address of the worker that carries, on the network of the head's. */
  ghost predicate InReach(c: NodeAddress, w: NodeDescriptor) {
    exists a | a in w.addresses ::
      Carries(a.link) && c.addr.V4? && a.addr.V4? && DifferInHost(c.addr.bits, a.addr.bits, c.prefix)
  }

  /** An address that carries, of a known prefix, with every other machine in reach. */
  ghost predicate Common(selected: seq<NodeDescriptor>, head: NodeId, c: NodeAddress) {
    Carries(c.link) && c.prefix > 0 && forall w | w in selected && w.id != head :: InReach(c, w)
  }

  lemma MeetsByName(c: NodeAddress, w: NodeDescriptor)
    ensures Meets(c, w) <==> InReach(c, w)
  {
    forall a | a in w.addresses && c.addr.V4? && a.addr.V4?
      ensures SharesNetwork(c.addr, c.prefix, a.addr) <==> DifferInHost(c.addr.bits, a.addr.bits, c.prefix)
    {
      SameExactly(c.addr.bits, a.addr.bits, c.prefix);
    }
  }

  lemma SharedByName(selected: seq<NodeDescriptor>, h: NodeDescriptor, c: NodeAddress)
    ensures Shared(c, Workers(selected, h)) <==> Common(selected, h.id, c)
  {
    forall w | w in selected
      ensures Meets(c, w) <==> InReach(c, w)
    {
      MeetsByName(c, w);
    }
  }

  /** None of its class and speed that qualifies is listed after it. */
  ghost predicate LastListed(qualifies: NodeAddress -> bool, addresses: seq<NodeAddress>, best: NodeAddress) {
    exists i | 0 <= i < |addresses| ::
      && addresses[i] == best
      && forall j | i < j < |addresses| && qualifies(addresses[j]) ::
           addresses[j].link != best.link || SpeedOf(addresses[j]) != SpeedOf(best)
  }

  /** The best of the addresses that qualify, by name. */
  ghost predicate BestByName(qualifies: NodeAddress -> bool, addresses: seq<NodeAddress>, best: NodeAddress) {
    && best in addresses && qualifies(best)
    && BestClass(qualifies, addresses, best.link) && Fastest(qualifies, addresses, best)
    && LastListed(qualifies, addresses, best)
  }

  lemma BestIsByName(qualifies: NodeAddress -> bool, addresses: seq<NodeAddress>, ok: NodeAddress -> bool)
    requires forall a | a in addresses :: (ok(a) <==> qualifies(a)) && (ok(a) ==> Carries(a.link))
    ensures Best(addresses, ok).None? <==> forall a | a in addresses :: !qualifies(a)
    ensures Best(addresses, ok).Some? ==> BestByName(qualifies, addresses, Best(addresses, ok).value)
  {
    BestIsBest(addresses, ok);
    if Best(addresses, ok).Some? {
      var best := Best(addresses, ok).value;
      MaximalByName(qualifies, addresses, best);
      var i := BestIsLast(addresses, ok);
      forall j | i < j < |addresses| && qualifies(addresses[j])
        ensures addresses[j].link != best.link || SpeedOf(addresses[j]) != SpeedOf(best)
      {
        assert addresses[j] in addresses && !KeyLe(addresses[i], addresses[j]);
      }
    }
  }

  /** Every rank is sent to one address of the head: the best of those that all other machines
      are in reach of, and, when there is none, the best that carries at all. */
  lemma MeetingPointByName(
    recipe: string, hash: string, required: nat, selected: seq<NodeDescriptor>, head: NodeId, settings: Settings,
    epoch: string, plan: ClusterPlan)
    returns (h: NodeDescriptor, master: NodeAddress)
    requires PlanOf(recipe, hash, required, selected, head, settings, epoch) == Ok(plan)
    ensures h in selected && h.id == head
    ensures forall i | 0 <= i < |plan.ranks| :: plan.ranks[i].masterAddr == master.addr
    ensures var common := (c: NodeAddress) => Common(selected, head, c);
      if exists c | c in h.addresses :: Common(selected, head, c) then BestByName(common, h.addresses, master)
      else BestByName((c: NodeAddress) => Carries(c.link), h.addresses, master)
  {
    FindNodeFinds(selected, head);
    h := FindNode(selected, head).value;
    var hn := h;
    master := RendezvousAddress(h, Workers(selected, h)).value;
    forall c | c in h.addresses
      ensures Shared(c, Workers(selected, hn)) <==> Common(selected, head, c)
    {
      SharedByName(selected, hn, c);
    }
    BestIsByName((c: NodeAddress) => Common(selected, head, c), h.addresses, (a: NodeAddress) => Shared(a, Workers(selected, hn)));
    BestIsByName((c: NodeAddress) => Carries(c.link), h.addresses, (a: NodeAddress) => a.link.UsableForCluster());
  }

  // ---- Whom to dial -----------------------------------------------------------

  /** An address on one of this machine's own networks. */
  ghost predicate Near(local: seq<NodeAddress>, c: NodeAddress) {
    && Carries(c.link) && c.addr.V4?
    && exists a | a in local :: a.addr.V4? && DifferInHost(a.addr.bits, c.addr.bits, a.prefix)
  }

  /** The address dialled is the best that is near, and, when none is, the best that carries. */
  lemma DialledByName(candidates: seq<NodeAddress>, local: seq<NodeAddress>)
    ensures BestReachable(candidates, local).None? <==> forall a | a in candidates :: !Carries(a.link)
    ensures BestReachable(candidates, local).Some? ==>
      if exists c | c in candidates :: Near(local, c) then
        BestByName((c: NodeAddress) => Near(local, c), candidates, BestReachable(candidates, local).value)
      else BestByName((c: NodeAddress) => Carries(c.link), candidates, BestReachable(candidates, local).value)
  {
    forall c | c in candidates
      ensures c.link.UsableForCluster() && OnLocalSubnet(c.addr, local) <==> Near(local, c)
    {
      LocalExactly(c.addr, local);
    }
    BestIsByName((c: NodeAddress) => Near(local, c), candidates,
                 (a: NodeAddress) => a.link.UsableForCluster() && OnLocalSubnet(a.addr, local));
    BestIsByName((c: NodeAddress) => Carries(c.link), candidates, (a: NodeAddress) => a.link.UsableForCluster());
  }

  // ---- The plan's own link ----------------------------------------------------

  ghost predicate Has(n: NodeDescriptor, link: LinkClass) {
    exists a | a in n.addresses :: a.link == link
  }

  /** The class a machine would be reached on: its best, and none when nothing carries. */
  ghost predicate Prefers(n: NodeDescriptor, link: LinkClass) {
    match link
    case InfiniBand => Has(n, InfiniBand)
    case Roce => Has(n, Roce) && !Has(n, InfiniBand)
    case Ethernet => Has(n, Ethernet) && !Has(n, Roce) && !Has(n, InfiniBand)
    case Unverified => Has(n, Unverified) && !Has(n, Ethernet) && !Has(n, Roce) && !Has(n, InfiniBand)
    case _ => false
  }

  lemma PreferredByName(n: NodeDescriptor, link: LinkClass)
    ensures Preferred(n).Some? && Preferred(n).value.link == link <==> Prefers(n, link)
  {
    var carries := (c: NodeAddress) => Carries(c.link);
    BestIsByName(carries, n.addresses, (a: NodeAddress) => a.link.UsableForCluster());
    forall l: LinkClass | Carries(l)
      ensures HasClass(carries, n.addresses, l) <==> Has(n, l)
    {
    }
  }

  ghost predicate SomePrefers(selected: seq<NodeDescriptor>, link: LinkClass) {
    exists n | n in selected :: Prefers(n, link)
  }

  /** The plan is rated by the worst of the links its machines would be reached on, an
      unverified one being the worst, and warns exactly of Ethernet. */
  lemma LinkByName(
    recipe: string, hash: string, required: nat, selected: seq<NodeDescriptor>, head: NodeId, settings: Settings,
    epoch: string, plan: ClusterPlan)
    requires PlanOf(recipe, hash, required, selected, head, settings, epoch) == Ok(plan)
    ensures plan.link == if SomePrefers(selected, Unverified) then Unverified
                         else if SomePrefers(selected, Ethernet) then Ethernet
                         else if SomePrefers(selected, Roce) then Roce
                         else InfiniBand
    ensures plan.linkWarning <==> plan.link.Ethernet?
  {
    FindNodeFinds(selected, head);
    var h := FindNode(selected, head).value;
    BestIsBest(h.addresses, (a: NodeAddress) => Shared(a, Workers(selected, h)));
    BestIsBest(h.addresses, (a: NodeAddress) => a.link.UsableForCluster());
    WorstIsWorst(selected);
    WorstByName(selected);
  }

  lemma WorstByName(selected: seq<NodeDescriptor>)
    requires Worst(selected).Some?
    ensures Worst(selected).value == if SomePrefers(selected, Unverified) then Unverified
                                     else if SomePrefers(selected, Ethernet) then Ethernet
                                     else if SomePrefers(selected, Roce) then Roce
                                     else InfiniBand
  {
    WorstIsWorst(selected);
    var worst := Worst(selected).value;
    forall n, l: LinkClass | n in selected
      ensures Preferred(n).Some? && Preferred(n).value.link == l <==> Prefers(n, l)
    {
      PreferredByName(n, l);
    }
    var m :| m in selected && Preferred(m).Some? && Preferred(m).value.link == worst;
    assert Prefers(m, worst) && SomePrefers(selected, worst);
    forall n, l: LinkClass | n in selected && Prefers(n, l)
      ensures worst.Rank() <= l.Rank()
    {
      assert Preferred(n).value.link == l;
    }
  }

  // ---- What every rank is handed ----------------------------------------------

  /** Every rank is handed the recipe, its hash, the settings and the one port, with the plan
      under its epoch. */
  lemma PlanCarries(
    recipe: string, hash: string, required: nat, selected: seq<NodeDescriptor>, head: NodeId, settings: Settings,
    epoch: string, plan: ClusterPlan)
    requires PlanOf(recipe, hash, required, selected, head, settings, epoch) == Ok(plan)
    ensures plan.epoch == epoch && plan.recipe == recipe
    ensures forall i | 0 <= i < |plan.ranks| ::
      var r := plan.ranks[i];
      r.recipe == recipe && r.recipeHash == hash && r.settings == settings && r.masterPort == 29500
  {
  }

  /** A machine that may not be launched on, and what is said of it. */
  ghost predicate Complaint(selected: seq<NodeDescriptor>, i: nat, e: PlanError)
    requires i < |selected|
  {
    var n := selected[i];
    if exists j | 0 <= j < i :: selected[j].id == n.id then e == DuplicateNode
    else if !n.paired && !n.isLocal then e == NotPaired(n.name)
    else !n.canLaunch && e == NotLaunchable(n.name, n.reason)
  }

  /** Why a plan is refused: the count first, then the first machine there is a complaint
      about, then a head that is not among them, then one nothing can be reached on. */
  lemma RefusedByName(
    recipe: string, hash: string, required: nat, selected: seq<NodeDescriptor>, head: NodeId, settings: Settings,
    epoch: string, e: PlanError)
    requires PlanOf(recipe, hash, required, selected, head, settings, epoch) == Err(e)
    ensures if |selected| % 0x1_0000_0000 != required then e == NodeCount(recipe, required, |selected|)
            else if !NoComplaint(selected, 0, |selected|) then
              exists i: nat :: i < |selected| && Complaint(selected, i, e) && NoComplaint(selected, 0, i)
            else if forall n | n in selected :: n.id != head then e == HeadNotSelected
            else exists h | h in selected :: h.id == head && e == NoUsableLink(h.name) && forall a | a in h.addresses :: !Carries(a.link)
  {
    FindNodeFinds(selected, head);
    var i := FirstComplaint(selected, 0);
    assert i < |selected| ==> Complaint(selected, i, FirstFault(selected, 0).value) && NoComplaint(selected, 0, i);
    if FindNode(selected, head).Some? {
      var h := FindNode(selected, head).value;
      BestIsBest(h.addresses, (a: NodeAddress) => Shared(a, Workers(selected, h)));
      BestIsBest(h.addresses, (a: NodeAddress) => a.link.UsableForCluster());
    }
  }

  ghost predicate NoComplaint(selected: seq<NodeDescriptor>, from: nat, to: nat) {
    to <= |selected| && forall j, c | from <= j < to :: !Complaint(selected, j, c)
  }

  lemma {:induction false} FirstComplaint(selected: seq<NodeDescriptor>, from: nat) returns (i: nat)
    requires from <= |selected|
    ensures from <= i <= |selected| && NoComplaint(selected, from, i)
    ensures FirstFault(selected, from).Some? <==> i < |selected|
    ensures i < |selected| ==> Complaint(selected, i, FirstFault(selected, from).value)
    decreases |selected| - from
  {
    i := from;
    if from < |selected| && Fine(selected, from) {
      i := FirstComplaint(selected, from + 1);
      assert forall c :: !Complaint(selected, from, c);
    }
  }

  ghost predicate Fine(selected: seq<NodeDescriptor>, i: nat)
    requires i < |selected|
  {
    && (forall j | 0 <= j < i :: selected[j].id != selected[i].id)
    && (selected[i].paired || selected[i].isLocal) && selected[i].canLaunch
  }
}

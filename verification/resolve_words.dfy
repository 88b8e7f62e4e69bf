/** What a resolved launch is made of, field by field, and why one is refused. */
module ResolveWords {
  import opened Wrappers
  import opened Fleet
  import opened Planner
  import opened PlannerLinks
  import opened Resolve
  import Rendezvous

  /** The fleet's first entry of that id. */
  ghost predicate Entry(all: seq<NodeDescriptor>, id: NodeId, n: NodeDescriptor) {
    exists i | 0 <= i < |all| :: all[i] == n && n.id == id && forall j | 0 <= j < i :: all[j].id != id
  }

  lemma {:induction false} FindNodeIsEntry(all: seq<NodeDescriptor>, id: NodeId)
    ensures FindNode(all, id).Some? ==> Entry(all, id, FindNode(all, id).value)
  {
    if all != [] && all[0].id != id {
      FindNodeIsEntry(all[1..], id);
      if FindNode(all, id).Some? {
        var n := FindNode(all, id).value;
        var i :| 0 <= i < |all[1..]| && all[1..][i] == n && n.id == id && forall j | 0 <= j < i :: all[1..][j].id != id;
        forall j | 0 <= j < i + 1
          ensures all[j].id != id
        {
          assert j > 0 ==> all[j] == all[1..][j - 1];
        }
        assert all[i + 1] == n;
      }
    }
  }

  /** The addresses of this machine: of the first entry that is local. */
  ghost predicate OwnAddresses(all: seq<NodeDescriptor>, local: seq<NodeAddress>) {
    if forall n | n in all :: !n.isLocal then local == []
    else exists i :: OwnAt(all, local, i)
  }

  ghost predicate OwnAt(all: seq<NodeDescriptor>, local: seq<NodeAddress>, i: nat) {
    i < |all| && all[i].isLocal && all[i].addresses == local && forall j | 0 <= j < i :: !all[j].isLocal
  }

  lemma {:induction false} LocalAddressesAreOwn(all: seq<NodeDescriptor>)
    ensures OwnAddresses(all, LocalAddresses(all))
  {
    if all != [] && !all[0].isLocal {
      var rest := all[1..];
      LocalAddressesAreOwn(rest);
      assert forall j | 0 < j < |all| :: all[j] == rest[j - 1];
      assert forall n :: n in all <==> n == all[0] || n in rest;
      if i: nat :| OwnAt(rest, LocalAddresses(rest), i) {
        assert OwnAt(all, LocalAddresses(all), i + 1);
      }
    } else if all != [] {
      assert OwnAt(all, LocalAddresses(all), 0);
    }
  }

  /** How a machine is dialled: not at all when it is this one, and otherwise on the peers' port
      at the best of its addresses near this machine, or the best there is. */
  ghost predicate DialledAt(site: Site, local: seq<NodeAddress>, n: NodeDescriptor, addr: Option<SocketAddr>) {
    match addr
    case None => n.isLocal
    case Some(a) =>
      && !n.isLocal && a.port == site.peerPort
      && exists best | best in n.addresses ::
           && best.addr == a.host
           && if exists c | c in n.addresses :: Near(local, c) then BestByName((c: NodeAddress) => Near(local, c), n.addresses, best)
              else BestByName((c: NodeAddress) => Carries(c.link), n.addresses, best)
  }

  lemma AddressByName(site: Site, n: NodeDescriptor)
    ensures AddressOf(site, n).Ok? ==> DialledAt(site, LocalAddresses(site.nodes), n, AddressOf(site, n).value)
    ensures AddressOf(site, n).Err? ==>
      && !n.isLocal
      && (AddressOf(site, n).error == NoLink(n.name) <==> forall a | a in n.addresses :: !Carries(a.link))
      && (AddressOf(site, n).error == NoLink(n.name) || AddressOf(site, n).error == Undialable(n.name))
  {
    DialledByName(n.addresses, LocalAddresses(site.nodes));
  }

  /** Each target is its rank's own entry in the fleet, by its name, dialled as it should be. */
  lemma TargetInFull(site: Site, sel: Selection, epoch: string, p: Pending, i: nat) returns (n: NodeDescriptor)
    requires ResolveOf(site, sel, epoch) == Ok(p) && i < |p.targets|
    ensures n in site.nodes && n.id == p.targets[i].assignment.node && p.targets[i].name == n.name
    ensures OwnAddresses(site.nodes, LocalAddresses(site.nodes))
    ensures DialledAt(site, LocalAddresses(site.nodes), n, p.targets[i].addr)
  {
    var selected := Lookup(sel.nodes, site.nodes);
    var ranks := PlanOf(sel.recipe, site.hash.value, if |sel.nodes| < U32_WRAP then |sel.nodes| else U32_WRAP - 1, selected,
                        sel.head, sel.settings, epoch).value.ranks;
    TargetPerRank(site, selected, ranks, 0, p.targets);
    assert ranks[0..] == ranks && MadeFor(site, selected, p.targets[i], ranks[i]);
    n := FindNode(selected, ranks[i].node).value;
    FindNodeFinds(selected, ranks[i].node);
    LookupFinds(sel.nodes, site.nodes, n);
    AddressByName(site, n);
    LocalAddressesAreOwn(site.nodes);
  }

  lemma {:induction false} LookupFinds(ids: seq<NodeId>, all: seq<NodeDescriptor>, n: NodeDescriptor)
    requires n in Lookup(ids, all)
    ensures n in all && Entry(all, n.id, n) && n.id in ids
  {
    FindNodeFinds(all, ids[0]);
    FindNodeIsEntry(all, ids[0]);
    if n !in (if FindNode(all, ids[0]).Some? then [FindNode(all, ids[0]).value] else []) {
      LookupFinds(ids[1..], all, n);
    }
  }

  /** Every rank is handed what the selection asks for, and the launch is served on the port it
      sets, if it sets a fit one, or the recipe's, or 8888. */
  lemma LaunchInFull(site: Site, sel: Selection, epoch: string, p: Pending)
    requires ResolveOf(site, sel, epoch) == Ok(p)
    ensures site.hash.Some?
    ensures forall i | 0 <= i < |p.targets| ::
      var a := p.targets[i].assignment;
      && a.recipe == sel.recipe && a.recipeHash == site.hash.value && a.settings == sel.settings && a.masterPort == 29500
      && a.worldSize == if |p.targets| <= 65535 then |p.targets| else 65535
    ensures p.port == if "port" in sel.settings && sel.settings["port"].IntSetting? && 0 <= sel.settings["port"].number <= 65535
                      then sel.settings["port"].number
                      else if site.recipePort.Some? then site.recipePort.value else 8888
  {
    var selected := Lookup(sel.nodes, site.nodes);
    var required := if |sel.nodes| < U32_WRAP then |sel.nodes| else U32_WRAP - 1;
    var plan := PlanOf(sel.recipe, site.hash.value, required, selected, sel.head, sel.settings, epoch).value;
    var ranks := ResolvedFromPlan(site, sel, epoch, p);
    PlanCarries(sel.recipe, site.hash.value, required, selected, sel.head, sel.settings, epoch, plan);
    TargetPerRank(site, selected, plan.ranks, 0, p.targets);
    assert plan.ranks[0..] == plan.ranks;
    forall i | 0 <= i < |p.targets|
      ensures p.targets[i].assignment == plan.ranks[i] == ranks[i]
    {
      assert MadeFor(site, selected, p.targets[i], plan.ranks[i]);
    }
    assert p.targets[0].assignment.rank == 0;
  }

  ghost predicate InFleet(all: seq<NodeDescriptor>, id: NodeId) {
    exists n | n in all :: n.id == id
  }

  lemma {:induction false} LookupWhole(ids: seq<NodeId>, all: seq<NodeDescriptor>)
    ensures |Lookup(ids, all)| <= |ids|
    ensures |Lookup(ids, all)| == |ids| <==> forall i | 0 <= i < |ids| :: InFleet(all, ids[i])
  {
    if ids != [] {
      LookupWhole(ids[1..], all);
      FindNodeFinds(all, ids[0]);
      assert InFleet(all, ids[0]) <==> FindNode(all, ids[0]).Some?;
      assert forall i | 0 < i < |ids| :: ids[i] == ids[1..][i - 1];
    }
  }

  /** Refused before any rank is spoken to: for a machine the fleet does not have, then for a
      recipe this one does not, then as the plan is, and only then for want of an address. */
  lemma RefusedInFull(site: Site, sel: Selection, epoch: string, e: ResolveError)
    requires ResolveOf(site, sel, epoch) == Err(e)
    ensures if exists i | 0 <= i < |sel.nodes| :: !InFleet(site.nodes, sel.nodes[i]) then e == NotInFleet
            else if site.hash.None? then e == UnknownRecipe
            else e.BadPlan? || e.NoLink? || e.Undialable?
  {
    LookupWhole(sel.nodes, site.nodes);
    if |Lookup(sel.nodes, site.nodes)| == |sel.nodes| && site.hash.Some? && !e.BadPlan? {
      var selected := Lookup(sel.nodes, site.nodes);
      var required := if |sel.nodes| < U32_WRAP then |sel.nodes| else U32_WRAP - 1;
      var plan := PlanOf(sel.recipe, site.hash.value, required, selected, sel.head, sel.settings, epoch).value;
      PlanRanksEveryone(sel.recipe, site.hash.value, required, selected, sel.head, sel.settings, epoch);
      RanksFound(site, selected, plan.ranks, sel.head, 0);
    }
  }

  lemma {:induction false} RanksFound(site: Site, selected: seq<NodeDescriptor>, ranks: seq<RankAssignment>, head: NodeId, i: nat)
    requires i <= |ranks| && Placed(Nodes(ranks), selected, head)
    ensures TargetsFrom(site, selected, ranks, i).Err? ==>
      TargetsFrom(site, selected, ranks, i).error.NoLink? || TargetsFrom(site, selected, ranks, i).error.Undialable?
    decreases |ranks| - i
  {
    if i < |ranks| {
      RanksFound(site, selected, ranks, head, i + 1);
      assert Nodes(ranks)[i] == ranks[i].node && ranks[i].node in Nodes(ranks);
      FindNodeFinds(selected, ranks[i].node);
    }
  }
}

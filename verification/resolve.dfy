/** From a selection to the targets of a launch. A pure function of the site, so whatever
    it refuses is refused before any machine has been spoken to. */
module Resolve {
  import opened Wrappers
  import opened Fleet
  import opened Planner
  import Rendezvous

  const DEFAULT_SERVE_PORT := 8888

  datatype SocketAddr = SocketAddr(host: Address, port: nat)

  /** An assignment and where to dial it; no address means this machine. */
  datatype Target = Target(assignment: RankAssignment, addr: Option<SocketAddr>, name: string)

  datatype Pending = Pending(epoch: string, port: nat, targets: seq<Target>)

  datatype ResolveError =
    | NotInFleet
    | UnknownRecipe
    | BadPlan(why: PlanError)
    | NoLink(name: string)
    | Undialable(name: string)

  /** What the driver knows when it resolves: the fleet, this machine's hash and pinned
      port for the recipe (absent when it does not ship it), and the peer port. */
  datatype Site = Site(
    nodes: seq<NodeDescriptor>,
    hash: Option<string>,
    recipePort: Option<nat>,
    peerPort: nat)

  datatype Selection = Selection(recipe: string, nodes: seq<NodeId>, head: NodeId, settings: Settings)

  /** The fleet's entry for each selected id that it still has. */
  function Lookup(ids: seq<NodeId>, all: seq<NodeDescriptor>): seq<NodeDescriptor> {
    if ids == [] then []
    else (if FindNode(all, ids[0]).Some? then [FindNode(all, ids[0]).value] else []) + Lookup(ids[1..], all)
  }

  function LocalAddresses(all: seq<NodeDescriptor>): seq<NodeAddress> {
    if all == [] then []
    else if all[0].isLocal then all[0].addresses
    else LocalAddresses(all[1..])
  }

  function AddressOf(site: Site, n: NodeDescriptor): Result<Option<SocketAddr>, ResolveError> {
    if n.isLocal then Ok(None)
    else
      var best := Rendezvous.BestReachable(n.addresses, LocalAddresses(site.nodes));
      if best.None? then Err(NoLink(n.name))
      else if best.value.addr.Text? && !best.value.addr.dials then Err(Undialable(n.name))
      else Ok(Some(SocketAddr(best.value.addr, site.peerPort)))
  }

  /** The first failure among ranks `i..`, or a target for each. */
  function TargetsFrom(site: Site, selected: seq<NodeDescriptor>, ranks: seq<RankAssignment>, i: nat)
    : Result<seq<Target>, ResolveError>
    requires i <= |ranks|
    decreases |ranks| - i
  {
    if i == |ranks| then Ok([])
    else
      var n := FindNode(selected, ranks[i].node);
      if n.None? then Err(NotInFleet)
      else
        var addr := AddressOf(site, n.value);
        if addr.Err? then Err(addr.error)
        else
          Prefixed([Target(ranks[i], addr.value, n.value.name)], TargetsFrom(site, selected, ranks, i + 1))
  }

  function ServePort(site: Site, targets: seq<Target>): nat {
    var override := PortOverride(targets);
    if override.Some? then override.value
    else if site.recipePort.Some? then site.recipePort.value
    else DEFAULT_SERVE_PORT
  }

  function PortOverride(targets: seq<Target>): Option<nat> {
    if targets == [] then None
    else if targets[0].assignment.rank == 0 then
      var s := targets[0].assignment.settings;
      if "port" in s && s["port"].IntSetting? && 0 <= s["port"].number <= U16_MAX then Some(s["port"].number) else None
    else PortOverride(targets[1..])
  }

  function ResolveOf(site: Site, sel: Selection, epoch: string): Result<Pending, ResolveError> {
    var selected := Lookup(sel.nodes, site.nodes);
    if |selected| != |sel.nodes| then Err(NotInFleet)
    else if site.hash.None? then Err(UnknownRecipe)
    else
      var required := if |sel.nodes| < U32_WRAP then |sel.nodes| else U32_WRAP - 1;
      var plan := PlanOf(sel.recipe, site.hash.value, required, selected, sel.head, sel.settings, epoch);
      if plan.Err? then Err(BadPlan(plan.error))
      else
        var targets := TargetsFrom(site, selected, plan.value.ranks, 0);
        if targets.Err? then Err(targets.error)
        else Ok(Pending(epoch, ServePort(site, targets.value), targets.value))
  }

  function Prefixed(before: seq<Target>, rest: Result<seq<Target>, ResolveError>): Result<seq<Target>, ResolveError> {
    if rest.Err? then rest else Ok(before + rest.value)
  }

  lemma PrefixedOnce(before: seq<Target>, rest: Result<seq<Target>, ResolveError>, a: RankAssignment)
    ensures forall addr, name ::
              Prefixed(before, Prefixed([Target(a, addr, name)], rest)) == Prefixed(before + [Target(a, addr, name)], rest)
  {
    if rest.Ok? {
      assert forall addr, name ::
        before + ([Target(a, addr, name)] + rest.value) == before + [Target(a, addr, name)] + rest.value;
    }
  }

  method ResolveSelection(site: Site, sel: Selection, epoch: string) returns (r: Result<Pending, ResolveError>)
    ensures r == ResolveOf(site, sel, epoch)
  {
    var selected := Lookup(sel.nodes, site.nodes);
    if |selected| != |sel.nodes| {
      return Err(NotInFleet);
    }
    if site.hash.None? {
      return Err(UnknownRecipe);
    }
    var required := if |sel.nodes| < U32_WRAP then |sel.nodes| else U32_WRAP - 1;
    var plan := Plan(sel.recipe, site.hash.value, required, selected, sel.head, sel.settings, epoch);
    if plan.Err? {
      return Err(BadPlan(plan.error));
    }
    var ranks := plan.value.ranks;
    ghost var whole := TargetsFrom(site, selected, ranks, 0);
    var targets: seq<Target> := [];
    assert whole.Ok? ==> [] + whole.value == whole.value;
    for i := 0 to |ranks|
      invariant whole == Prefixed(targets, TargetsFrom(site, selected, ranks, i))
    {
      PrefixedOnce(targets, TargetsFrom(site, selected, ranks, i + 1), ranks[i]);
      var n := FindNode(selected, ranks[i].node);
      if n.None? {
        return Err(NotInFleet);
      }
      var addr := AddressOf(site, n.value);
      if addr.Err? {
        return Err(addr.error);
      }
      targets := targets + [Target(ranks[i], addr.value, n.value.name)];
    }
    assert targets + [] == targets;
    r := Ok(Pending(epoch, ServePort(site, targets), targets));
  }

  // ---------------------------------------------------------------- one target a rank

  /** The target made for a rank: that rank's node, by its own name, at its address. */
  ghost predicate MadeFor(site: Site, selected: seq<NodeDescriptor>, t: Target, r: RankAssignment) {
    && t.assignment == r && FindNode(selected, r.node).Some?
    && AddressOf(site, FindNode(selected, r.node).value) == Ok(t.addr)
    && t.name == FindNode(selected, r.node).value.name
  }

  lemma {:induction false} TargetPerRank(site: Site, selected: seq<NodeDescriptor>, ranks: seq<RankAssignment>, i: nat,
                                         ts: seq<Target>)
    requires i <= |ranks| && TargetsFrom(site, selected, ranks, i) == Ok(ts)
    ensures |ts| == |ranks| - i
    ensures forall k | 0 <= k < |ts| :: MadeFor(site, selected, ts[k], ranks[i..][k])
    decreases |ranks| - i
  {
    if i < |ranks| {
      TargetPerRank(site, selected, ranks, i + 1, TargetsFrom(site, selected, ranks, i + 1).value);
      forall k | 0 <= k < |ts|
        ensures MadeFor(site, selected, ts[k], ranks[i..][k])
      {
        assert k > 0 ==> ts[k] == ts[1..][k - 1] && ranks[i..][k] == ranks[i + 1..][k - 1];
      }
    }
  }

  ghost predicate DistinctTargets(targets: seq<Target>) {
    forall i, j | 0 <= i < j < |targets| :: targets[i].assignment.node != targets[j].assignment.node
  }

  lemma {:induction false} LookupIds(ids: seq<NodeId>, all: seq<NodeDescriptor>)
    ensures |Lookup(ids, all)| <= |ids|
    ensures |Lookup(ids, all)| == |ids| ==> IdsOf(Lookup(ids, all)) == ids
  {
    if ids != [] {
      FindNodeFinds(all, ids[0]);
      LookupIds(ids[1..], all);
      if |Lookup(ids, all)| == |ids| {
        assert IdsOf(Lookup(ids, all)) == [ids[0]] + IdsOf(Lookup(ids[1..], all));
      }
    }
  }

  lemma PlacedTargets(targets: seq<Target>, ids: seq<NodeId>, selected: seq<NodeDescriptor>, head: NodeId)
    requires Placed(ids, selected, head) && |targets| == |ids|
    requires forall i | 0 <= i < |targets| :: targets[i].assignment.node == ids[i]
    ensures DistinctTargets(targets)
    ensures forall t | t in targets :: t.assignment.node in ids
    ensures forall id | id in ids :: exists t | t in targets :: t.assignment.node == id
  {
    PlacedIsDistinct(ids, selected, head);
    forall id | id in ids
      ensures exists t | t in targets :: t.assignment.node == id
    {
      var i :| 0 <= i < |ids| && ids[i] == id;
      assert targets[i] in targets;
    }
  }

  lemma ResolvedFromPlan(site: Site, sel: Selection, epoch: string, p: Pending) returns (ranks: seq<RankAssignment>)
    requires ResolveOf(site, sel, epoch) == Ok(p)
    ensures p.epoch == epoch && |p.targets| == |ranks| == |sel.nodes| && Numbered(ranks)
    ensures Placed(Nodes(ranks), Lookup(sel.nodes, site.nodes), sel.head)
    ensures forall i | 0 <= i < |ranks| :: p.targets[i].assignment == ranks[i]
  {
    var selected := Lookup(sel.nodes, site.nodes);
    var required := if |sel.nodes| < U32_WRAP then |sel.nodes| else U32_WRAP - 1;
    PlanRanksEveryone(sel.recipe, site.hash.value, required, selected, sel.head, sel.settings, epoch);
    ranks := PlanOf(sel.recipe, site.hash.value, required, selected, sel.head, sel.settings, epoch).value.ranks;
    TargetPerRank(site, selected, ranks, 0, p.targets);
    assert ranks[0..] == ranks;
    assert forall i | 0 <= i < |ranks| :: MadeFor(site, selected, p.targets[i], ranks[i]);
  }

  /** What is handed to the ceremonies: as many targets as machines selected, no machine
      twice, exactly the machines selected, the head first and holding rank 0. */
  lemma ResolvedTargets(site: Site, sel: Selection, epoch: string)
    requires ResolveOf(site, sel, epoch).Ok?
    ensures var p := ResolveOf(site, sel, epoch).value;
      && p.epoch == epoch
      && |p.targets| == |sel.nodes| > 0
      && DistinctTargets(p.targets)
      && p.targets[0].assignment.node == sel.head
      && (forall i | 0 <= i < |p.targets| :: p.targets[i].assignment.rank == Saturate(i))
      && (forall t | t in p.targets :: t.assignment.node in sel.nodes)
      && (forall id | id in sel.nodes :: exists t | t in p.targets :: t.assignment.node == id)
  {
    var p, selected := ResolveOf(site, sel, epoch).value, Lookup(sel.nodes, site.nodes);
    var ranks := ResolvedFromPlan(site, sel, epoch, p);
    LookupIds(sel.nodes, site.nodes);
    IdsOfMembers(selected);
    PlacedTargets(p.targets, Nodes(ranks), selected, sel.head);
  }

  lemma PlacedIsDistinct(ids: seq<NodeId>, selected: seq<NodeDescriptor>, head: NodeId)
    requires Placed(ids, selected, head)
    ensures forall i, j | 0 <= i < j < |ids| :: ids[i] != ids[j]
  {
    var tail := ids[1..];
    forall i, j | 0 <= i < j < |ids|
      ensures ids[i] != ids[j]
    {
      assert ids[j] == tail[j - 1];
      if i > 0 {
        assert ids[i] == tail[i - 1];
      }
    }
  }
}

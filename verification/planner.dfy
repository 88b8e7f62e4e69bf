/** Building a cluster plan: who takes which rank, and where they meet. */
module Planner {
  import opened Wrappers
  import opened Fleet
  import Rendezvous
  import Seqs
  import Sorting

  const DEFAULT_MASTER_PORT := 29500
  const U16_MAX := 65535
  const U32_WRAP := 0x1_0000_0000

  datatype SettingValue = IntSetting(number: int) | OtherSetting(text: string)
  type Settings = map<string, SettingValue>

  datatype RankAssignment = RankAssignment(
    node: NodeId,
    rank: nat,
    worldSize: nat,
    masterAddr: Address,
    masterPort: nat,
    recipe: string,
    recipeHash: string,
    settings: Settings)

  datatype ClusterPlan = ClusterPlan(
    epoch: string,
    recipe: string,
    ranks: seq<RankAssignment>,
    link: LinkClass,
    linkWarning: bool)

  datatype PlanError =
    | NodeCount(recipe: string, required: nat, selected: nat)
    | NotLaunchable(name: string, reason: string)
    | NotPaired(name: string)
    | NoUsableLink(name: string)
    | HeadNotSelected
    | DuplicateNode

  /** A count as a sixteen-bit number; one that does not fit becomes the largest. */
  function Saturate(i: nat): nat {
    if i <= U16_MAX then i else U16_MAX
  }

  function Unready(n: NodeDescriptor): Option<PlanError> {
    if !n.paired && !n.isLocal then Some(NotPaired(n.name))
    else if !n.canLaunch then Some(NotLaunchable(n.name, n.reason))
    else None
  }

  /** The first complaint, scanning the selection from `i` in order. */
  function FirstFault(selected: seq<NodeDescriptor>, i: nat): Option<PlanError>
    requires i <= |selected|
    decreases |selected| - i
  {
    if i == |selected| then None
    else if exists j | 0 <= j < i :: selected[j].id == selected[i].id then Some(DuplicateNode)
    else if Unready(selected[i]).Some? then Unready(selected[i])
    else FirstFault(selected, i + 1)
  }

  function FindNode(selected: seq<NodeDescriptor>, id: NodeId): Option<NodeDescriptor> {
    if selected == [] then None
    else if selected[0].id == id then Some(selected[0])
    else FindNode(selected[1..], id)
  }

  function Workers(selected: seq<NodeDescriptor>, head: NodeDescriptor): set<NodeDescriptor> {
    set w | w in selected && w.id != head.id
  }

  /** A usable address of the head whose network holds a usable address of every worker. */
  predicate Shared(candidate: NodeAddress, workers: set<NodeDescriptor>) {
    && candidate.link.UsableForCluster()
    && candidate.prefix > 0
    && forall w | w in workers :: Meets(candidate, w)
  }

  predicate Meets(candidate: NodeAddress, worker: NodeDescriptor) {
    exists a | a in worker.addresses ::
      a.link.UsableForCluster() && Rendezvous.SharesNetwork(candidate.addr, candidate.prefix, a.addr)
  }

  function RendezvousAddress(head: NodeDescriptor, workers: set<NodeDescriptor>): Option<NodeAddress> {
    var shared := Best(head.addresses, (a: NodeAddress) => Shared(a, workers));
    if shared.Some? then shared else Preferred(head)
  }

  /** The first of the slowest link classes the selection would be reached on. */
  function Worst(selected: seq<NodeDescriptor>): Option<LinkClass> {
    if selected == [] then None
    else
      var before := Worst(selected[..|selected| - 1]);
      var here := Preferred(selected[|selected| - 1]);
      if here.None? then before
      else if before.None? || here.value.link.Rank() < before.value.Rank() then Some(here.value.link)
      else before
  }

  function ById(a: NodeDescriptor, b: NodeDescriptor): bool {
    a.id <= b.id
  }

  /** Head first, then the rest by id. */
  function Ordered(selected: seq<NodeDescriptor>, head: NodeDescriptor): seq<NodeDescriptor> {
    [head] + Sorting.Sort(Seqs.Filter(selected, (n: NodeDescriptor) => n.id != head.id), ById)
  }

  function Assign(ordered: seq<NodeDescriptor>, master: Address, recipe: string, hash: string, settings: Settings)
    : seq<RankAssignment>
  {
    seq(|ordered|, i requires 0 <= i < |ordered| =>
      RankAssignment(ordered[i].id, Saturate(i), Saturate(|ordered|), master, DEFAULT_MASTER_PORT, recipe, hash, settings))
  }

  /** What a plan must be, for a selection already known to be free of faults. */
  function PlanFrom(
    selected: seq<NodeDescriptor>, head: NodeDescriptor, recipe: string, hash: string, settings: Settings, epoch: string)
    : Result<ClusterPlan, PlanError>
  {
    var master := RendezvousAddress(head, Workers(selected, head));
    if master.None? then Err(NoUsableLink(head.name))
    else
      var worst := Worst(selected);
      var link := if worst.Some? then worst.value else Ethernet;
      Ok(ClusterPlan(epoch, recipe, Assign(Ordered(selected, head), master.value.addr, recipe, hash, settings),
                     link, link.Warns()))
  }

  function PlanOf(
    recipe: string, hash: string, required: nat, selected: seq<NodeDescriptor>, head: NodeId, settings: Settings,
    epoch: string)
    : Result<ClusterPlan, PlanError>
  {
    if |selected| % U32_WRAP != required then Err(NodeCount(recipe, required, |selected|))
    else if FirstFault(selected, 0).Some? then Err(FirstFault(selected, 0).value)
    else if FindNode(selected, head).None? then Err(HeadNotSelected)
    else PlanFrom(selected, FindNode(selected, head).value, recipe, hash, settings, epoch)
  }

  method Plan(
    recipe: string, hash: string, required: nat, selected: seq<NodeDescriptor>, head: NodeId, settings: Settings,
    epoch: string)
    returns (r: Result<ClusterPlan, PlanError>)
    ensures r == PlanOf(recipe, hash, required, selected, head, settings, epoch)
  {
    if |selected| % U32_WRAP != required {
      return Err(NodeCount(recipe, required, |selected|));
    }
    var seen: set<NodeId> := {};
    for i := 0 to |selected|
      invariant seen == set j | 0 <= j < i :: selected[j].id
      invariant FirstFault(selected, 0) == FirstFault(selected, i)
    {
      var n := selected[i];
      if n.id in seen {
        return Err(DuplicateNode);
      }
      seen := seen + {n.id};
      if !n.paired && !n.isLocal {
        return Err(NotPaired(n.name));
      }
      if !n.canLaunch {
        return Err(NotLaunchable(n.name, n.reason));
      }
    }
    var headNode := FindNode(selected, head);
    if headNode.None? {
      return Err(HeadNotSelected);
    }
    r := PlanFrom(selected, headNode.value, recipe, hash, settings, epoch);
  }

  // ---------------------------------------------------------------- when a plan exists

  ghost predicate DistinctIds(selected: seq<NodeDescriptor>) {
    forall i, j | 0 <= i < j < |selected| :: selected[i].id != selected[j].id
  }

  /** Every selected machine is there once, trusted, and able to run a model. */
  ghost predicate Sound(selected: seq<NodeDescriptor>) {
    && DistinctIds(selected)
    && forall n | n in selected :: (n.paired || n.isLocal) && n.canLaunch
  }

  lemma {:induction false} NoFault(selected: seq<NodeDescriptor>, i: nat)
    requires i <= |selected|
    ensures FirstFault(selected, i).None? <==>
              && (forall k, j | i <= k < |selected| && 0 <= j < k :: selected[j].id != selected[k].id)
              && forall k | i <= k < |selected| :: Unready(selected[k]).None?
    decreases |selected| - i
  {
    if i < |selected| {
      NoFault(selected, i + 1);
    }
  }

  lemma SoundIsNoFault(selected: seq<NodeDescriptor>)
    ensures FirstFault(selected, 0).None? <==> Sound(selected)
  {
    NoFault(selected, 0);
    assert forall k | 0 <= k < |selected| :: selected[k] in selected;
  }

  lemma {:induction false} FindNodeFinds(selected: seq<NodeDescriptor>, id: NodeId)
    ensures FindNode(selected, id).None? <==> forall n | n in selected :: n.id != id
    ensures FindNode(selected, id).Some? ==> FindNode(selected, id).value in selected && FindNode(selected, id).value.id == id
  {
    if selected != [] {
      assert selected == [selected[0]] + selected[1..];
      FindNodeFinds(selected[1..], id);
    }
  }

  lemma SameIdSameNode(selected: seq<NodeDescriptor>, a: NodeDescriptor, b: NodeDescriptor)
    requires DistinctIds(selected) && a in selected && b in selected && a.id == b.id
    ensures a == b
  {
  }

  /** A plan is made exactly for a sound selection of the required size that contains
      the head, whose head has a link a collective could use. */
  lemma PlannableExactly(
    recipe: string, hash: string, required: nat, selected: seq<NodeDescriptor>, head: NodeId, settings: Settings,
    epoch: string)
    ensures PlanOf(recipe, hash, required, selected, head, settings, epoch).Ok? <==>
              && |selected| % U32_WRAP == required
              && Sound(selected)
              && exists h | h in selected :: h.id == head && exists a | a in h.addresses :: a.link.UsableForCluster()
  {
    SoundIsNoFault(selected);
    FindNodeFinds(selected, head);
    if FindNode(selected, head).Some? {
      var h := FindNode(selected, head).value;
      BestIsBest(h.addresses, (a: NodeAddress) => Shared(a, Workers(selected, h)));
      BestIsBest(h.addresses, (a: NodeAddress) => a.link.UsableForCluster());
      if Sound(selected) {
        forall g | g in selected && g.id == head
          ensures g == h
        {
          SameIdSameNode(selected, g, h);
        }
      }
    }
  }

  // ---------------------------------------------------------------- the ranks

  function Nodes(ranks: seq<RankAssignment>): seq<NodeId> {
    seq(|ranks|, i requires 0 <= i < |ranks| => ranks[i].node)
  }

  function IdsOf(nodes: seq<NodeDescriptor>): seq<NodeId> {
    seq(|nodes|, i requires 0 <= i < |nodes| => nodes[i].id)
  }

  predicate IsSelected(id: NodeId, selected: seq<NodeDescriptor>) {
    exists n | n in selected :: n.id == id
  }

  ghost predicate Ascends(ids: seq<NodeId>) {
    forall i, j | 0 <= i < j < |ids| :: ids[i] < ids[j]
  }

  /** Every selected machine is placed once: the head first, the others by id. */
  ghost predicate Placed(ids: seq<NodeId>, selected: seq<NodeDescriptor>, head: NodeId) {
    && |ids| == |selected| > 0
    && ids[0] == head
    && head !in ids[1..]
    && Ascends(ids[1..])
    && forall id :: id in ids <==> IsSelected(id, selected)
  }

  ghost predicate Numbered(ranks: seq<RankAssignment>) {
    forall i | 0 <= i < |ranks| :: ranks[i].rank == Saturate(i) && ranks[i].worldSize == Saturate(|ranks|)
  }

  lemma {:induction false} OneHead(selected: seq<NodeDescriptor>, head: NodeDescriptor)
    requires DistinctIds(selected) && head in selected
    ensures |Seqs.Filter(selected, (n: NodeDescriptor) => n.id != head.id)| == |selected| - 1
  {
    var keep := (n: NodeDescriptor) => n.id != head.id;
    if selected[0] == head {
      AllKept(selected[1..], keep);
    } else {
      assert selected[0].id != head.id;
      assert head in selected[1..];
      OneHead(selected[1..], head);
    }
  }

  lemma {:induction false} AllKept(s: seq<NodeDescriptor>, keep: NodeDescriptor -> bool)
    requires forall n | n in s :: keep(n)
    ensures Seqs.Filter(s, keep) == s
  {
    if s != [] {
      AllKept(s[1..], keep);
    }
  }

  lemma ByIdIsPreorder()
    ensures Sorting.Preorder(ById)
  {
  }

  /** A machine selected once is not filtered and sorted into two places. */
  lemma NoRepeats(selected: seq<NodeDescriptor>, keep: NodeDescriptor -> bool, tail: seq<NodeDescriptor>)
    requires DistinctIds(selected)
    requires multiset(tail) == multiset(Seqs.Filter(selected, keep))
    ensures Seqs.Distinct(tail)
  {
    forall i, j | 0 <= i < j < |tail|
      ensures tail[i] != tail[j]
    {
      if tail[i] == tail[j] {
        Seqs.FilterCounts(selected, keep, tail[i]);
        TwiceCounted(tail, i, j);
        OnceCounted(selected, tail[i]);
        assert false;
      }
    }
  }

  lemma OthersAscend(selected: seq<NodeDescriptor>, head: NodeDescriptor)
    requires DistinctIds(selected)
    ensures var tail := Ordered(selected, head)[1..];
      && (forall n :: n in tail <==> n in selected && n.id != head.id)
      && Ascends(IdsOf(tail))
  {
    var keep := (n: NodeDescriptor) => n.id != head.id;
    var others := Seqs.Filter(selected, keep);
    var tail := Sorting.Sort(others, ById);
    assert Ordered(selected, head)[1..] == tail;
    ByIdIsPreorder();
    Sorting.SortPermutes(others, ById);
    Sorting.SortSorted(others, ById);
    Seqs.FilterMembers(selected, keep);
    Seqs.SameMembers(tail, others);
    NoRepeats(selected, keep, tail);
    forall i, j | 0 <= i < j < |tail|
      ensures tail[i].id < tail[j].id
    {
      if tail[i].id == tail[j].id {
        assert tail[i] in tail && tail[j] in tail;
        SameIdSameNode(selected, tail[i], tail[j]);
      }
    }
  }

  lemma IdsOfMembers(nodes: seq<NodeDescriptor>)
    ensures forall id :: id in IdsOf(nodes) <==> IsSelected(id, nodes)
  {
    var ids := IdsOf(nodes);
    forall id
      ensures id in ids <==> IsSelected(id, nodes)
    {
      if id in ids {
        var i :| 0 <= i < |ids| && ids[i] == id;
        assert nodes[i] in nodes;
      }
      if IsSelected(id, nodes) {
        var n :| n in nodes && n.id == id;
        var i :| 0 <= i < |nodes| && nodes[i] == n;
        assert ids[i] == id;
      }
    }
  }

  lemma OrderedIsPlaced(selected: seq<NodeDescriptor>, head: NodeDescriptor)
    requires DistinctIds(selected) && head in selected
    ensures Placed(IdsOf(Ordered(selected, head)), selected, head.id)
  {
    var o := Ordered(selected, head);
    var tail := o[1..];
    OthersAscend(selected, head);
    OneHead(selected, head);
    Sorting.SortPermutes(Seqs.Filter(selected, (n: NodeDescriptor) => n.id != head.id), ById);
    assert o == [head] + tail && IdsOf(o) == [head.id] + IdsOf(tail);
    IdsOfMembers(tail);
    assert IdsOf(o)[1..] == IdsOf(tail);
    forall id
      ensures id in IdsOf(o) <==> IsSelected(id, selected)
    {
      if IsSelected(id, selected) && id != head.id {
        var n :| n in selected && n.id == id;
        assert n in tail;
      }
    }
  }

  lemma TwiceCounted<T>(s: seq<T>, i: nat, j: nat)
    requires i < j < |s| && s[i] == s[j]
    ensures multiset(s)[s[i]] >= 2
  {
    assert s == s[..j] + [s[j]] + s[j + 1..];
    assert s[i] in s[..j];
  }

  lemma {:induction false} OnceCounted(selected: seq<NodeDescriptor>, x: NodeDescriptor)
    requires DistinctIds(selected)
    ensures multiset(selected)[x] <= 1
  {
    if selected != [] {
      assert selected == [selected[0]] + selected[1..];
      OnceCounted(selected[1..], x);
      if selected[0] == x {
        assert x !in selected[1..];
      }
    }
  }

  /** A plan ranks every selected machine once, the head first and the rest by id. */
  lemma PlanRanksEveryone(
    recipe: string, hash: string, required: nat, selected: seq<NodeDescriptor>, head: NodeId, settings: Settings,
    epoch: string)
    requires PlanOf(recipe, hash, required, selected, head, settings, epoch).Ok?
    ensures var ranks := PlanOf(recipe, hash, required, selected, head, settings, epoch).value.ranks;
      Placed(Nodes(ranks), selected, head) && Numbered(ranks)
  {
    SoundIsNoFault(selected);
    FindNodeFinds(selected, head);
    var h := FindNode(selected, head).value;
    OrderedIsPlaced(selected, h);
    var ranks := PlanOf(recipe, hash, required, selected, head, settings, epoch).value.ranks;
    assert Nodes(ranks) == IdsOf(Ordered(selected, h));
  }

  /** Saturated numbers are exact and distinct exactly while they fit sixteen bits. */
  lemma SaturateExactly(n: nat)
    ensures (forall i | 0 <= i < n :: Saturate(i) == i) <==> n <= U16_MAX + 1
    ensures (forall i, j | 0 <= i < j < n :: Saturate(i) != Saturate(j)) <==> n <= U16_MAX + 1
    ensures Saturate(n) == n <==> n <= U16_MAX
  {
    if n > U16_MAX + 1 {
      assert Saturate(U16_MAX) == Saturate(U16_MAX + 1);
    }
  }

  /** The rank numbers are 0..n-1 exactly while they fit sixteen bits. Past that the
      saturating conversion gives the last two machines one rank. */
  lemma RanksBijectExactly(ranks: seq<RankAssignment>)
    requires Numbered(ranks) && |ranks| > 0
    ensures (forall i | 0 <= i < |ranks| :: ranks[i].rank == i) <==> |ranks| <= U16_MAX + 1
    ensures (forall i, j | 0 <= i < j < |ranks| :: ranks[i].rank != ranks[j].rank) <==> |ranks| <= U16_MAX + 1
    ensures (forall i | 0 <= i < |ranks| :: ranks[i].worldSize == |ranks|) <==> |ranks| <= U16_MAX
  {
    SaturateExactly(|ranks|);
    assert ranks[0].worldSize == Saturate(|ranks|);
    if |ranks| > U16_MAX + 1 {
      assert ranks[U16_MAX].rank == ranks[U16_MAX + 1].rank != U16_MAX + 1;
    }
  }

  // ---------------------------------------------------------------- two planners agree

  lemma {:induction false} WorstIsWorst(selected: seq<NodeDescriptor>)
    ensures Worst(selected).None? <==> forall n | n in selected :: Preferred(n).None?
    ensures Worst(selected).Some? ==>
              && (exists n | n in selected :: Preferred(n).Some? && Preferred(n).value.link == Worst(selected).value)
              && forall n | n in selected && Preferred(n).Some? ::
                   Worst(selected).value.Rank() <= Preferred(n).value.link.Rank()
  {
    if selected != [] {
      var init, last := selected[..|selected| - 1], selected[|selected| - 1];
      assert selected == init + [last];
      WorstIsWorst(init);
    }
  }

  lemma PreferredIsUsable(n: NodeDescriptor)
    ensures Preferred(n).Some? ==> Preferred(n).value.link.UsableForCluster()
  {
    BestIsBest(n.addresses, (x: NodeAddress) => x.link.UsableForCluster());
  }

  lemma SameRankSameLink(x: LinkClass, y: LinkClass)
    requires x.UsableForCluster() && y.UsableForCluster() && x.Rank() == y.Rank()
    ensures x == y
  {
  }

  lemma WorstIgnoresOrder(a: seq<NodeDescriptor>, b: seq<NodeDescriptor>)
    requires multiset(a) == multiset(b)
    ensures Worst(a) == Worst(b)
  {
    Seqs.SameMembers(a, b);
    WorstIsWorst(a);
    WorstIsWorst(b);
    if Worst(a).Some? {
      var m :| m in a && Preferred(m).Some? && Preferred(m).value.link == Worst(a).value;
      assert m in b;
      var n :| n in b && Preferred(n).Some? && Preferred(n).value.link == Worst(b).value;
      assert n in a;
      PreferredIsUsable(m);
      PreferredIsUsable(n);
      SameRankSameLink(Worst(a).value, Worst(b).value);
    }
  }

  lemma OrderedIgnoresOrder(a: seq<NodeDescriptor>, b: seq<NodeDescriptor>, head: NodeDescriptor)
    requires multiset(a) == multiset(b) && DistinctIds(a)
    ensures Ordered(a, head) == Ordered(b, head)
  {
    var keep := (n: NodeDescriptor) => n.id != head.id;
    var fa := Seqs.Filter(a, keep);
    Seqs.FilterPermutes(a, b, keep);
    Seqs.FilterMembers(a, keep);
    ByIdIsPreorder();
    forall x, y | x in fa && y in fa && ById(x, y) && ById(y, x)
      ensures x == y
    {
      SameIdSameNode(a, x, y);
    }
    Sorting.SortIgnoresOrder(fa, Seqs.Filter(b, keep), ById);
  }

  lemma SoundIgnoresOrder(a: seq<NodeDescriptor>, b: seq<NodeDescriptor>)
    requires multiset(a) == multiset(b) && Sound(a)
    ensures Sound(b)
  {
    Seqs.SameMembers(a, b);
    forall i, j | 0 <= i < j < |b|
      ensures b[i].id != b[j].id
    {
      if b[i].id == b[j].id {
        assert b[i] in a && b[j] in a;
        SameIdSameNode(a, b[i], b[j]);
        TwiceCounted(b, i, j);
        OnceCounted(a, b[i]);
        assert false;
      }
    }
  }

  /** A successful plan does not depend on the order the machines were selected in. */
  lemma PlanIgnoresOrder(
    recipe: string, hash: string, required: nat, a: seq<NodeDescriptor>, b: seq<NodeDescriptor>, head: NodeId,
    settings: Settings, epoch: string)
    requires multiset(a) == multiset(b)
    requires PlanOf(recipe, hash, required, a, head, settings, epoch).Ok?
    ensures PlanOf(recipe, hash, required, b, head, settings, epoch)
         == PlanOf(recipe, hash, required, a, head, settings, epoch)
  {
    SoundIsNoFault(a);
    SoundIsNoFault(b);
    SoundIgnoresOrder(a, b);
    Seqs.SameMembers(a, b);
    FindNodeFinds(a, head);
    FindNodeFinds(b, head);
    var h := FindNode(a, head).value;
    SameIdSameNode(a, h, FindNode(b, head).value);
    assert Workers(a, h) == Workers(b, h);
    WorstIgnoresOrder(a, b);
    OrderedIgnoresOrder(a, b, h);
  }

  // ---------------------------------------------------------------- where they meet

  /** The address every rank is sent to. When some usable address of the head shares
      its network with every worker, the chosen one does too, and no other such
      address outranks it; otherwise it is the head's own favourite. */
  lemma MeetingPointIsShared(
    recipe: string, hash: string, required: nat, selected: seq<NodeDescriptor>, head: NodeId, settings: Settings,
    epoch: string)
    returns (h: NodeDescriptor, master: NodeAddress)
    requires PlanOf(recipe, hash, required, selected, head, settings, epoch).Ok?
    ensures h in selected && h.id == head && master in h.addresses && master.link.UsableForCluster()
    ensures var ranks := PlanOf(recipe, hash, required, selected, head, settings, epoch).value.ranks;
      forall i | 0 <= i < |ranks| :: ranks[i].masterAddr == master.addr
    ensures (exists c | c in h.addresses :: Shared(c, Workers(selected, h))) ==>
              && Shared(master, Workers(selected, h))
              && forall c | c in h.addresses && Shared(c, Workers(selected, h)) :: KeyLe(c, master)
    ensures (forall c | c in h.addresses :: !Shared(c, Workers(selected, h))) ==> Preferred(h) == Some(master)
  {
    FindNodeFinds(selected, head);
    h := FindNode(selected, head).value;
    master := RendezvousAddress(h, Workers(selected, h)).value;
    BestIsBest(h.addresses, (a: NodeAddress) => Shared(a, Workers(selected, h)));
    BestIsBest(h.addresses, (a: NodeAddress) => a.link.UsableForCluster());
  }

  /** A worker the head judged to share the meeting point reaches the same verdict
      itself when the interface in question has a prefix no longer than the head's. */
  lemma WorkerAgrees(worker: NodeDescriptor, master: NodeAddress, link: NodeAddress)
    requires link in worker.addresses
    requires Rendezvous.SharesNetwork(master.addr, master.prefix, link.addr)
    requires 1 <= link.prefix <= master.prefix
    ensures Rendezvous.OnLocalSubnet(master.addr, worker.addresses)
  {
    Rendezvous.ShorterPrefixShared(master.addr.bits, link.addr.bits, master.prefix, link.prefix);
  }

  /** So a meeting point is accepted by every worker that has one interface of such a
      prefix sharing its network. */
  lemma WorkersAgree(workers: set<NodeDescriptor>, master: NodeAddress)
    requires forall w | w in workers :: exists a | a in w.addresses ::
      Rendezvous.SharesNetwork(master.addr, master.prefix, a.addr) && 1 <= a.prefix <= master.prefix
    ensures forall w | w in workers :: Rendezvous.OnLocalSubnet(master.addr, w.addresses)
  {
    forall w | w in workers
      ensures Rendezvous.OnLocalSubnet(master.addr, w.addresses)
    {
      var a :| a in w.addresses && Rendezvous.SharesNetwork(master.addr, master.prefix, a.addr)
        && 1 <= a.prefix <= master.prefix;
      WorkerAgrees(w, master, a);
    }
  }

  /** An interface of a worker that has only that one. */
  function Interface(addr: Address, prefix: nat): NodeAddress {
    NodeAddress("", addr, prefix, Roce, None)
  }

  /** The head asks whether the worker is in its own /p, the worker whether the head is in
      the worker's /q: what the head calls shared the worker always accepts exactly when
      /q is a prefix no longer than /p. */
  lemma VerdictsAgreeExactly(p: nat, q: nat)
    requires 1 <= p <= 32
    ensures (forall head, worker ::
              Rendezvous.SharesNetwork(head, p, worker) ==> Rendezvous.OnLocalSubnet(head, [Interface(worker, q)]))
       <==> 1 <= q <= p
  {
    Rendezvous.PrefixesAgreeExactly(p, q);
    if 1 <= q <= p {
      forall head, worker | Rendezvous.SharesNetwork(head, p, worker)
        ensures Rendezvous.OnLocalSubnet(head, [Interface(worker, q)])
      {
        Rendezvous.ShorterPrefixShared(head.bits, worker.bits, p, q);
        assert Interface(worker, q) in [Interface(worker, q)];
      }
    } else {
      var a, b :| Rendezvous.SameNetwork(a, b, p) && !Rendezvous.SameNetwork(a, b, q);
      Swapped(a, b, q);
      assert Rendezvous.SharesNetwork(V4(a), p, V4(b)) && !Rendezvous.OnLocalSubnet(V4(a), [Interface(V4(b), q)]);
    }
  }

  lemma Swapped(a: bv32, b: bv32, q: nat)
    ensures Rendezvous.SameNetwork(a, b, q) <==> Rendezvous.SameNetwork(b, a, q)
  {
  }

  /** With one interface the two verdicts agree for a shorter prefix and can differ for
      a longer one: 10.0.0.1/24 and 10.0.0.129/30 are one network to the first and two
      to the second. */
  lemma WorkerDisagreesOnLongerPrefix()
    ensures var master := NodeAddress("", V4(0x0A00_0001), 24, Roce, None);
      var worker := NodeDescriptor(1, "", false, true, true, "", [NodeAddress("", V4(0x0A00_0081), 30, Roce, None)]);
      && Shared(master, {worker})
      && !Rendezvous.OnLocalSubnet(master.addr, worker.addresses)
  {
    var worker := NodeDescriptor(1, "", false, true, true, "", [NodeAddress("", V4(0x0A00_0081), 30, Roce, None)]);
    assert worker.addresses[0] in worker.addresses;
  }
}

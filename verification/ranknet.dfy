/** The ranks as the driver meets them: one request at a time, answered by a machine
    that may be unreachable, may refuse, may lose its container, and whose answer may
    be lost on the way back. A script of behaviours, one per request, is the only
    source of nondeterminism, so a statement for every script is a statement for every
    way the fleet can behave. */
module RankNet {
  import opened Wrappers
  import opened Fleet
  import opened Planner
  import opened Resolve

  type Epoch = string

  datatype Verb =
    | Prepare(epoch: Epoch, assignment: RankAssignment)
    | Commit(epoch: Epoch)
    | Abort(epoch: Epoch)
    | Alive(container: string)
    | Stop(container: string)

  /** No address means this machine, which answers the same verbs without a hop. */
  datatype Request = Request(node: NodeId, addr: Option<SocketAddr>, verb: Verb)

  datatype Reply = Prepared | Refused | Started(container: string) | Living(yes: bool) | Stopped | Released | Failed

  datatype Exchange = Exchange(request: Request, reply: Reply)

  /** How one machine treats one request. `reached`: the request arrives. `agrees`: the
      machine's own checks and its container runtime say yes. `container`: the name its
      rendered command carries. `survives`: the container asked about is still up.
      `answered`: the answer arrives back. */
  datatype Behaviour = Behaviour(reached: bool, agrees: bool, container: string, survives: bool, answered: bool)

  type Script = nat -> Behaviour

  /** One rank: at most one reservation, and the containers it runs by name. What runs
      under a name is told apart by the turn of the request that launched it, negative
      for what was there before the conversation began. */
  datatype Machine = Machine(reserved: Option<Epoch>, live: map<string, int>)

  type World = map<NodeId, Machine>

  /** The world, and everything the driver ever said to it. */
  datatype Net = Net(world: World, log: seq<Exchange>)

  function At(w: World, node: NodeId): Machine {
    if node in w then w[node] else Machine(None, map[])
  }

  /** What one request, treated so, makes of the machine it is addressed to. */
  function Serve(m: Machine, verb: Verb, b: Behaviour, tick: nat): Machine {
    match verb
    case Prepare(e, _) =>
      if b.reached && b.agrees then m.(reserved := Some(e)) else m
    case Commit(e) =>
      if !b.reached || m.reserved != Some(e) then m
      else
        var cleared := m.live - {b.container};
        Machine(None, if b.agrees then cleared[b.container := tick] else cleared)
    case Abort(e) =>
      if b.reached && m.reserved == Some(e) then m.(reserved := None) else m
    case Alive(c) =>
      if b.survives then m else m.(live := m.live - {c})
    case Stop(c) =>
      if b.reached && b.agrees then m.(live := m.live - {c}) else m
  }

  function Answer(m: Machine, verb: Verb, b: Behaviour): Reply {
    match verb
    case Prepare(_, _) => if b.reached && b.agrees && b.answered then Prepared else Refused
    case Commit(e) =>
      if b.reached && m.reserved == Some(e) && b.agrees && b.answered then Started(b.container) else Failed
    case Abort(_) => Released
    case Alive(c) => Living(b.reached && b.answered && b.survives && c in m.live)
    case Stop(_) => if b.reached && b.agrees && b.answered then Stopped else Failed
  }

  function React(w: World, req: Request, b: Behaviour, tick: nat): World {
    w[req.node := Serve(At(w, req.node), req.verb, b, tick)]
  }

  function ReplyTo(w: World, req: Request, b: Behaviour): Reply {
    Answer(At(w, req.node), req.verb, b)
  }

  function Ask(script: Script, net: Net, req: Request): Net {
    var b := script(|net.log|);
    Net(React(net.world, req, b, |net.log|), net.log + [Exchange(req, ReplyTo(net.world, req, b))])
  }

  /** The requests asked in order, each after the last has answered. */
  function AskAll(script: Script, net: Net, reqs: seq<Request>): Net {
    if reqs == [] then net
    else Ask(script, AskAll(script, net, reqs[..|reqs| - 1]), reqs[|reqs| - 1])
  }

  /** Everything said since `before`. */
  function Said(before: Net, after: Net): seq<Exchange> {
    if |before.log| <= |after.log| then after.log[|before.log|..] else []
  }

  lemma SaidConcat(a: Net, b: Net, c: Net)
    requires a.log <= b.log <= c.log
    ensures Said(a, c) == Said(a, b) + Said(b, c)
  {
    assert c.log[..|b.log|] == b.log;
  }

  /** These exchanges are those requests, one each and in order. */
  ghost predicate Asked(said: seq<Exchange>, reqs: seq<Request>) {
    |said| == |reqs| && forall i | 0 <= i < |reqs| :: said[i].request == reqs[i]
  }

  lemma SplitAsked(said: seq<Exchange>, first: seq<Request>, second: seq<Request>)
    requires Asked(said, first + second)
    ensures Asked(said[..|first|], first) && Asked(said[|first|..], second)
  {
    forall i | 0 <= i < |second|
      ensures said[|first|..][i].request == second[i]
    {
      assert said[|first| + i].request == (first + second)[|first| + i];
    }
  }

  lemma {:induction false} AskAllSays(script: Script, net: Net, reqs: seq<Request>)
    ensures var after := AskAll(script, net, reqs);
      && net.log <= after.log
      && |after.log| == |net.log| + |reqs|
      && Asked(Said(net, after), reqs)
  {
    if reqs != [] {
      AskAllSays(script, net, reqs[..|reqs| - 1]);
    }
  }

  lemma {:induction false} AskAllPrefix(script: Script, net: Net, reqs: seq<Request>, i: nat)
    requires i <= |reqs|
    ensures AskAll(script, net, reqs[..i]).log <= AskAll(script, net, reqs).log
  {
    if i < |reqs| {
      var init := reqs[..|reqs| - 1];
      assert init[..i] == reqs[..i];
      AskAllPrefix(script, net, init, i);
      AskAllSays(script, net, reqs[..i]);
    } else {
      assert reqs[..i] == reqs;
    }
  }

  lemma AskNext(script: Script, net: Net, reqs: seq<Request>, i: nat)
    requires i < |reqs|
    ensures AskAll(script, net, reqs[..i + 1]) == Ask(script, AskAll(script, net, reqs[..i]), reqs[i])
  {
    assert reqs[..i + 1][..i] == reqs[..i];
  }

  /** The world a request meets, and the answer it gets, are those of its own turn. */
  lemma TurnOf(script: Script, net: Net, reqs: seq<Request>, i: nat)
    requires i < |reqs|
    ensures var before := AskAll(script, net, reqs[..i]);
      && |before.log| == |net.log| + i < |AskAll(script, net, reqs).log|
      && AskAll(script, net, reqs).log[|net.log| + i]
         == Exchange(reqs[i], ReplyTo(before.world, reqs[i], script(|net.log| + i)))
  {
    AskNext(script, net, reqs, i);
    AskAllSays(script, net, reqs[..i]);
    AskAllPrefix(script, net, reqs, i + 1);
    AskAllSays(script, net, reqs);
  }

  lemma {:induction false} AskAllConcat(script: Script, net: Net, first: seq<Request>, second: seq<Request>)
    ensures AskAll(script, net, first + second) == AskAll(script, AskAll(script, net, first), second)
  {
    var both := first + second;
    if second == [] {
      assert both == first;
    } else {
      assert both[..|both| - 1] == first + second[..|second| - 1];
      AskAllConcat(script, net, first, second[..|second| - 1]);
    }
  }

  /** What the requests addressed to one machine make of it, the rest skipped. */
  function Fate(script: Script, m: Machine, reqs: seq<Request>, tick: nat, node: NodeId): Machine {
    if reqs == [] then m
    else
      var n := |reqs| - 1;
      var before := Fate(script, m, reqs[..n], tick, node);
      if reqs[n].node == node then Serve(before, reqs[n].verb, script(tick + n), tick + n) else before
  }

  /** A machine is changed only by requests addressed to it. */
  lemma {:induction false} FateDecides(script: Script, net: Net, reqs: seq<Request>, node: NodeId)
    ensures At(AskAll(script, net, reqs).world, node) == Fate(script, At(net.world, node), reqs, |net.log|, node)
  {
    if reqs != [] {
      FateDecides(script, net, reqs[..|reqs| - 1], node);
      AskAllSays(script, net, reqs[..|reqs| - 1]);
    }
  }

  lemma {:induction false} FateSkips(script: Script, m: Machine, reqs: seq<Request>, tick: nat, node: NodeId, i: nat, j: nat)
    requires i <= j <= |reqs|
    requires forall k | i <= k < j :: reqs[k].node != node
    ensures Fate(script, m, reqs[..j], tick, node) == Fate(script, m, reqs[..i], tick, node)
    decreases j
  {
    if i < j {
      assert reqs[..j][..j - 1] == reqs[..j - 1];
      FateSkips(script, m, reqs, tick, node, i, j - 1);
    }
  }

  lemma FateTurn(script: Script, m: Machine, reqs: seq<Request>, tick: nat, node: NodeId, i: nat)
    requires i < |reqs| && reqs[i].node == node
    ensures Fate(script, m, reqs[..i + 1], tick, node)
         == Serve(Fate(script, m, reqs[..i], tick, node), reqs[i].verb, script(tick + i), tick + i)
  {
    assert reqs[..i + 1][..i] == reqs[..i];
  }

  /** One request to a machine in a whole list. */
  lemma OneTurn(script: Script, m: Machine, reqs: seq<Request>, tick: nat, node: NodeId, i: nat)
    requires i < |reqs| && reqs[i].node == node
    requires forall k | 0 <= k < |reqs| && k != i :: reqs[k].node != node
    ensures Fate(script, m, reqs, tick, node) == Serve(m, reqs[i].verb, script(tick + i), tick + i)
  {
    assert reqs[..|reqs|] == reqs && reqs[..0] == [];
    FateSkips(script, m, reqs, tick, node, 0, i);
    FateTurn(script, m, reqs, tick, node, i);
    FateSkips(script, m, reqs, tick, node, i + 1, |reqs|);
  }

  /** Two requests to a machine in a whole list. */
  lemma TwoTurns(script: Script, m: Machine, reqs: seq<Request>, tick: nat, node: NodeId, i: nat, j: nat)
    requires i < j < |reqs| && reqs[i].node == reqs[j].node == node
    requires forall k | 0 <= k < |reqs| && k != i && k != j :: reqs[k].node != node
    ensures Fate(script, m, reqs, tick, node)
         == Serve(Serve(m, reqs[i].verb, script(tick + i), tick + i), reqs[j].verb, script(tick + j), tick + j)
  {
    OneTurn(script, m, reqs[..j], tick, node, i);
    FateTurn(script, m, reqs, tick, node, j);
    assert reqs[..|reqs|] == reqs;
    FateSkips(script, m, reqs, tick, node, j + 1, |reqs|);
  }

  /** Three requests to a machine in a whole list. */
  lemma ThreeTurns(script: Script, m: Machine, reqs: seq<Request>, tick: nat, node: NodeId, i: nat, j: nat, k: nat)
    requires i < j < k < |reqs| && reqs[i].node == reqs[j].node == reqs[k].node == node
    requires forall l | 0 <= l < |reqs| && l != i && l != j && l != k :: reqs[l].node != node
    ensures Fate(script, m, reqs, tick, node)
         == Serve(Serve(Serve(m, reqs[i].verb, script(tick + i), tick + i), reqs[j].verb, script(tick + j), tick + j),
                  reqs[k].verb, script(tick + k), tick + k)
  {
    TwoTurns(script, m, reqs[..k], tick, node, i, j);
    FateTurn(script, m, reqs, tick, node, k);
    assert reqs[..|reqs|] == reqs;
    FateSkips(script, m, reqs, tick, node, k + 1, |reqs|);
  }
}

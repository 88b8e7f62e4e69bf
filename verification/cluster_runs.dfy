/** Whole runs of ceremonies, one at a time, in any order and against any behaviour of
    the ranks, with every prepare under an epoch never used before. */
module ClusterRuns {
  import opened Wrappers
  import opened Fleet
  import opened Resolve
  import opened RankNet
  import opened Ceremonies
  import opened ClusterSafety

  datatype Op =
    | OpPrepare(site: Site, sel: Selection, epoch: Epoch)
    | OpCommit(epoch: Epoch)
    | OpAbort(epoch: Epoch)
    | OpStop
    | OpSupervise

  /** The driver, the epochs ever handed out, and those whose accepted prepare was
      replaced in the slot by a later one. */
  datatype History = History(d: Driver, used: set<Epoch>, superseded: set<Epoch>)

  function Step(script: Script, h: History, op: Op): (r: History)
    requires Valid(h.d)
    ensures Valid(r.d)
  {
    match op
    case OpPrepare(site, sel, e) =>
      PrepareKeepsValid(script, h.d, site, sel, e);
      var (d, a) := PrepareStep(script, h.d, site, sel, e);
      var replaced := a.Answered? && a.mayCommit && h.d.pending.Some?;
      History(d, h.used + {e}, h.superseded + if replaced then {h.d.pending.value.epoch} else {})
    case OpCommit(e) =>
      CommitKeepsValid(script, h.d, e);
      h.(d := CommitStep(script, h.d, e).0)
    case OpAbort(e) =>
      h.(d := AbortStep(script, h.d, e))
    case OpStop =>
      StopKeepsValid(script, h.d);
      h.(d := StopStep(script, h.d).0)
    case OpSupervise =>
      h.(d := SuperviseStep(script, h.d).0)
  }

  predicate Fresh(h: History, op: Op) {
    op.OpPrepare? ==> op.epoch !in h.used
  }

  // ---------------------------------------------------------------- what the log shows

  predicate OfEpoch(v: Verb, e: Epoch) {
    (v.Prepare? || v.Commit? || v.Abort?) && v.epoch == e
  }

  predicate NoEpoch(v: Verb) {
    v.Alive? || v.Stop?
  }

  predicate AcceptedIn(log: seq<Exchange>, node: NodeId, e: Epoch) {
    exists x | x in log ::
      x.request.node == node && x.request.verb.Prepare? && x.request.verb.epoch == e && x.reply.Prepared?
  }

  /** A commit of the reservation was answered with a container. */
  predicate SpentIn(log: seq<Exchange>, node: NodeId, e: Epoch) {
    exists x | x in log :: x.request.node == node && x.request.verb == Commit(e) && x.reply.Started?
  }

  predicate ReleasedIn(log: seq<Exchange>, node: NodeId, e: Epoch) {
    exists x | x in log :: x.request.node == node && x.request.verb == Abort(e)
  }

  predicate SameCommit(x: Exchange, y: Exchange) {
    x.request.node == y.request.node && x.request.verb.Commit? && x.request.verb == y.request.verb
  }

  ghost predicate OnceCommitted(log: seq<Exchange>) {
    forall i, j | 0 <= i < j < |log| :: !SameCommit(log[i], log[j])
  }

  // ---------------------------------------------------------------- the ledger

  predicate Held(pending: Option<Pending>, node: NodeId, e: Epoch) {
    pending.Some? && pending.value.epoch == e && Known(node, pending.value.targets)
  }

  ghost predicate PendingUntouched(log: seq<Exchange>, p: Pending) {
    && (forall x | x in log :: x.request.verb != Commit(p.epoch) && x.request.verb != Abort(p.epoch))
    && forall n :: AcceptedIn(log, n, p.epoch) <==> Known(n, p.targets)
  }

  ghost predicate Untouched(log: seq<Exchange>, superseded: set<Epoch>) {
    forall x | x in log :: (x.request.verb.Commit? || x.request.verb.Abort?) ==> x.request.verb.epoch !in superseded
  }

  ghost predicate Accounts(log: seq<Exchange>, pending: Option<Pending>, superseded: set<Epoch>) {
    forall n, e | AcceptedIn(log, n, e) && e !in superseded && !(pending.Some? && pending.value.epoch == e) ::
      SpentIn(log, n, e) <==> !ReleasedIn(log, n, e)
  }

  ghost predicate Ledger(log: seq<Exchange>, pending: Option<Pending>, used: set<Epoch>, superseded: set<Epoch>) {
    && (forall x, e | x in log && OfEpoch(x.request.verb, e) :: e in used)
    && superseded <= used && Untouched(log, superseded)
    && (pending.Some? ==>
          && pending.value.epoch in used && pending.value.epoch !in superseded
          && PendingUntouched(log, pending.value))
    && Accounts(log, pending, superseded)
    && OnceCommitted(log)
  }

  ghost predicate Inv(h: History) {
    && Valid(h.d)
    && (h.d.pending.None? || h.d.running.None?)
    && Ledger(h.d.net.log, h.d.pending, h.used, h.superseded)
  }

  /** Each accepted reservation is in exactly one of four places: held by the slot, spent
      by a commit, sent a release, or superseded by a later accepted prepare. */
  ghost predicate InOnePlace(h: History, node: NodeId, e: Epoch) {
    var log := h.d.net.log;
    var held, spent, released, replaced :=
      Held(h.d.pending, node, e), SpentIn(log, node, e), ReleasedIn(log, node, e), e in h.superseded;
    || (held && !spent && !released && !replaced)
    || (!held && spent && !released && !replaced)
    || (!held && !spent && released && !replaced)
    || (!held && !spent && !released && replaced)
  }

  lemma LedgerIsExact(h: History, node: NodeId, e: Epoch)
    requires Inv(h) && AcceptedIn(h.d.net.log, node, e)
    ensures InOnePlace(h, node, e)
  {
    var log := h.d.net.log;
    if SpentIn(log, node, e) {
      var x :| x in log && x.request.node == node && x.request.verb == Commit(e) && x.reply.Started?;
    }
    if ReleasedIn(log, node, e) {
      var x :| x in log && x.request.node == node && x.request.verb == Abort(e);
    }
  }

  // ---------------------------------------------------------------- one more stretch of conversation

  /** Nothing about reservations was said. */
  lemma LedgerIgnoresOthers(
    log: seq<Exchange>, said: seq<Exchange>, pending: Option<Pending>, used: set<Epoch>, superseded: set<Epoch>)
    requires Ledger(log, pending, used, superseded)
    requires forall x | x in said :: NoEpoch(x.request.verb)
    ensures Ledger(log + said, pending, used, superseded)
  {
    forall n, e
      ensures AcceptedIn(log + said, n, e) <==> AcceptedIn(log, n, e)
      ensures SpentIn(log + said, n, e) <==> SpentIn(log, n, e)
      ensures ReleasedIn(log + said, n, e) <==> ReleasedIn(log, n, e)
    {
      SpeaksOf(log, said, n, e);
    }
    OnceMore(log, said);
  }

  lemma SpeaksOf(log: seq<Exchange>, said: seq<Exchange>, n: NodeId, e: Epoch)
    ensures AcceptedIn(log + said, n, e) <==> AcceptedIn(log, n, e) || AcceptedIn(said, n, e)
    ensures SpentIn(log + said, n, e) <==> SpentIn(log, n, e) || SpentIn(said, n, e)
    ensures ReleasedIn(log + said, n, e) <==> ReleasedIn(log, n, e) || ReleasedIn(said, n, e)
  {
    assert forall x :: x in log + said <==> x in log || x in said;
  }

  lemma OnceMore(log: seq<Exchange>, said: seq<Exchange>)
    requires OnceCommitted(log) && OnceCommitted(said)
    requires forall x, y | x in log && y in said :: !SameCommit(x, y)
    ensures OnceCommitted(log + said)
  {
    var both := log + said;
    forall i, j | 0 <= i < j < |both|
      ensures !SameCommit(both[i], both[j])
    {
      if i < |log| <= j {
        assert both[i] in log && both[j] in said;
      } else if i >= |log| {
        assert both[i] == said[i - |log|] && both[j] == said[j - |log|];
      }
    }
  }

  /** What a commit or an abort of the held prepare says: about that epoch alone, each
      commit once, and each of its targets either spent or released. */
  ghost predicate Consumes(p: Pending, said: seq<Exchange>) {
    && (forall x | x in said ::
          NoEpoch(x.request.verb) || x.request.verb == Commit(p.epoch) || x.request.verb == Abort(p.epoch))
    && OnceCommitted(said)
    && forall n | Known(n, p.targets) :: SpentIn(said, n, p.epoch) <==> !ReleasedIn(said, n, p.epoch)
  }

  lemma AccountsConsumed(log: seq<Exchange>, said: seq<Exchange>, p: Pending, used: set<Epoch>, superseded: set<Epoch>)
    requires Ledger(log, Some(p), used, superseded) && Consumes(p, said)
    ensures Accounts(log + said, None, superseded)
  {
    forall n, e | AcceptedIn(log + said, n, e) && e !in superseded
      ensures SpentIn(log + said, n, e) <==> !ReleasedIn(log + said, n, e)
    {
      SpeaksOf(log, said, n, e);
      if e == p.epoch {
        assert Known(n, p.targets);
      }
    }
  }

  lemma LedgerConsumed(log: seq<Exchange>, said: seq<Exchange>, p: Pending, used: set<Epoch>, superseded: set<Epoch>)
    requires Ledger(log, Some(p), used, superseded) && Consumes(p, said)
    ensures Ledger(log + said, None, used, superseded)
  {
    AccountsConsumed(log, said, p, used, superseded);
    OnceMore(log, said);
  }

  /** What a prepare says: about its own, fresh epoch, and no commit. */
  ghost predicate Reserves(e: Epoch, said: seq<Exchange>) {
    forall x | x in said :: (x.request.verb.Prepare? && x.request.verb.epoch == e) || x.request.verb == Abort(e)
  }

  lemma FreshSaysNothing(log: seq<Exchange>, used: set<Epoch>, n: NodeId, e: Epoch)
    requires forall x, f | x in log && OfEpoch(x.request.verb, f) :: f in used
    requires e !in used
    ensures !AcceptedIn(log, n, e) && !SpentIn(log, n, e) && !ReleasedIn(log, n, e)
  {
    assert forall x | x in log :: !OfEpoch(x.request.verb, e);
  }

  lemma OthersSayNothing(said: seq<Exchange>, n: NodeId, e: Epoch, f: Epoch)
    requires Reserves(e, said) && f != e
    ensures !AcceptedIn(said, n, f) && !SpentIn(said, n, f) && !ReleasedIn(said, n, f)
  {
  }

  lemma ReservesNoCommit(log: seq<Exchange>, said: seq<Exchange>, e: Epoch)
    requires OnceCommitted(log) && Reserves(e, said)
    ensures OnceCommitted(log + said)
  {
    assert forall i | 0 <= i < |said| :: said[i] in said;
    OnceMore(log, said);
  }

  /** A refused prepare released whoever accepted it; the slot is untouched. */
  lemma LedgerRefused(
    log: seq<Exchange>, said: seq<Exchange>, pending: Option<Pending>, used: set<Epoch>, superseded: set<Epoch>, e: Epoch)
    requires Ledger(log, pending, used, superseded) && e !in used && Reserves(e, said)
    requires forall n | AcceptedIn(said, n, e) :: ReleasedIn(said, n, e)
    ensures Ledger(log + said, pending, used + {e}, superseded)
  {
    ReservesNoCommit(log, said, e);
    forall n, f
      ensures f != e ==> (AcceptedIn(log + said, n, f) <==> AcceptedIn(log, n, f))
      ensures f != e ==> (SpentIn(log + said, n, f) <==> SpentIn(log, n, f))
      ensures f != e ==> (ReleasedIn(log + said, n, f) <==> ReleasedIn(log, n, f))
      ensures AcceptedIn(log + said, n, e) ==> ReleasedIn(log + said, n, e) && !SpentIn(log + said, n, e)
    {
      SpeaksOf(log, said, n, f);
      SpeaksOf(log, said, n, e);
      FreshSaysNothing(log, used, n, e);
      if f != e {
        OthersSayNothing(said, n, e, f);
      }
    }
  }

  /** An accepted prepare takes the slot, and whatever was there is superseded. */
  lemma LedgerHeld(
    log: seq<Exchange>, said: seq<Exchange>, pending: Option<Pending>, used: set<Epoch>, superseded: set<Epoch>, p: Pending)
    requires Ledger(log, pending, used, superseded) && p.epoch !in used && Reserves(p.epoch, said)
    requires forall x | x in said :: x.request.verb.Prepare?
    requires forall n :: AcceptedIn(said, n, p.epoch) <==> Known(n, p.targets)
    ensures var replaced := if pending.Some? then {pending.value.epoch} else {};
      Ledger(log + said, Some(p), used + {p.epoch}, superseded + replaced)
  {
    ReservesNoCommit(log, said, p.epoch);
    forall n, f
      ensures f != p.epoch ==> (AcceptedIn(log + said, n, f) <==> AcceptedIn(log, n, f))
      ensures f != p.epoch ==> (SpentIn(log + said, n, f) <==> SpentIn(log, n, f))
      ensures f != p.epoch ==> (ReleasedIn(log + said, n, f) <==> ReleasedIn(log, n, f))
      ensures AcceptedIn(log + said, n, p.epoch) <==> Known(n, p.targets)
    {
      SpeaksOf(log, said, n, f);
      SpeaksOf(log, said, n, p.epoch);
      FreshSaysNothing(log, used, n, p.epoch);
      if f != p.epoch {
        OthersSayNothing(said, n, p.epoch, f);
      }
    }
    forall x | x in log
      ensures x.request.verb != Commit(p.epoch) && x.request.verb != Abort(p.epoch)
    {
      assert !OfEpoch(x.request.verb, p.epoch);
    }
  }

  // ---------------------------------------------------------------- what each ceremony says

  /** Commits of distinct targets are never the same commit. */
  lemma CommitsOnce(p: Pending, commits: seq<Exchange>, rest: seq<Exchange>, k: nat)
    requires DistinctTargets(p.targets) && k <= |p.targets|
    requires Asked(commits, Commits(p.targets, p.epoch)[..k])
    requires forall x | x in rest :: !x.request.verb.Commit?
    ensures OnceCommitted(commits + rest)
  {
    assert forall i | 0 <= i < |rest| :: rest[i] in rest;
    OnceMore(commits, rest);
  }

  lemma CommitOf(p: Pending, commits: seq<Exchange>, k: nat, j: nat)
    requires DistinctTargets(p.targets) && j < |p.targets| && k <= |p.targets|
    requires Asked(commits, Commits(p.targets, p.epoch)[..k])
    ensures var n := p.targets[j].assignment.node;
      && !ReleasedIn(commits, n, p.epoch)
      && (SpentIn(commits, n, p.epoch) <==> j < k && commits[j].reply.Started?)
  {
    var n := p.targets[j].assignment.node;
    if SpentIn(commits, n, p.epoch) {
      var x :| x in commits && x.request.node == n && x.request.verb == Commit(p.epoch) && x.reply.Started?;
      var i :| 0 <= i < k && commits[i] == x;
      assert i == j;
    }
    if j < k {
      assert commits[j] in commits;
    }
  }

  lemma CompensationOf(p: Pending, said: seq<Exchange>, comps: seq<Exchange>, k: nat, j: nat)
    requires DistinctTargets(p.targets) && j < |p.targets| && k <= |said|
    requires Asked(comps, Compensations(p, said, k))
    ensures var n := p.targets[j].assignment.node;
      && !SpentIn(comps, n, p.epoch)
      && (ReleasedIn(comps, n, p.epoch) <==> j >= k)
  {
    var n := p.targets[j].assignment.node;
    if ReleasedIn(comps, n, p.epoch) {
      var x :| x in comps && x.request.node == n && x.request.verb == Abort(p.epoch);
      var i :| 0 <= i < |comps| && comps[i] == x;
      assert i == j;
    }
    assert comps[j] in comps;
  }

  lemma UndoneConsumes(p: Pending, said: seq<Exchange>, k: nat)
    requires DistinctTargets(p.targets) && Undone(p, said, k)
    ensures Consumes(p, said)
  {
    var commits, comps := said[..k + 1], said[k + 1..];
    assert said == commits + comps;
    CommitsOnce(p, commits, comps, k + 1);
    forall n | Known(n, p.targets)
      ensures SpentIn(said, n, p.epoch) <==> !ReleasedIn(said, n, p.epoch)
    {
      var j :| 0 <= j < |p.targets| && p.targets[j].assignment.node == n;
      SpeaksOf(commits, comps, n, p.epoch);
      CommitOf(p, commits, k + 1, j);
      CompensationOf(p, said, comps, k, j);
      assert j < k ==> said[..k][j] in said[..k];
    }
  }

  /** Every commit answered started, and then only the living and the stopping are asked. */
  lemma StartedConsumes(p: Pending, said: seq<Exchange>)
    requires DistinctTargets(p.targets) && |p.targets| <= |said|
    requires Asked(said[..|p.targets|], Commits(p.targets, p.epoch)) && AllStarted(said[..|p.targets|])
    requires forall x | x in said[|p.targets|..] :: NoEpoch(x.request.verb)
    ensures Consumes(p, said)
  {
    var k := |p.targets|;
    var commits, rest := said[..k], said[k..];
    assert said == commits + rest && Commits(p.targets, p.epoch)[..k] == Commits(p.targets, p.epoch);
    CommitsOnce(p, commits, rest, k);
    forall n | Known(n, p.targets)
      ensures SpentIn(said, n, p.epoch) <==> !ReleasedIn(said, n, p.epoch)
    {
      var j :| 0 <= j < k && p.targets[j].assignment.node == n;
      SpeaksOf(commits, rest, n, p.epoch);
      CommitOf(p, commits, k, j);
      assert commits[j] in commits;
    }
  }

  lemma AccountedConsumes(p: Pending, said: seq<Exchange>, a: CommitAnswer)
    requires DistinctTargets(p.targets) && Accounted(p, said, a)
    ensures Consumes(p, said)
  {
    var n := |p.targets|;
    match a {
      case Committed(started) =>
        StartedConsumes(p, said);
      case CouldNotStart(name) =>
        var k :| 0 <= k < n && Undone(p, said, k) && name == p.targets[k].name;
        UndoneConsumes(p, said, k);
      case Died(_) =>
        var checks, stops := said[n..2 * n], said[2 * n..];
        assert said[n..] == checks + stops;
        assert forall x | x in checks :: NoEpoch(x.request.verb);
        assert forall x | x in stops :: NoEpoch(x.request.verb);
        StartedConsumes(p, said);
    }
  }

  lemma AbortConsumes(p: Pending, said: seq<Exchange>)
    requires DistinctTargets(p.targets) && Asked(said, Aborts(p.targets, p.epoch))
    ensures Consumes(p, said)
  {
    forall n | Known(n, p.targets)
      ensures SpentIn(said, n, p.epoch) <==> !ReleasedIn(said, n, p.epoch)
    {
      var j :| 0 <= j < |p.targets| && p.targets[j].assignment.node == n;
      assert said[j] in said;
    }
  }

  lemma AcceptedIsPicked(p: Pending, said: seq<Exchange>, n: NodeId)
    requires Asked(said, Reservations(p.targets, p.epoch)) && AcceptedIn(said, n, p.epoch)
    ensures Known(n, Pick(p.targets, said, SaidYes))
  {
    PickMembers(p.targets, said, SaidYes);
    var x :| x in said && x.request.node == n && x.request.verb.Prepare? && x.reply.Prepared?;
    var i :| 0 <= i < |said| && said[i] == x;
    var accepted := Pick(p.targets, said, SaidYes);
    assert p.targets[i] in accepted;
    var k :| 0 <= k < |accepted| && accepted[k] == p.targets[i];
  }

  lemma PickedIsAccepted(p: Pending, said: seq<Exchange>, n: NodeId)
    requires Asked(said, Reservations(p.targets, p.epoch)) && Known(n, Pick(p.targets, said, SaidYes))
    ensures AcceptedIn(said, n, p.epoch)
  {
    var accepted := Pick(p.targets, said, SaidYes);
    PickMembers(p.targets, said, SaidYes);
    var i :| 0 <= i < |accepted| && accepted[i].assignment.node == n;
    assert accepted[i] in accepted;
    var k :| 0 <= k < |p.targets| && p.targets[k] == accepted[i] && SaidYes(said[k].reply);
    assert said[k] in said;
  }

  /** The reservations of a prepare, and who accepted them. */
  lemma ReservationsSay(p: Pending, said: seq<Exchange>)
    requires DistinctTargets(p.targets) && Asked(said, Reservations(p.targets, p.epoch))
    ensures Reserves(p.epoch, said) && forall x | x in said :: x.request.verb.Prepare?
    ensures forall n :: AcceptedIn(said, n, p.epoch) <==> Known(n, Pick(p.targets, said, SaidYes))
  {
    forall n
      ensures AcceptedIn(said, n, p.epoch) <==> Known(n, Pick(p.targets, said, SaidYes))
    {
      if AcceptedIn(said, n, p.epoch) {
        AcceptedIsPicked(p, said, n);
      }
      if Known(n, Pick(p.targets, said, SaidYes)) {
        PickedIsAccepted(p, said, n);
      }
    }
  }

  // ---------------------------------------------------------------- one ceremony

  /** A reservation everyone accepted is held; one somebody refused is aborted at exactly
      the ranks that accepted it, in order, and the slot is left as it was. */
  lemma ReserveSays(script: Script, d: Driver, p: Pending) returns (asked: seq<Exchange>, aborted: seq<Exchange>)
    requires DistinctTargets(p.targets)
    ensures Asked(asked, Reservations(p.targets, p.epoch))
    ensures var (after, a) := Reserve(script, d, p);
      var accepted := Pick(p.targets, asked, SaidYes);
      && after.net.log == d.net.log + (asked + aborted)
      && after.running == d.running
      && a.Answered? && a.epoch == p.epoch && a.answers == Answers(p.targets, asked)
      && (a.mayCommit <==> accepted == p.targets)
      && (a.mayCommit ==> aborted == [] && after.pending == Some(p))
      && (!a.mayCommit ==> Asked(aborted, Aborts(accepted, p.epoch)) && after.pending == d.pending)
  {
    var one := AskAll(script, d.net, Reservations(p.targets, p.epoch));
    asked := Spoken(script, d.net, Reservations(p.targets, p.epoch));
    aborted := [];
    var accepted := Pick(p.targets, asked, SaidYes);
    PickWhole(p.targets, asked, SaidYes);
    if |accepted| != |p.targets| {
      aborted := Spoken(script, one, Aborts(accepted, p.epoch));
      assert d.net.log + asked + aborted == d.net.log + (asked + aborted);
    } else {
      assert asked + aborted == asked;
    }
  }

  /** What asking those requests adds to the log. */
  lemma Spoken(script: Script, net: Net, reqs: seq<Request>) returns (said: seq<Exchange>)
    ensures said == Said(net, AskAll(script, net, reqs)) && Asked(said, reqs)
    ensures AskAll(script, net, reqs).log == net.log + said
  {
    AskAllSays(script, net, reqs);
    said := Said(net, AskAll(script, net, reqs));
  }

  lemma {:induction false} PickWhole<T>(items: seq<T>, said: seq<Exchange>, keep: Reply -> bool)
    requires |items| <= |said|
    ensures |Pick(items, said, keep)| <= |items|
    ensures |Pick(items, said, keep)| == |items| ==> Pick(items, said, keep) == items
  {
    if items != [] {
      PickWhole(items[..|items| - 1], said, keep);
    }
  }

  lemma RefusedSays(p: Pending, asked: seq<Exchange>, aborted: seq<Exchange>)
    requires DistinctTargets(p.targets) && Asked(asked, Reservations(p.targets, p.epoch))
    requires Asked(aborted, Aborts(Pick(p.targets, asked, SaidYes), p.epoch))
    ensures Reserves(p.epoch, asked + aborted)
    ensures forall n | AcceptedIn(asked + aborted, n, p.epoch) :: ReleasedIn(asked + aborted, n, p.epoch)
  {
    ReservationsSay(p, asked);
    var accepted := Pick(p.targets, asked, SaidYes);
    forall n | AcceptedIn(asked + aborted, n, p.epoch)
      ensures ReleasedIn(asked + aborted, n, p.epoch)
    {
      SpeaksOf(asked, aborted, n, p.epoch);
      assert Known(n, accepted);
      var i :| 0 <= i < |accepted| && accepted[i].assignment.node == n;
      assert aborted[i] in aborted;
    }
  }

  lemma ReserveKeepsLedger(script: Script, d: Driver, p: Pending, used: set<Epoch>, superseded: set<Epoch>)
    requires DistinctTargets(p.targets) && p.epoch !in used
    requires Ledger(d.net.log, d.pending, used, superseded)
    ensures var (after, a) := Reserve(script, d, p);
      var replaced := if a.Answered? && a.mayCommit && d.pending.Some? then {d.pending.value.epoch} else {};
      && after.running == d.running
      && Ledger(after.net.log, after.pending, used + {p.epoch}, superseded + replaced)
  {
    var asked, aborted := ReserveSays(script, d, p);
    var a := Reserve(script, d, p).1;
    if a.mayCommit {
      ReservationsSay(p, asked);
      LedgerHeld(d.net.log, asked, d.pending, used, superseded, p);
      assert asked + aborted == asked;
    } else {
      RefusedSays(p, asked, aborted);
      LedgerRefused(d.net.log, asked + aborted, d.pending, used, superseded, p.epoch);
      assert superseded + {} == superseded;
    }
  }

  lemma PrepareKeepsLedger(script: Script, h: History, site: Site, sel: Selection, e: Epoch)
    requires Inv(h) && e !in h.used
    ensures Inv(Step(script, h, OpPrepare(site, sel, e)))
  {
    PrepareKeepsValid(script, h.d, site, sel, e);
    if h.d.running.Some? || ResolveOf(site, sel, e).Err? {
      LedgerRefused(h.d.net.log, [], h.d.pending, h.used, h.superseded, e);
      assert h.d.net.log + [] == h.d.net.log && h.superseded + {} == h.superseded;
    } else {
      ResolvedTargets(site, sel, e);
      ReserveKeepsLedger(script, h.d, ResolveOf(site, sel, e).value, h.used, h.superseded);
    }
  }

  lemma CommitExtends(script: Script, d: Driver, e: Epoch)
    requires Valid(d)
    ensures d.net.log <= CommitStep(script, d, e).0.net.log
  {
    if d.pending.Some? && d.pending.value.epoch == e {
      var p := d.pending.value;
      var k := StartsFrom(script, d.net, Commits(p.targets, e), 0);
      if k < |p.targets| {
        UndoTranscript(script, d, p, k);
        AskAllSays(script, d.net, UndoList(script, d.net, p, k));
      } else {
        SettleTranscript(script, d, p);
        AskAllSays(script, d.net, SettleList(script, d.net, p));
        AskAllSays(script, d.net, TearDownList(script, d.net, p));
      }
    }
  }

  lemma CommitConsumes(script: Script, d: Driver, e: Epoch, after: Driver, said: seq<Exchange>)
    requires Valid(d) && d.pending.Some? && d.pending.value.epoch == e
    requires after == CommitStep(script, d, e).0 && said == Said(d.net, after.net)
    ensures after.pending.None? && Consumes(d.pending.value, said)
  {
    WholeOrUndone(script, d, e);
    AccountedConsumes(d.pending.value, said, CommitStep(script, d, e).1);
  }

  lemma CommitLedger(script: Script, d: Driver, e: Epoch, after: Driver, used: set<Epoch>, superseded: set<Epoch>)
    requires Valid(d) && d.pending.Some? && d.pending.value.epoch == e
    requires Ledger(d.net.log, d.pending, used, superseded)
    requires after == CommitStep(script, d, e).0
    ensures after.pending.None? && Ledger(after.net.log, None, used, superseded)
  {
    var said := Said(d.net, after.net);
    CommitExtends(script, d, e);
    CommitConsumes(script, d, e, after, said);
    LedgerConsumed(d.net.log, said, d.pending.value, used, superseded);
    assert after.net.log == d.net.log + said;
  }

  lemma CommitKeepsLedger(script: Script, h: History, e: Epoch)
    requires Inv(h)
    ensures Inv(Step(script, h, OpCommit(e)))
  {
    CommitKeepsValid(script, h.d, e);
    if h.d.pending.Some? && h.d.pending.value.epoch == e {
      CommitLedger(script, h.d, e, CommitStep(script, h.d, e).0, h.used, h.superseded);
    }
  }

  lemma AbortKeepsLedger(script: Script, h: History, e: Epoch)
    requires Inv(h)
    ensures Inv(Step(script, h, OpAbort(e)))
  {
    var d := h.d;
    if d.pending.Some? && d.pending.value.epoch == e {
      var p := d.pending.value;
      var after := AskAll(script, d.net, Aborts(p.targets, e));
      AskAllSays(script, d.net, Aborts(p.targets, e));
      AbortConsumes(p, Said(d.net, after));
      LedgerConsumed(d.net.log, Said(d.net, after), p, h.used, h.superseded);
      assert after.log == d.net.log + Said(d.net, after);
    }
  }

  /** A stop asks every recorded rank once, in order, and keeps exactly those that did
      not say they stopped; the record clears when there are none. */
  lemma StopSays(script: Script, d: Driver) returns (said: seq<Exchange>)
    requires Valid(d) && d.running.Some?
    ensures var r, after := d.running.value, StopStep(script, d).0;
      && Asked(said, Stops(r.started, r.targets))
      && after.net.log == d.net.log + said
      && after.pending == d.pending
      && var left := Pick(r.started, said, NotStopped);
         after.running == if left == [] then None else Some(r.(started := left))
  {
    var r := d.running.value;
    AskAllSays(script, d.net, Stops(r.started, r.targets));
    said := Said(d.net, AskAll(script, d.net, Stops(r.started, r.targets)));
  }

  lemma NoEpochAsked(said: seq<Exchange>, reqs: seq<Request>)
    requires Asked(said, reqs) && forall r | r in reqs :: NoEpoch(r.verb)
    ensures forall x | x in said :: NoEpoch(x.request.verb)
  {
    forall x | x in said
      ensures NoEpoch(x.request.verb)
    {
      var i :| 0 <= i < |said| && said[i] == x;
      assert reqs[i] in reqs;
    }
  }

  lemma StopKeepsLedger(script: Script, h: History)
    requires Inv(h)
    ensures Inv(Step(script, h, OpStop))
  {
    StopKeepsValid(script, h.d);
    if h.d.running.Some? {
      var r := h.d.running.value;
      var said := StopSays(script, h.d);
      NoEpochAsked(said, Stops(r.started, r.targets));
      LedgerIgnoresOthers(h.d.net.log, said, h.d.pending, h.used, h.superseded);
    }
  }

  lemma SuperviseKeepsLedger(script: Script, h: History)
    requires Inv(h)
    ensures Inv(Step(script, h, OpSupervise))
  {
    if h.d.running.Some? {
      var asked := RollCallLedger(script, h.d, h.used, h.superseded);
      StopKeepsLedger(script, h.(d := h.d.(net := asked)));
    }
  }

  lemma RollCallLedger(script: Script, d: Driver, used: set<Epoch>, superseded: set<Epoch>) returns (asked: Net)
    requires Valid(d) && d.running.Some? && Ledger(d.net.log, d.pending, used, superseded)
    ensures asked == AskAll(script, d.net, RollCall(d.running.value.started, d.running.value.targets))
    ensures Ledger(asked.log, d.pending, used, superseded)
  {
    var reqs := RollCall(d.running.value.started, d.running.value.targets);
    asked := AskAll(script, d.net, reqs);
    AskAllSays(script, d.net, reqs);
    NoEpochAsked(Said(d.net, asked), reqs);
    LedgerIgnoresOthers(d.net.log, Said(d.net, asked), d.pending, used, superseded);
    assert asked.log == d.net.log + Said(d.net, asked);
  }

  // ---------------------------------------------------------------- every run

  ghost function Run(script: Script, h: History, ops: seq<Op>): (r: History)
    requires Valid(h.d)
    ensures Valid(r.d)
  {
    if ops == [] then h else Step(script, Run(script, h, ops[..|ops| - 1]), ops[|ops| - 1])
  }

  ghost predicate FreshRun(script: Script, h: History, ops: seq<Op>)
    requires Valid(h.d)
  {
    forall i | 0 <= i < |ops| :: Fresh(Run(script, h, ops[..i]), ops[i])
  }

  function Start(world: World): History {
    History(Driver(None, None, Net(world, [])), {}, {})
  }

  lemma StartInv(world: World)
    ensures Inv(Start(world))
  {
  }

  lemma StepKeepsInv(script: Script, h: History, op: Op)
    requires Inv(h) && Fresh(h, op)
    ensures Inv(Step(script, h, op))
  {
    match op
    case OpPrepare(site, sel, e) => PrepareKeepsLedger(script, h, site, sel, e);
    case OpCommit(e) => CommitKeepsLedger(script, h, e);
    case OpAbort(e) => AbortKeepsLedger(script, h, e);
    case OpStop => StopKeepsLedger(script, h);
    case OpSupervise => SuperviseKeepsLedger(script, h);
  }

  lemma {:induction false} RunKeepsInv(script: Script, world: World, ops: seq<Op>)
    requires FreshRun(script, Start(world), ops)
    ensures Inv(Run(script, Start(world), ops))
  {
    StartInv(world);
    if ops != [] {
      var init := ops[..|ops| - 1];
      forall i | 0 <= i < |init|
        ensures Fresh(Run(script, Start(world), init[..i]), init[i])
      {
        assert init[..i] == ops[..i];
      }
      RunKeepsInv(script, world, init);
      StepKeepsInv(script, Run(script, Start(world), init), ops[|ops| - 1]);
    }
  }

  /** Over every run with fresh epochs: the two slots are never both full, no machine is
      sent a second commit of one epoch, and every reservation ever accepted is in
      exactly one of its four places. */
  lemma EveryRun(script: Script, world: World, ops: seq<Op>)
    requires FreshRun(script, Start(world), ops)
    ensures var h := Run(script, Start(world), ops);
      && (h.d.pending.None? || h.d.running.None?)
      && OnceCommitted(h.d.net.log)
      && forall n, e | AcceptedIn(h.d.net.log, n, e) :: InOnePlace(h, n, e)
  {
    RunKeepsInv(script, world, ops);
    var h := Run(script, Start(world), ops);
    forall n, e | AcceptedIn(h.d.net.log, n, e)
      ensures InOnePlace(h, n, e)
    {
      LedgerIsExact(h, n, e);
    }
  }

  /** A commit or an abort naming any epoch but the held one contacts no rank and changes
      nothing. */
  lemma OtherEpochsAreIgnored(script: Script, d: Driver, e: Epoch)
    requires d.pending.None? || d.pending.value.epoch != e
    ensures CommitStep(script, d, e).0 == d && AbortStep(script, d, e) == d
    ensures CommitStep(script, d, e).1 == if d.pending.None? then NoPrepare else OtherEpoch(d.pending.value.epoch)
  {
  }
}

/** Ceremonies that overlap. The driver's locks are held only while a slot is read or
    written, never while a rank is asked, so a ceremony is a beginning and an end with
    anything in between. */
module Overlap {
  import opened Wrappers
  import opened RankNet

  /** What is in a slot, and the turn it was put there. */
  datatype Held = Held(epoch: Epoch, at: nat)

  /** A ceremony under way and the turn it began; a stop and a supervision go by the record
      they read then. */
  datatype Ceremony =
    | Preparing(epoch: Epoch, since: nat)
    | Committing(epoch: Epoch, since: nat)
    | Stopping(epoch: Epoch, since: nat)
    | Supervising(epoch: Epoch, since: nat)

  /** The two slots, the ceremonies under way by a name of theirs, every epoch minted, and
      those taken from the slot by a commit or an abort. */
  datatype State = State(pending: Option<Held>, running: Option<Held>, ongoing: map<nat, Ceremony>, used: set<Epoch>,
                         taken: seq<Epoch>, turn: nat)

  const IDLE := State(None, None, map[], {}, [], 0)

  datatype Op =
    | BeginPrepare(id: nat, epoch: Epoch)
    | EndPrepare(id: nat, accepted: bool)
    | BeginCommit(id: nat, epoch: Epoch)
    | EndCommit(id: nat, whole: bool)
    | AbortHeld(epoch: Epoch)
    | BeginStop(id: nat)
    | EndStop(id: nat, all: bool)
    | BeginSupervise(id: nat)
    | EndSupervise(id: nat, dead: bool)

  function With(s: State, id: nat, t: Ceremony): State {
    s.(ongoing := s.ongoing[id := t])
  }

  function Without(s: State, id: nat): State {
    s.(ongoing := s.ongoing - {id})
  }

  predicate Holds(slot: Option<Held>, e: Epoch) {
    slot.Some? && slot.value.epoch == e
  }

  /** A prepare looks only whether a cluster is recorded, and mints an epoch. */
  function Begun(s: State, op: Op): State {
    match op
    case BeginPrepare(id, e) =>
      if id in s.ongoing || s.running.Some? || e in s.used then s
      else With(s, id, Preparing(e, s.turn)).(used := s.used + {e})
    case BeginCommit(id, e) =>
      if id in s.ongoing || !Holds(s.pending, e) then s
      else With(s, id, Committing(e, s.turn)).(pending := None, taken := s.taken + [e])
    case BeginStop(id) =>
      if id in s.ongoing || s.running.None? then s else With(s, id, Stopping(s.running.value.epoch, s.turn))
    case BeginSupervise(id) =>
      if id in s.ongoing || s.running.None? then s else With(s, id, Supervising(s.running.value.epoch, s.turn))
    case AbortHeld(e) => if Holds(s.pending, e) then s.(pending := None, taken := s.taken + [e]) else s
    case _ => s
  }

  /** Whether an end is the end of that ceremony. */
  predicate Ends(op: Op, t: Ceremony) {
    match op
    case EndPrepare(_, _) => t.Preparing?
    case EndCommit(_, _) => t.Committing?
    case EndStop(_, _) => t.Stopping?
    case EndSupervise(_, _) => t.Supervising?
    case _ => false
  }

  /** What an end writes: an accepted prepare, a whole cluster, or what a stop left of the
      record it read, whatever the slots hold by now. The stop inside a supervision that
      finds a rank dead is a ceremony of its own here; clearing the record is what is left. */
  function Written(s: State, op: Op, t: Ceremony): State {
    match op
    case EndPrepare(_, accepted) => if accepted then s.(pending := Some(Held(t.epoch, s.turn))) else s
    case EndCommit(_, whole) => if whole then s.(running := Some(Held(t.epoch, s.turn))) else s
    case EndStop(_, all) => s.(running := if all then None else Some(Held(t.epoch, s.turn)))
    case EndSupervise(_, dead) => if dead then s.(running := None) else s
    case _ => s
  }

  function Ended(s: State, op: Op): State {
    match op
    case BeginPrepare(_, _) => s
    case BeginCommit(_, _) => s
    case AbortHeld(_) => s
    case BeginStop(_) => s
    case BeginSupervise(_) => s
    case _ => if op.id in s.ongoing && Ends(op, s.ongoing[op.id]) then Without(Written(s, op, s.ongoing[op.id]), op.id) else s
  }

  predicate IsEnd(op: Op) {
    op.EndPrepare? || op.EndCommit? || op.EndStop? || op.EndSupervise?
  }

  function Step(s: State, op: Op): State {
    (if IsEnd(op) then Ended(s, op) else Begun(s, op)).(turn := s.turn + 1)
  }

  function Run(ops: seq<Op>): State {
    if ops == [] then IDLE else Step(Run(ops[..|ops| - 1]), ops[|ops| - 1])
  }

  // ---- What every interleaving keeps ------------------------------------------

  ghost predicate NoDup(es: seq<Epoch>) {
    forall i, j | 0 <= i < j < |es| :: es[i] != es[j]
  }

  /** An epoch still to be taken: minted, and taken by nobody. */
  predicate Fresh(s: State, e: Epoch) {
    e in s.used && e !in s.taken
  }

  ghost predicate Apart(s: State) {
    && (forall i, j | i in s.ongoing && j in s.ongoing && i != j && s.ongoing[i].Preparing? && s.ongoing[j].Preparing? ::
          s.ongoing[i].epoch != s.ongoing[j].epoch)
    && (forall i | i in s.ongoing && s.ongoing[i].Preparing? ::
          Fresh(s, s.ongoing[i].epoch) && !Holds(s.pending, s.ongoing[i].epoch))
    && (s.pending.Some? ==> Fresh(s, s.pending.value.epoch))
  }

  ghost predicate Ledger(s: State) {
    NoDup(s.taken) && (forall e | e in s.taken :: e in s.used) && Apart(s)
  }

  lemma BegunKeepsLedger(s: State, op: Op)
    requires Ledger(s) && !IsEnd(op)
    ensures Ledger(Step(s, op))
  {
  }

  lemma EndedKeepsLedger(s: State, op: Op)
    requires Ledger(s) && IsEnd(op)
    ensures Ledger(Step(s, op))
  {
  }

  lemma {:induction false} RunKeepsLedger(ops: seq<Op>)
    ensures Ledger(Run(ops))
  {
    if ops != [] {
      var before, op := Run(ops[..|ops| - 1]), ops[|ops| - 1];
      RunKeepsLedger(ops[..|ops| - 1]);
      if IsEnd(op) {
        EndedKeepsLedger(before, op);
      } else {
        BegunKeepsLedger(before, op);
      }
    }
  }

  /** However ceremonies interleave, every accepted prepare is taken at most once, by one
      commit or by one abort and never by both, and what is taken was minted. */
  lemma TakenOnce(ops: seq<Op>)
    ensures forall i, j | 0 <= i < j < |Run(ops).taken| :: Run(ops).taken[i] != Run(ops).taken[j]
    ensures forall e | e in Run(ops).taken :: e in Run(ops).used
  {
    RunKeepsLedger(ops);
  }

  // ---- When both slots are full -----------------------------------------------

  predicate Exclusive(s: State) {
    s.pending.None? || s.running.None?
  }

  /** A slot filled after that turn, if it is filled at all. */
  predicate FilledAfter(slot: Option<Held>, turn: nat) {
    slot.Some? ==> turn < slot.value.at
  }

  /** Nothing is dated later than now, and what a ceremony found empty when it began has
      been filled since if it is full now. */
  ghost predicate Dated(s: State) {
    && (s.pending.Some? ==> s.pending.value.at < s.turn)
    && (s.running.Some? ==> s.running.value.at < s.turn)
    && (forall i | i in s.ongoing :: s.ongoing[i].since < s.turn)
    && (forall i | i in s.ongoing && s.ongoing[i].Preparing? :: FilledAfter(s.running, s.ongoing[i].since))
    && (forall i | i in s.ongoing && (s.ongoing[i].Committing? || s.ongoing[i].Stopping?) ::
          FilledAfter(s.pending, s.ongoing[i].since))
  }

  lemma BegunKeepsDated(s: State, op: Op)
    requires Dated(s) && Exclusive(s) && !IsEnd(op)
    ensures Dated(Step(s, op))
  {
  }

  lemma EndedKeepsDated(s: State, op: Op)
    requires Dated(s) && Exclusive(s) && IsEnd(op)
    ensures Dated(Step(s, op))
  {
  }

  lemma StepKeepsDated(s: State, op: Op)
    requires Dated(s) && Exclusive(s)
    ensures Dated(Step(s, op))
  {
    if IsEnd(op) {
      EndedKeepsDated(s, op);
    } else {
      BegunKeepsDated(s, op);
    }
  }

  /** An end that fills one slot when the other was filled after its ceremony began, and still is. */
  predicate Overlapped(s: State, op: Op) {
    && IsEnd(op) && op.id in s.ongoing && Ends(op, s.ongoing[op.id])
    && match op
       case EndPrepare(_, accepted) => accepted && s.running.Some? && s.ongoing[op.id].since < s.running.value.at
       case EndCommit(_, whole) => whole && s.pending.Some? && s.ongoing[op.id].since < s.pending.value.at
       case EndStop(_, all) => !all && s.pending.Some? && s.ongoing[op.id].since < s.pending.value.at
       case _ => false
  }

  ghost predicate AlwaysExclusive(ops: seq<Op>) {
    forall k: nat | k <= |ops| :: Exclusive(Run(ops[..k]))
  }

  lemma AlwaysExclusiveBefore(ops: seq<Op>)
    requires ops != [] && AlwaysExclusive(ops)
    ensures AlwaysExclusive(ops[..|ops| - 1]) && Exclusive(Run(ops[..|ops| - 1])) && Exclusive(Run(ops))
  {
    var before := ops[..|ops| - 1];
    forall k: nat | k <= |before|
      ensures Exclusive(Run(before[..k]))
    {
      assert before[..k] == ops[..k];
    }
    assert before[..|before|] == before && ops[..|ops|] == ops;
  }

  lemma {:induction false} RunIsDated(ops: seq<Op>)
    requires AlwaysExclusive(ops)
    ensures Dated(Run(ops))
  {
    if ops != [] {
      AlwaysExclusiveBefore(ops);
      RunIsDated(ops[..|ops| - 1]);
      StepKeepsDated(Run(ops[..|ops| - 1]), ops[|ops| - 1]);
    }
  }

  /** The two slots are first both full exactly when a ceremony ends by filling one of them
      after the other was filled while it was under way: a prepare under which a cluster came
      to be recorded, or a commit or a failed stop under which a prepare came to be held. */
  lemma BothFullExactly(ops: seq<Op>, op: Op)
    requires AlwaysExclusive(ops)
    ensures !Exclusive(Run(ops + [op])) <==> Overlapped(Run(ops), op)
  {
    RunIsDated(ops);
    assert (ops + [op])[..|ops|] == ops && ops[..|ops|] == ops;
    assert Exclusive(Run(ops[..|ops|]));
  }

  /** One prepare held and a second begun. */
  function TwoPrepares(e: Epoch, f: Epoch): State {
    State(Some(Held(e, 1)), None, map[1 := Preparing(f, 2)], {e, f}, [], 3)
  }

  lemma SecondBegins(e: Epoch, f: Epoch)
    requires e != f
    ensures Step(Step(Step(IDLE, BeginPrepare(0, e)), EndPrepare(0, true)), BeginPrepare(1, f)) == TwoPrepares(e, f)
  {
    assert Step(IDLE, BeginPrepare(0, e)) == State(None, None, map[0 := Preparing(e, 0)], {e}, [], 1);
    assert Step(Step(IDLE, BeginPrepare(0, e)), EndPrepare(0, true)) == State(Some(Held(e, 1)), None, map[], {e}, [], 2);
  }

  lemma FirstIsRecorded(e: Epoch, f: Epoch)
    requires e != f
    ensures Step(Step(TwoPrepares(e, f), BeginCommit(2, e)), EndCommit(2, true))
         == State(None, Some(Held(e, 4)), map[1 := Preparing(f, 2)], {e, f}, [e], 5)
  {
    assert Step(TwoPrepares(e, f), BeginCommit(2, e))
        == State(None, None, map[1 := Preparing(f, 2), 2 := Committing(e, 3)], {e, f}, [e], 4);
  }

  lemma SecondEnds(e: Epoch, f: Epoch)
    ensures Step(State(None, Some(Held(e, 4)), map[1 := Preparing(f, 2)], {e, f}, [e], 5), EndPrepare(1, true))
         == State(Some(Held(f, 5)), Some(Held(e, 4)), map[], {e, f}, [e], 6)
  {
    assert map[1 := Preparing(f, 2)] - {1} == map[];
  }

  /** It happens: a second prepare begins before the first is committed and ends after. */
  lemma OverlapFillsBoth(e: Epoch, f: Epoch)
    requires e != f
    ensures var held := Step(Step(IDLE, BeginPrepare(0, e)), EndPrepare(0, true));
      var recorded := Step(Step(Step(held, BeginPrepare(1, f)), BeginCommit(2, e)), EndCommit(2, true));
      var s := Step(recorded, EndPrepare(1, true));
      Exclusive(recorded) && Holds(s.pending, f) && Holds(s.running, e)
  {
    SecondBegins(e, f);
    FirstIsRecorded(e, f);
    SecondEnds(e, f);
  }

  // ---- One at a time ----------------------------------------------------------

  predicate IsBegin(op: Op) {
    op.BeginPrepare? || op.BeginCommit? || op.BeginStop? || op.BeginSupervise?
  }

  /** No ceremony begins before the last has ended. */
  ghost predicate OneAtATime(ops: seq<Op>) {
    forall k | 0 <= k < |ops| && IsBegin(ops[k]) :: Run(ops[..k]).ongoing == map[]
  }

  /** At most one ceremony, and neither slot filled since it began. */
  ghost predicate Alone(s: State) {
    && (forall i, j | i in s.ongoing && j in s.ongoing :: i == j)
    && (forall i | i in s.ongoing && s.pending.Some? :: s.pending.value.at < s.ongoing[i].since)
    && (forall i | i in s.ongoing && s.running.Some? :: s.running.value.at < s.ongoing[i].since)
  }

  lemma StepKeepsAlone(s: State, op: Op)
    requires Dated(s) && Exclusive(s) && Alone(s) && (IsBegin(op) ==> s.ongoing == map[])
    ensures Alone(Step(s, op)) && Exclusive(Step(s, op)) && Dated(Step(s, op))
  {
    StepKeepsDated(s, op);
  }

  /** Ceremonies that do not overlap never fill both slots. */
  lemma {:induction false} NeverBothInTurn(ops: seq<Op>)
    requires OneAtATime(ops)
    ensures Alone(Run(ops)) && Exclusive(Run(ops)) && Dated(Run(ops))
  {
    if ops != [] {
      var before := ops[..|ops| - 1];
      forall k | 0 <= k < |before| && IsBegin(before[k])
        ensures Run(before[..k]).ongoing == map[]
      {
        assert before[..k] == ops[..k];
      }
      NeverBothInTurn(before);
      StepKeepsAlone(Run(before), ops[|ops| - 1]);
    }
  }
}

/** Replacing a private file atomically: any number of writers, each in any process,
    interleaved step by step, with processes killed and power cut at any point. */
module SecretFile {
  import opened Wrappers
  import opened Utf8

  type Body = seq<Byte>

  /** The file being replaced, and the temporary names beside it. */
  datatype Name = Target | Temp(pid: nat, n: nat)

  /** What a directory entry leads to, and whether those bytes survive a power cut. */
  datatype Inode = Inode(bytes: Body, synced: bool)

  type Entry = Option<Inode>

  /** How far one call of `write` has come; `Left` gave up with its temporary in place. */
  datatype Stage =
    | Idle
    | Named(n: nat)
    | Writing(n: nat, k: nat)
    | Synced(n: nat)
    | RenameFailed(n: nat)
    | Renamed
    | Left(n: nat)
    | Finished(ok: bool)
    | Dead

  datatype Writer = Writer(pid: nat, body: Body, stage: Stage) {
    /** The temporary this call is using, while its process lives. */
    function Using(): Option<Name> {
      match stage
      case Named(n) => Some(Temp(pid, n))
      case Writing(n, _) => Some(Temp(pid, n))
      case Synced(n) => Some(Temp(pid, n))
      case RenameFailed(n) => Some(Temp(pid, n))
      case _ => None
    }
  }

  /** `undo` is what the target's entry held after each rename not yet made durable;
      `renames` is the history those stand for, of which the first `durable` are safe. */
  datatype System = System(files: map<Name, Inode>, undo: seq<Entry>, counters: map<nat, nat>, writers: seq<Writer>,
                           initial: Entry, renames: seq<nat>, durable: nat)

  datatype Move =
    | Take
    | Create(ok: bool)
    | WriteSome(upTo: nat)
    | Sync
    | GiveUp
    | Rename(ok: bool)
    | Remove(ok: bool)
    | DirSync(ok: bool)

  datatype Action =
    | By(i: nat, move: Move)
    | Kill(pid: nat)
    | PowerCut(keep: nat, junk: map<Name, Body>)

  function Count(s: System, pid: nat): nat {
    if pid in s.counters then s.counters[pid] else 0
  }

  function Lookup(files: map<Name, Inode>, name: Name): Entry {
    if name in files then Some(files[name]) else None
  }

  function To(s: System, i: nat, stage: Stage): System
    requires i < |s.writers|
  {
    s.(writers := s.writers[i := s.writers[i].(stage := stage)])
  }

  // ---- The steps of one call --------------------------------------------------

  /** A name no other call in this process has: the counter is read and bumped at once. */
  function TakeName(s: System, i: nat): System
    requires i < |s.writers|
  {
    var pid := s.writers[i].pid;
    To(s.(counters := s.counters[pid := Count(s, pid) + 1]), i, Named(Count(s, pid)))
  }

  function CreateTemp(s: System, i: nat, n: nat, ok: bool): System
    requires i < |s.writers|
  {
    if ok then To(s.(files := s.files[Temp(s.writers[i].pid, n) := Inode([], false)]), i, Writing(n, 0))
    else To(s, i, Finished(false))
  }

  function WriteMore(s: System, i: nat, n: nat, upTo: nat): System
    requires i < |s.writers| && upTo <= |s.writers[i].body|
  {
    var w := s.writers[i];
    To(s.(files := s.files[Temp(w.pid, n) := Inode(w.body[..upTo], false)]), i, Writing(n, upTo))
  }

  function SyncTemp(s: System, i: nat, n: nat): System
    requires i < |s.writers|
  {
    var w := s.writers[i];
    To(s.(files := s.files[Temp(w.pid, n) := Inode(w.body, true)]), i, Synced(n))
  }

  /** The temporary's entry replaces the target's. */
  function RenameTemp(s: System, i: nat, n: nat, ok: bool): System
    requires i < |s.writers| && Temp(s.writers[i].pid, n) in s.files
  {
    if !ok then To(s, i, RenameFailed(n))
    else
      var temp := Temp(s.writers[i].pid, n);
      To(s.(files := (s.files - {temp})[Target := s.files[temp]], undo := s.undo + [Lookup(s.files, Target)],
            renames := s.renames + [i]), i, Renamed)
  }

  function RemoveTemp(s: System, i: nat, n: nat, ok: bool): System
    requires i < |s.writers|
  {
    if ok then To(s.(files := s.files - {Temp(s.writers[i].pid, n)}), i, Finished(false)) else To(s, i, Left(n))
  }

  function SyncDirectory(s: System, i: nat, ok: bool): System
    requires i < |s.writers|
  {
    To(if ok then s.(undo := [], durable := |s.renames|) else s, i, Finished(true))
  }

  // ---- Crashes ----------------------------------------------------------------

  predicate Ended(stage: Stage) {
    stage.Idle? || stage.Left? || stage.Finished? || stage.Dead?
  }

  function Killed(w: Writer): Writer {
    if Ended(w.stage) then w else w.(stage := Dead)
  }

  function KillAll(ws: seq<Writer>, pid: Option<nat>): (r: seq<Writer>)
    ensures |r| == |ws|
    ensures forall i | 0 <= i < |ws| :: r[i] == if pid == None || pid == Some(ws[i].pid) then Killed(ws[i]) else ws[i]
  {
    seq(|ws|, i requires 0 <= i < |ws| => if pid == None || pid == Some(ws[i].pid) then Killed(ws[i]) else ws[i])
  }

  /** Bytes not synced before the power went are anything. */
  function AfterPower(name: Name, inode: Inode, junk: map<Name, Body>): Inode {
    if inode.synced || name !in junk then inode else Inode(junk[name], false)
  }

  function PowerLoss(s: System, keep: nat, junk: map<Name, Body>): System
    requires keep <= |s.undo|
  {
    var target := if keep < |s.undo| then s.undo[keep] else Lookup(s.files, Target);
    var temps := map name | name in s.files && name != Target :: AfterPower(name, s.files[name], junk);
    var files := match target
                 case None => temps
                 case Some(inode) => temps[Target := AfterPower(Target, inode, junk)];
    s.(files := files, undo := s.undo[..keep], counters := map[], writers := KillAll(s.writers, None),
       renames := if s.durable + keep <= |s.renames| then s.renames[..s.durable + keep] else s.renames)
  }

  /** One writer's next step; a move that is not its next one changes nothing. */
  function MoveStep(s: System, i: nat, move: Move): System
    requires i < |s.writers|
  {
    var w := s.writers[i];
    match w.stage
    case Idle => if move.Take? then TakeName(s, i) else s
    case Named(n) => if move.Create? then CreateTemp(s, i, n, move.ok) else s
    case Writing(n, k) =>
      if move.WriteSome? && k <= move.upTo <= |w.body| then WriteMore(s, i, n, move.upTo)
      else if move.Sync? && k == |w.body| then SyncTemp(s, i, n)
      else if move.GiveUp? then To(s, i, Left(n))
      else s
    case Synced(n) =>
      if move.Rename? && Temp(w.pid, n) in s.files then RenameTemp(s, i, n, move.ok)
      else if move.GiveUp? then To(s, i, Left(n))
      else s
    case RenameFailed(n) => if move.Remove? then RemoveTemp(s, i, n, move.ok) else s
    case Renamed => if move.DirSync? then SyncDirectory(s, i, move.ok) else s
    case _ => s
  }

  function Step(s: System, a: Action): System {
    match a
    case By(i, move) => if i < |s.writers| then MoveStep(s, i, move) else s
    case Kill(pid) => s.(writers := KillAll(s.writers, Some(pid)), counters := s.counters - {pid})
    case PowerCut(keep, junk) => if keep <= |s.undo| then PowerLoss(s, keep, junk) else s
  }

  function Run(s: System, actions: seq<Action>): System {
    if actions == [] then s else Step(Run(s, actions[..|actions| - 1]), actions[|actions| - 1])
  }

  /** Before anyone writes: perhaps a target, already safe on disk, and leftovers. */
  predicate Fresh(s: System) {
    && (forall i | 0 <= i < |s.writers| :: s.writers[i].stage.Idle?)
    && s.initial == Lookup(s.files, Target) && (s.initial.Some? ==> s.initial.value.synced)
    && s.undo == [] && s.renames == [] && s.durable == 0
  }

  // ---- The invariant ----------------------------------------------------------

  /** A writer's temporary is its own, and holds what the writer has got to. */
  ghost predicate WriterOk(s: System, w: Writer) {
    match w.stage
    case Named(n) => n < Count(s, w.pid)
    case Writing(n, k) =>
      n < Count(s, w.pid) && k <= |w.body| && Lookup(s.files, Temp(w.pid, n)) == Some(Inode(w.body[..k], false))
    case Synced(n) => n < Count(s, w.pid) && Lookup(s.files, Temp(w.pid, n)) == Some(Inode(w.body, true))
    case RenameFailed(n) => n < Count(s, w.pid)
    case _ => true
  }

  ghost predicate NoneShared(writers: seq<Writer>) {
    forall i, j | 0 <= i < j < |writers| && writers[i].Using().Some? :: writers[i].Using() != writers[j].Using()
  }

  /** What the target holds once these renames, and no others, have happened. */
  function After(s: System, renames: seq<nat>): Entry {
    if renames == [] then s.initial
    else if renames[|renames| - 1] < |s.writers| then Some(Inode(s.writers[renames[|renames| - 1]].body, true))
    else None
  }

  ghost predicate History(s: System) {
    && s.durable + |s.undo| == |s.renames|
    && (forall k | 0 <= k < |s.renames| :: s.renames[k] < |s.writers|)
    && (s.initial.Some? ==> s.initial.value.synced)
    && Lookup(s.files, Target) == After(s, s.renames)
    && (forall k | 0 <= k < |s.undo| :: s.undo[k] == After(s, s.renames[..s.durable + k]))
  }

  ghost predicate Inv(s: System) {
    && (forall i | 0 <= i < |s.writers| :: WriterOk(s, s.writers[i]))
    && NoneShared(s.writers)
    && History(s)
  }

  // ---- Every step keeps it ----------------------------------------------------

  /** A move changes its own writer's stage, and no counter goes back. */
  ghost predicate OnlyMoves(s: System, t: System, i: nat)
    requires i < |s.writers|
  {
    && |t.writers| == |s.writers| && t.initial == s.initial
    && t.writers[i].pid == s.writers[i].pid && t.writers[i].body == s.writers[i].body
    && (forall j | 0 <= j < |s.writers| && j != i :: t.writers[j] == s.writers[j])
    && (forall pid :: Count(s, pid) <= Count(t, pid))
    && (t.renames == s.renames || t.renames == s.renames + [i])
  }

  lemma MoveOnlyMoves(s: System, i: nat, move: Move, t: System)
    requires i < |s.writers| && t == MoveStep(s, i, move)
    ensures OnlyMoves(s, t, i)
  {
  }

  /** What a step of writer `i` leaves alone: other temporaries, other writers, bodies. */
  ghost predicate OnlyTouches(s: System, t: System, i: nat, mine: Name)
    requires i < |s.writers|
  {
    && OnlyMoves(s, t, i)
    && (forall name | name != Target && name != mine :: Lookup(t.files, name) == Lookup(s.files, name))
  }

  /** The writers not moving are as they were. */
  lemma OthersStayOk(s: System, t: System, i: nat, mine: Name)
    requires i < |s.writers| && OnlyTouches(s, t, i, mine)
    requires forall j | 0 <= j < |s.writers| :: WriterOk(s, s.writers[j])
    requires forall j | 0 <= j < |s.writers| && j != i :: s.writers[j].Using() != Some(mine)
    requires WriterOk(t, t.writers[i])
    ensures forall j | 0 <= j < |t.writers| :: WriterOk(t, t.writers[j])
  {
    forall j | 0 <= j < |t.writers| && j != i
      ensures WriterOk(t, t.writers[j])
    {
      assert WriterOk(s, s.writers[j]);
      assert Count(s, s.writers[j].pid) <= Count(t, s.writers[j].pid);
    }
  }

  /** A taken name is new: every name in use in the process is below the counter. */
  lemma TakenIsNew(s: System, i: nat)
    requires i < |s.writers| && forall j | 0 <= j < |s.writers| :: WriterOk(s, s.writers[j])
    ensures forall j | 0 <= j < |s.writers| ::
      s.writers[j].Using() != Some(Temp(s.writers[i].pid, Count(s, s.writers[i].pid)))
  {
    forall j | 0 <= j < |s.writers|
      ensures s.writers[j].Using() != Some(Temp(s.writers[i].pid, Count(s, s.writers[i].pid)))
    {
      assert WriterOk(s, s.writers[j]);
    }
  }

  /** The name a move works on. */
  function NameOf(s: System, i: nat): Name
    requires i < |s.writers|
  {
    var w := s.writers[i];
    match w.Using()
    case None => Temp(w.pid, Count(s, w.pid))
    case Some(name) => name
  }

  lemma NameIsMine(s: System, i: nat)
    requires i < |s.writers| && NoneShared(s.writers)
    requires forall j | 0 <= j < |s.writers| :: WriterOk(s, s.writers[j])
    ensures forall j | 0 <= j < |s.writers| && j != i :: s.writers[j].Using() != Some(NameOf(s, i))
  {
    TakenIsNew(s, i);
    if s.writers[i].Using().Some? {
      forall j | 0 <= j < |s.writers| && j != i
        ensures s.writers[j].Using() != Some(NameOf(s, i))
      {
        if j < i {
          assert s.writers[j].Using().Some? ==> s.writers[j].Using() != s.writers[i].Using();
        }
      }
    }
  }

  lemma MoveTouches(s: System, i: nat, move: Move, t: System)
    requires i < |s.writers| && t == MoveStep(s, i, move)
    ensures forall name | name != Target && name != NameOf(s, i) :: Lookup(t.files, name) == Lookup(s.files, name)
    ensures t.writers[i].Using().Some? ==> t.writers[i].Using() == Some(NameOf(s, i))
  {
  }

  lemma MoverStaysOk(s: System, i: nat, move: Move, t: System)
    requires i < |s.writers| && t == MoveStep(s, i, move) && WriterOk(s, s.writers[i])
    ensures WriterOk(t, t.writers[i])
  {
    assert s.writers[i].body[..|s.writers[i].body|] == s.writers[i].body;
  }

  lemma NoneSharedAfter(ws: seq<Writer>, vs: seq<Writer>, i: nat, mine: Name)
    requires NoneShared(ws) && i < |ws| == |vs|
    requires forall j | 0 <= j < |ws| && j != i :: vs[j] == ws[j] && ws[j].Using() != Some(mine)
    requires vs[i].Using().Some? ==> vs[i].Using() == Some(mine)
    ensures NoneShared(vs)
  {
  }

  lemma AfterAgrees(s: System, t: System, renames: seq<nat>)
    requires |t.writers| == |s.writers| && t.initial == s.initial
    requires forall j | 0 <= j < |s.writers| :: t.writers[j].body == s.writers[j].body
    ensures After(t, renames) == After(s, renames)
  {
  }

  lemma RenameKeepsHistory(s: System, i: nat, n: nat, t: System)
    requires i < |s.writers| && History(s) && Lookup(s.files, Temp(s.writers[i].pid, n)) == Some(Inode(s.writers[i].body, true))
    requires t == RenameTemp(s, i, n, true)
    ensures History(t)
  {
    forall k | 0 <= k < |t.undo|
      ensures t.undo[k] == After(t, t.renames[..t.durable + k])
    {
      assert t.renames[..t.durable + k] == s.renames[..s.durable + k];
      AfterAgrees(s, t, s.renames[..s.durable + k]);
      if k == |s.undo| {
        assert s.renames[..s.durable + k] == s.renames;
      }
    }
  }

  /** No target renamed, no directory synced, no body changed. */
  ghost predicate Quiet(s: System, t: System) {
    && |t.writers| == |s.writers| && t.initial == s.initial
    && (forall j | 0 <= j < |s.writers| :: t.writers[j].body == s.writers[j].body)
    && Lookup(t.files, Target) == Lookup(s.files, Target)
    && t.undo == s.undo && t.renames == s.renames && t.durable == s.durable
  }

  lemma SameHistory(s: System, t: System)
    requires History(s) && Quiet(s, t)
    ensures History(t)
  {
    AfterAgrees(s, t, t.renames);
    forall k | 0 <= k < |t.undo|
      ensures t.undo[k] == After(t, t.renames[..t.durable + k])
    {
      AfterAgrees(s, t, t.renames[..t.durable + k]);
    }
  }

  lemma MoveIsQuiet(s: System, i: nat, move: Move, t: System)
    requires i < |s.writers| && t == MoveStep(s, i, move) && WriterOk(s, s.writers[i])
    requires !(s.writers[i].stage.Synced? && move.Rename? && move.ok)
    requires !(s.writers[i].stage.Renamed? && move.DirSync? && move.ok)
    ensures Quiet(s, t)
  {
  }

  lemma MoveKeepsHistory(s: System, i: nat, move: Move, t: System)
    requires i < |s.writers| && t == MoveStep(s, i, move) && WriterOk(s, s.writers[i]) && History(s)
    ensures History(t)
  {
    var stage := s.writers[i].stage;
    if stage.Synced? && move.Rename? && move.ok {
      RenameKeepsHistory(s, i, stage.n, t);
    } else if stage.Renamed? && move.DirSync? && move.ok {
      AfterAgrees(s, t, s.renames);
    } else {
      MoveIsQuiet(s, i, move, t);
      SameHistory(s, t);
    }
  }

  lemma MoveKeepsInv(s: System, i: nat, move: Move, t: System)
    requires Inv(s) && i < |s.writers| && t == MoveStep(s, i, move)
    ensures Inv(t)
  {
    var mine := NameOf(s, i);
    NameIsMine(s, i);
    MoveOnlyMoves(s, i, move, t);
    MoveTouches(s, i, move, t);
    MoverStaysOk(s, i, move, t);
    OthersStayOk(s, t, i, mine);
    NoneSharedAfter(s.writers, t.writers, i, mine);
    MoveKeepsHistory(s, i, move, t);
  }

  lemma KillKeepsInv(s: System, pid: nat, t: System)
    requires Inv(s) && t == Step(s, Kill(pid))
    ensures Inv(t)
  {
    forall j | 0 <= j < |t.writers|
      ensures WriterOk(t, t.writers[j])
    {
      assert WriterOk(s, s.writers[j]);
    }
    SameHistory(s, t);
  }

  lemma PowerKeepsHistory(s: System, keep: nat, junk: map<Name, Body>, t: System)
    requires History(s) && keep <= |s.undo| && t == PowerLoss(s, keep, junk)
    ensures History(t)
  {
    var kept := s.renames[..s.durable + keep];
    AfterAgrees(s, t, kept);
    if keep == |s.undo| {
      assert kept == s.renames;
    }
    forall k | 0 <= k < |t.undo|
      ensures t.undo[k] == After(t, t.renames[..t.durable + k])
    {
      assert t.renames[..t.durable + k] == s.renames[..s.durable + k];
      AfterAgrees(s, t, s.renames[..s.durable + k]);
    }
  }

  lemma PowerKeepsInv(s: System, keep: nat, junk: map<Name, Body>, t: System)
    requires Inv(s) && keep <= |s.undo| && t == PowerLoss(s, keep, junk)
    ensures Inv(t)
  {
    PowerKeepsHistory(s, keep, junk, t);
  }

  lemma StepKeepsInv(s: System, a: Action, t: System)
    requires Inv(s) && t == Step(s, a)
    ensures Inv(t)
  {
    match a {
      case By(i, move) =>
        if i < |s.writers| {
          MoveKeepsInv(s, i, move, t);
        }
      case Kill(pid) => KillKeepsInv(s, pid, t);
      case PowerCut(keep, junk) =>
        if keep <= |s.undo| {
          PowerKeepsInv(s, keep, junk, t);
        }
    }
  }

  /** Who writes what never changes, and a rename made durable is never undone. */
  ghost predicate Onward(s: System, t: System) {
    && |t.writers| == |s.writers| && t.initial == s.initial
    && (forall j | 0 <= j < |s.writers| :: t.writers[j].body == s.writers[j].body)
    && s.durable <= t.durable <= |t.renames| && s.durable <= |s.renames|
    && t.renames[..s.durable] == s.renames[..s.durable]
  }

  lemma StepIsOnward(s: System, a: Action, t: System)
    requires History(s) && t == Step(s, a)
    ensures Onward(s, t)
  {
    if a.By? && a.i < |s.writers| {
      MoveOnlyMoves(s, a.i, a.move, t);
    }
  }

  lemma {:induction false} RunIsOnward(s: System, actions: seq<Action>, t: System)
    requires Inv(s) && t == Run(s, actions)
    ensures Inv(t) && Onward(s, t)
    decreases |actions|
  {
    if actions != [] {
      var before := Run(s, actions[..|actions| - 1]);
      RunIsOnward(s, actions[..|actions| - 1], before);
      StepKeepsInv(before, actions[|actions| - 1], t);
      StepIsOnward(before, actions[|actions| - 1], t);
      assert t.renames[..s.durable] == t.renames[..before.durable][..s.durable];
      assert before.renames[..s.durable] == before.renames[..before.durable][..s.durable];
    }
  }

  lemma FreshHasInv(s: System)
    requires Fresh(s)
    ensures Inv(s)
  {
  }

  // ---- What it is for ---------------------------------------------------------

  /** However writers, kills and power cuts interleave, the target is what it was to begin
      with or one writer's complete body, safe on disk, and no two live writers share a
      temporary. */
  lemma TargetIsWhole(s: System, actions: seq<Action>, t: System)
    requires Fresh(s) && t == Run(s, actions)
    ensures NoneShared(t.writers)
    ensures Lookup(t.files, Target) == s.initial
         || exists i :: 0 <= i < |s.writers| && Lookup(t.files, Target) == Some(Inode(s.writers[i].body, true))
  {
    FreshHasInv(s);
    RunIsOnward(s, actions, t);
    if t.renames != [] {
      var i := t.renames[|t.renames| - 1];
      assert Lookup(t.files, Target) == Some(Inode(s.writers[i].body, true));
    }
  }

  ghost predicate RenamesRecorded(s: System) {
    forall i | 0 <= i < |s.writers| && s.writers[i].stage.Renamed? :: i in s.renames
  }

  lemma StepRecordsRenames(s: System, a: Action, t: System)
    requires RenamesRecorded(s) && t == Step(s, a)
    ensures RenamesRecorded(t)
  {
    if a.By? && a.i < |s.writers| {
      MoveOnlyMoves(s, a.i, a.move, t);
      assert t.writers[a.i].stage.Renamed? && !s.writers[a.i].stage.Renamed? ==> t.renames == s.renames + [a.i];
    }
  }

  lemma {:induction false} RunRecordsRenames(s: System, actions: seq<Action>, t: System)
    requires Fresh(s) && t == Run(s, actions)
    ensures RenamesRecorded(t)
    decreases |actions|
  {
    if actions != [] {
      var before := Run(s, actions[..|actions| - 1]);
      RunRecordsRenames(s, actions[..|actions| - 1], before);
      StepRecordsRenames(before, actions[|actions| - 1], t);
    }
  }

  /** A write whose directory sync went through is never rolled back: whatever happens
      afterwards, the target is that writer's or a later renamer's whole body. */
  lemma SyncedRenameSurvives(s: System, before: seq<Action>, i: nat, later: seq<Action>, m: System, t: System)
    requires Fresh(s) && m == Run(s, before)
    requires i < |m.writers| && m.writers[i].stage.Renamed?
    requires t == Run(Step(m, By(i, DirSync(true))), later)
    ensures i in t.renames && t.renames[|t.renames| - 1] < |s.writers|
    ensures m.renames <= t.renames
    ensures Lookup(t.files, Target) == Some(Inode(s.writers[t.renames[|t.renames| - 1]].body, true))
  {
    FreshHasInv(s);
    RunIsOnward(s, before, m);
    RunRecordsRenames(s, before, m);
    var synced := Step(m, By(i, DirSync(true)));
    StepKeepsInv(m, By(i, DirSync(true)), synced);
    RunIsOnward(synced, later, t);
    assert synced.renames == m.renames && synced.durable == |m.renames|;
    assert t.renames[..|m.renames|] == m.renames;
  }

  // ---- At rest ----------------------------------------------------------------

  /** The temporary a writer has created and not yet renamed or removed. */
  function Holding(w: Writer): Option<Name> {
    match w.stage
    case Writing(n, _) => Some(Temp(w.pid, n))
    case Synced(n) => Some(Temp(w.pid, n))
    case RenameFailed(n) => Some(Temp(w.pid, n))
    case Left(n) => Some(Temp(w.pid, n))
    case _ => None
  }

  function Owning(w: Writer): Option<Name> {
    if w.stage.Named? then Some(Temp(w.pid, w.stage.n)) else Holding(w)
  }

  ghost predicate OwnedBelow(s: System) {
    forall i | 0 <= i < |s.writers| && Owning(s.writers[i]).Some? ::
      Owning(s.writers[i]).value.n < Count(s, s.writers[i].pid)
  }

  ghost predicate NoneCoOwned(writers: seq<Writer>) {
    forall i, j | 0 <= i < j < |writers| && Owning(writers[i]).Some? :: Owning(writers[i]) != Owning(writers[j])
  }

  /** The temporaries on disk are exactly those held. */
  ghost predicate HeldExactly(s: System) {
    && (forall i | 0 <= i < |s.writers| && Holding(s.writers[i]).Some? :: Holding(s.writers[i]).value in s.files)
    && (forall name | name in s.files && name != Target ::
          exists i :: 0 <= i < |s.writers| && Holding(s.writers[i]) == Some(name))
  }

  ghost predicate Calm(s: System) {
    OwnedBelow(s) && NoneCoOwned(s.writers) && HeldExactly(s)
  }

  function OwnName(s: System, i: nat): Name
    requires i < |s.writers|
  {
    var w := s.writers[i];
    match Owning(w)
    case None => Temp(w.pid, Count(s, w.pid))
    case Some(name) => name
  }

  lemma OwnNameIsMine(s: System, i: nat)
    requires i < |s.writers| && OwnedBelow(s) && NoneCoOwned(s.writers)
    ensures forall j | 0 <= j < |s.writers| && j != i :: Owning(s.writers[j]) != Some(OwnName(s, i))
  {
    forall j | 0 <= j < |s.writers| && j != i
      ensures Owning(s.writers[j]) != Some(OwnName(s, i))
    {
      if Owning(s.writers[j]).Some? {
        assert Owning(s.writers[j]).value.n < Count(s, s.writers[j].pid);
        assert Owning(s.writers[i]).Some? ==> Owning(s.writers[j]) != Owning(s.writers[i]);
      }
    }
  }

  /** What a move does to the mover's own temporary, and to every other. */
  ghost predicate MovesOwn(s: System, t: System, i: nat, mine: Name)
    requires i < |s.writers|
  {
    && OnlyMoves(s, t, i)
    && (forall name | name != Target && name != mine :: name in t.files <==> name in s.files)
    && (Holding(t.writers[i]) == Some(mine) <==> mine in t.files)
    && (Holding(t.writers[i]).Some? ==> Holding(t.writers[i]) == Some(mine))
    && (Owning(t.writers[i]).Some? ==>
        Owning(t.writers[i]) == Some(mine) && mine.Temp? && mine.n < Count(t, t.writers[i].pid))
  }

  lemma MoveHolds(s: System, i: nat, move: Move, t: System, mine: Name)
    requires i < |s.writers| && t == MoveStep(s, i, move) && mine == OwnName(s, i)
    requires Holding(s.writers[i]) == Some(mine) <==> mine in s.files
    ensures forall name | name != Target && name != mine :: name in t.files <==> name in s.files
    ensures Holding(t.writers[i]) == Some(mine) <==> mine in t.files
  {
  }

  lemma MoveOwns(s: System, i: nat, move: Move, t: System, mine: Name)
    requires i < |s.writers| && t == MoveStep(s, i, move) && mine == OwnName(s, i)
    requires Owning(s.writers[i]).Some? ==> Owning(s.writers[i]).value.n < Count(s, s.writers[i].pid)
    ensures Owning(t.writers[i]).Some? ==>
      Owning(t.writers[i]) == Some(mine) && mine.Temp? && mine.n < Count(t, t.writers[i].pid)
  {
  }

  lemma OwnHeld(s: System, i: nat)
    requires i < |s.writers| && Calm(s)
    ensures Holding(s.writers[i]) == Some(OwnName(s, i)) <==> OwnName(s, i) in s.files
  {
    OwnNameIsMine(s, i);
    if OwnName(s, i) in s.files {
      var j :| 0 <= j < |s.writers| && Holding(s.writers[j]) == Some(OwnName(s, i));
      assert Owning(s.writers[j]) == Holding(s.writers[j]);
    }
  }

  lemma HeldAfter(s: System, t: System, i: nat, mine: Name)
    requires i < |s.writers| && HeldExactly(s) && MovesOwn(s, t, i, mine)
    requires Holding(s.writers[i]).Some? ==> Holding(s.writers[i]) == Some(mine)
    requires forall j | 0 <= j < |s.writers| && j != i :: Owning(s.writers[j]) != Some(mine)
    ensures HeldExactly(t)
  {
    forall j | 0 <= j < |t.writers| && Holding(t.writers[j]).Some?
      ensures Holding(t.writers[j]).value in t.files
    {
      if j != i {
        assert Owning(s.writers[j]) == Holding(s.writers[j]) != Some(mine);
      }
    }
    forall name | name in t.files && name != Target
      ensures exists j :: 0 <= j < |t.writers| && Holding(t.writers[j]) == Some(name)
    {
      if name == mine {
        assert Holding(t.writers[i]) == Some(name);
      } else {
        var j :| 0 <= j < |s.writers| && Holding(s.writers[j]) == Some(name);
        assert Holding(t.writers[j]) == Some(name);
      }
    }
  }

  lemma OwnersAfter(s: System, t: System, i: nat, mine: Name)
    requires i < |s.writers| && OwnedBelow(s) && NoneCoOwned(s.writers) && MovesOwn(s, t, i, mine)
    requires forall j | 0 <= j < |s.writers| && j != i :: Owning(s.writers[j]) != Some(mine)
    ensures OwnedBelow(t) && NoneCoOwned(t.writers)
  {
    forall j | 0 <= j < |t.writers| && Owning(t.writers[j]).Some?
      ensures Owning(t.writers[j]).value.n < Count(t, t.writers[j].pid)
    {
      if j != i {
        assert Owning(s.writers[j]).Some?;
        assert Count(s, s.writers[j].pid) <= Count(t, s.writers[j].pid);
      }
    }
  }

  lemma MoveKeepsCalm(s: System, i: nat, move: Move, t: System)
    requires Calm(s) && i < |s.writers| && t == MoveStep(s, i, move)
    ensures Calm(t)
  {
    var mine := OwnName(s, i);
    OwnNameIsMine(s, i);
    OwnHeld(s, i);
    MoveOnlyMoves(s, i, move, t);
    MoveHolds(s, i, move, t, mine);
    MoveOwns(s, i, move, t, mine);
    HeldAfter(s, t, i, mine);
    OwnersAfter(s, t, i, mine);
  }

  /** The writers that have replaced the target are exactly those in the history. */
  ghost predicate RenamersListed(s: System) {
    forall i | 0 <= i < |s.writers| ::
      i in s.renames <==> s.writers[i].stage.Renamed? || s.writers[i].stage == Finished(true)
  }

  lemma MoveListsRenamers(s: System, i: nat, move: Move, t: System)
    requires RenamersListed(s) && i < |s.writers| && t == MoveStep(s, i, move)
    ensures RenamersListed(t)
  {
    MoveOnlyMoves(s, i, move, t);
  }

  lemma {:induction false} RunKeepsCalm(s: System, actions: seq<Action>, t: System)
    requires Fresh(s) && Calm(s) && t == Run(s, actions)
    requires forall k | 0 <= k < |actions| :: actions[k].By?
    ensures Calm(t) && RenamersListed(t)
    decreases |actions|
  {
    if actions != [] {
      var before, a := Run(s, actions[..|actions| - 1]), actions[|actions| - 1];
      RunKeepsCalm(s, actions[..|actions| - 1], before);
      assert a.By?;
      if a.i < |before.writers| {
        MoveKeepsCalm(before, a.i, a.move, t);
        MoveListsRenamers(before, a.i, a.move, t);
      }
    }
  }

  /** When every writer has finished undisturbed, the target is the last renamer's body,
      every call that reported success renamed, and a temporary remains exactly for each
      call that gave up writing it or could not remove it. */
  lemma AtRest(s: System, actions: seq<Action>, t: System)
    requires Fresh(s) && s.files.Keys <= {Target} && t == Run(s, actions)
    requires forall k | 0 <= k < |actions| :: actions[k].By?
    requires forall i | 0 <= i < |t.writers| :: t.writers[i].stage.Finished? || t.writers[i].stage.Left?
    ensures Lookup(t.files, Target) == After(s, t.renames)
    ensures forall i | 0 <= i < |t.writers| :: i in t.renames <==> t.writers[i].stage == Finished(true)
    ensures forall name | name != Target ::
      name in t.files <==> exists i :: 0 <= i < |t.writers| && t.writers[i].stage.Left? && Holding(t.writers[i]) == Some(name)
  {
    FreshHasInv(s);
    RunIsOnward(s, actions, t);
    RunKeepsCalm(s, actions, t);
    AfterAgrees(s, t, t.renames);
    forall name | name != Target && name in t.files
      ensures exists i :: 0 <= i < |t.writers| && t.writers[i].stage.Left? && Holding(t.writers[i]) == Some(name)
    {
      var i :| 0 <= i < |t.writers| && Holding(t.writers[i]) == Some(name);
      assert t.writers[i].stage.Left?;
    }
  }
}

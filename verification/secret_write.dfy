/** One call of `write` as it is carried out, and that it is a run of one writer. */
module SecretWrite {
  import opened Wrappers
  import opened SecretFile

  /** What the file system answers at each step. A write that fails leaves `k` bytes. */
  datatype Answers = Answers(creates: bool, failsAfter: Option<nat>, syncs: bool, carriesMode: bool,
                             renames: bool, removes: bool, syncsDirectory: bool)

  /** The temporary is on disk, complete and with the target's mode. */
  predicate GotReady(answers: Answers) {
    answers.creates && answers.failsAfter == None && answers.syncs && answers.carriesMode
  }

  /** A run in which writer `i` alone moves. */
  ghost predicate Alone(i: nat, actions: seq<Action>) {
    forall k | 0 <= k < |actions| :: actions[k].By? && actions[k].i == i
  }

  ghost predicate Reaches(s: System, i: nat, t: System) {
    exists actions :: Alone(i, actions) && t == Run(s, actions)
  }

  lemma ReachesBy(s: System, i: nat, move: Move, t: System)
    requires t == Step(s, By(i, move))
    ensures Reaches(s, i, t)
  {
    var actions := [By(i, move)];
    assert actions[..0] == [];
    assert Alone(i, actions) && t == Run(s, actions);
  }

  lemma {:induction false} RunConcat(s: System, first: seq<Action>, second: seq<Action>)
    ensures Run(s, first + second) == Run(Run(s, first), second)
    decreases |second|
  {
    if second == [] {
      assert first + second == first;
    } else {
      RunConcat(s, first, second[..|second| - 1]);
      assert (first + second)[..|first + second| - 1] == first + second[..|second| - 1];
    }
  }

  lemma ReachesThrough(s: System, i: nat, m: System, t: System)
    requires Reaches(s, i, m) && Reaches(m, i, t)
    ensures Reaches(s, i, t)
  {
    var first :| Alone(i, first) && m == Run(s, first);
    var second :| Alone(i, second) && t == Run(m, second);
    RunConcat(s, first, second);
    assert Alone(i, first + second);
  }

  /** The two directories differ at most in this entry. */
  ghost predicate SameBut(a: map<Name, Inode>, b: map<Name, Inode>, temp: Name) {
    forall name | name != temp :: Lookup(a, name) == Lookup(b, name)
  }

  /** Nothing changes but the temporary and, when it is moved, the target it becomes. */
  ghost predicate Replaced(before: map<Name, Inode>, after: map<Name, Inode>, temp: Name, moved: bool) {
    && (forall name | name != temp && name != Target :: Lookup(after, name) == Lookup(before, name))
    && Lookup(after, Target) == Lookup(before, if moved then temp else Target)
  }

  /** The rename as two moves of writer `i`: it and the directory's sync, or it and the clean-up. */
  lemma RenameRuns(s: System, i: nat, w: Writer, n: nat, answers: Answers) returns (t: System)
    requires i < |s.writers| && s.writers[i] == w && w.stage == Synced(n) && Temp(w.pid, n) in s.files
    ensures Reaches(s, i, t) && i < |t.writers| && Count(t, w.pid) == Count(s, w.pid)
    ensures t.writers[i] == w.(stage := if answers.renames then Finished(true)
                                        else if answers.removes then Finished(false) else Left(n))
    ensures var temp := Temp(w.pid, n);
      t.files == if answers.renames then (s.files - {temp})[Target := s.files[temp]]
                 else if !answers.renames && answers.removes then s.files - {temp}
                 else s.files
  {
    var m := Step(s, By(i, Rename(answers.renames)));
    ReachesBy(s, i, Rename(answers.renames), m);
    var last := if answers.renames then DirSync(answers.syncsDirectory) else Remove(answers.removes);
    t := Step(m, By(i, last));
    ReachesBy(m, i, last, t);
    ReachesThrough(s, i, m, t);
  }

  class Directory {
    var files: map<Name, Inode>

    constructor (files: map<Name, Inode>)
      ensures this.files == files
    {
      this.files := files;
    }
  }

  class Process {
    const pid: nat
    const directory: Directory
    var counter: nat

    constructor (pid: nat, directory: Directory)
      ensures this.pid == pid && this.directory == directory && counter == 0
    {
      this.pid, this.directory, this.counter := pid, directory, 0;
    }

    /** The process and directory are those of the system, in which `i` is this call. */
    ghost predicate Shows(s: System, i: nat, body: Body, stage: Stage)
      reads this, directory
    {
      && i < |s.writers| && s.writers[i] == Writer(pid, body, stage)
      && directory.files == s.files && counter == Count(s, pid)
    }

    method TakeName(body: Body, ghost s: System, ghost i: nat) returns (temp: Name, ghost t: System)
      requires Shows(s, i, body, Idle)
      modifies this
      ensures temp == Temp(pid, old(counter)) && counter == old(counter) + 1
      ensures Shows(t, i, body, Named(old(counter))) && Reaches(s, i, t)
    {
      temp := Temp(pid, counter);
      counter := counter + 1;
      t := Step(s, By(i, Take));
      ReachesBy(s, i, Take, t);
    }

    method Open(body: Body, ok: bool, temp: Name, ghost n: nat, ghost s: System, ghost i: nat) returns (ghost t: System)
      requires Shows(s, i, body, Named(n)) && temp == Temp(pid, n)
      modifies directory
      ensures Shows(t, i, body, if ok then Writing(n, 0) else Finished(false)) && Reaches(s, i, t)
      ensures directory.files == if ok then old(directory.files)[temp := Inode([], false)] else old(directory.files)
    {
      t := Step(s, By(i, Create(ok)));
      ReachesBy(s, i, Create(ok), t);
      if ok {
        directory.files := directory.files[temp := Inode([], false)];
      }
    }

    /** Write the body, or only some of it and give up. */
    method Fill(body: Body, failsAfter: Option<nat>, temp: Name, ghost n: nat, ghost s: System, ghost i: nat)
      returns (ghost t: System)
      requires Shows(s, i, body, Writing(n, 0)) && temp == Temp(pid, n)
      modifies directory
      ensures Shows(t, i, body, if failsAfter.None? then Writing(n, |body|) else Left(n)) && Reaches(s, i, t)
      ensures failsAfter.None? ==> directory.files == old(directory.files)[temp := Inode(body, false)]
      ensures SameBut(directory.files, old(directory.files), temp) && temp in directory.files
    {
      var written := match failsAfter case None => |body| case Some(k) => if k < |body| then k else |body|;
      directory.files := directory.files[temp := Inode(body[..written], false)];
      assert body[..|body|] == body;
      t := Step(s, By(i, WriteSome(written)));
      ReachesBy(s, i, WriteSome(written), t);
      if failsAfter.Some? {
        ghost var m := t;
        t := Step(m, By(i, GiveUp));
        ReachesBy(m, i, GiveUp, t);
        ReachesThrough(s, i, m, t);
      }
    }

    /** Get the body onto disk, and the target's mode onto the temporary. */
    method Settle(body: Body, answers: Answers, temp: Name, ghost n: nat, ghost s: System, ghost i: nat)
      returns (ok: bool, ghost t: System)
      requires Shows(s, i, body, Writing(n, |body|)) && temp == Temp(pid, n)
      requires Lookup(directory.files, temp) == Some(Inode(body, false))
      modifies directory
      ensures ok == (answers.syncs && answers.carriesMode) && Reaches(s, i, t)
      ensures Shows(t, i, body, if ok then Synced(n) else Left(n))
      ensures ok ==> Lookup(directory.files, temp) == Some(Inode(body, true))
      ensures SameBut(directory.files, old(directory.files), temp) && temp in directory.files
    {
      t := s;
      ghost var m := s;
      if answers.syncs {
        directory.files := directory.files[temp := Inode(body, true)];
        m := Step(s, By(i, Sync));
        ReachesBy(s, i, Sync, m);
        t := m;
        if answers.carriesMode {
          return true, t;
        }
      }
      t := Step(m, By(i, GiveUp));
      ReachesBy(m, i, GiveUp, t);
      if answers.syncs {
        ReachesThrough(s, i, m, t);
      }
      return false, t;
    }

    /** Move the temporary over the target, and clean up when that fails. */
    method Replace(body: Body, answers: Answers, temp: Name, ghost n: nat, ghost s: System, ghost i: nat)
      returns (ok: bool, ghost t: System)
      requires Shows(s, i, body, Synced(n)) && temp == Temp(pid, n) && temp in directory.files
      modifies directory
      ensures ok == answers.renames && Reaches(s, i, t)
      ensures Shows(t, i, body,
                    if ok then Finished(true) else if answers.removes then Finished(false) else Left(n))
      ensures Replaced(old(directory.files), directory.files, temp, ok)
      ensures temp in directory.files <==> !ok && !answers.removes
    {
      t := RenameRuns(s, i, Writer(pid, body, Synced(n)), n, answers);
      if answers.renames {
        directory.files := (directory.files - {temp})[Target := directory.files[temp]];
      } else if answers.removes {
        directory.files := directory.files - {temp};
      }
      return answers.renames, t;
    }

    method Begin(body: Body, creates: bool, ghost s: System, ghost i: nat) returns (temp: Name, ghost t: System)
      requires Shows(s, i, body, Idle)
      modifies this, directory
      ensures temp == Temp(pid, old(counter)) && counter == old(counter) + 1 && Reaches(s, i, t)
      ensures Shows(t, i, body, if creates then Writing(old(counter), 0) else Finished(false))
      ensures SameBut(directory.files, old(directory.files), temp) && (creates ==> temp in directory.files)
    {
      ghost var n, m := counter, s;
      temp, m := TakeName(body, s, i);
      t := Open(body, creates, temp, n, m, i);
      ReachesThrough(s, i, m, t);
    }

    /** Everything before the rename. */
    method Prepare(body: Body, answers: Answers, ghost s: System, ghost i: nat)
      returns (temp: Name, ok: bool, ghost stage: Stage, ghost t: System)
      requires Shows(s, i, body, Idle)
      modifies this, directory
      ensures Reaches(s, i, t) && Shows(t, i, body, stage)
      ensures stage == if ok then Synced(old(counter)) else if answers.creates then Left(old(counter)) else Finished(false)
      ensures temp == Temp(pid, old(counter)) && counter == old(counter) + 1 && SameBut(directory.files, old(directory.files), temp)
      ensures ok == GotReady(answers) && (answers.creates ==> temp in directory.files)
      ensures ok ==> Lookup(directory.files, temp) == Some(Inode(body, true))
    {
      ghost var n, m := counter, s;
      temp, t := Begin(body, answers.creates, s, i);
      ok, stage := answers.creates, Finished(false);
      if ok {
        m := t;
        t := Fill(body, answers.failsAfter, temp, n, m, i);
        ReachesThrough(s, i, m, t);
        ok, stage := answers.failsAfter.None?, Left(n);
      }
      if ok {
        m := t;
        ok, t := Settle(body, answers, temp, n, m, i);
        ReachesThrough(s, i, m, t);
        stage := if ok then Synced(n) else Left(n);
      }
    }

    /** The whole call. It succeeds exactly when every step up to the rename does; then the
        target holds exactly this body, safe on disk. When it fails the target is untouched,
        and a temporary that was created is left behind exactly when a step before the rename
        failed or the clean-up did. Either way the call is a run of one writer, so everything
        proved of interleaved writers holds of it. */
    method Write(body: Body, answers: Answers, ghost s: System, ghost i: nat)
      returns (ok: bool, ghost stage: Stage, ghost t: System)
      requires Shows(s, i, body, Idle)
      modifies this, directory
      ensures Reaches(s, i, t) && Shows(t, i, body, stage) && (ok <==> stage == Finished(true))
      ensures Lookup(directory.files, Target) == if ok then Some(Inode(body, true)) else Lookup(old(directory.files), Target)
      ensures forall name | name != Target && name != Temp(pid, old(counter)) ::
        Lookup(directory.files, name) == Lookup(old(directory.files), name)
      ensures ok == (GotReady(answers) && answers.renames)
      ensures answers.creates ==>
        (Temp(pid, old(counter)) in directory.files <==> !ok && !(GotReady(answers) && answers.removes))
      ensures counter == old(counter) + 1
    {
      var temp;
      ghost var n, m := counter, s;
      temp, ok, stage, m := Prepare(body, answers, s, i);
      if !ok {
        return false, stage, m;
      }
      ok, t := Replace(body, answers, temp, n, m, i);
      ReachesThrough(s, i, m, t);
      stage := if ok then Finished(true) else if answers.removes then Finished(false) else Left(n);
    }
  }
}

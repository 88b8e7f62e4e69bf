/** Attaching to a job's events: the serving loop that replays and tails the journal,
    and the client that reads it and re-attaches after a dropped connection.

    The journal is given by the whole list `all` it will ever hold; what one pass of the
    loop sees of it, whether each write goes through and what wakes the loop are a script. */
module Attach {
  import opened Wrappers
  import opened Events
  import Journal

  /** A frame on its way to the client: only a timed-out write ends the stream. */
  datatype Write = Sent | Lost | TimedOut

  datatype Wake = Changed | Closed | Tick(write: Write) | ClientFrame

  /** One pass: `seen` is how much of the journal the replay reads, `told` what the
      heartbeat reports and `high` what the end-of-stream test reads. */
  datatype Pass = Pass(granted: bool, seen: Option<nat>, writes: nat -> Write, state: Option<JobState>,
                       told: nat, high: nat, farewell: Write, wake: Wake)

  datatype Frame = EventFrame(event: Event) | Refused

  ghost predicate Numbered(all: seq<Event>) {
    forall i | 0 <= i < |all| :: all[i].seqNo == i + 1 && !all[i].kind.EvHeartbeat?
  }

  // ---- The serving loop -------------------------------------------------------

  function Put(write: Write, event: Event): seq<Frame> {
    if write.Sent? then [EventFrame(event)] else []
  }

  datatype Sending = Sending(frames: seq<Frame>, next: nat, ended: bool)

  /** Write the replayed events in order; a timeout or the first `Done` ends the stream. */
  function SendAll(events: seq<Event>, writes: nat -> Write, next: nat): Sending {
    if events == [] then Sending([], next, false)
    else
      var e := events[0];
      var write := writes(e.seqNo);
      if write.TimedOut? || e.kind.EvDone? then Sending(Put(write, e), e.seqNo + 1, true)
      else
        var rest := SendAll(events[1..], writes, e.seqNo + 1);
        rest.(frames := Put(write, e) + rest.frames)
  }

  function StateOf(p: Pass): JobState {
    match p.state
    case None => Done
    case Some(state) => state
  }

  function Beat(job: string, p: Pass): Event {
    Event(job, p.told, 0, EvHeartbeat(StateOf(p), p.told))
  }

  function Visible(all: seq<Event>, seen: nat): seq<Event> {
    if seen <= |all| then all[..seen] else all
  }

  datatype Turn = Turn(frames: seq<Frame>, next: nat, goesOn: bool)

  /** What follows the replayed events: a farewell past the end, or waiting for more. */
  function AfterSending(job: string, p: Pass, sent: Sending): Turn {
    if sent.ended then Turn(sent.frames, sent.next, false)
    else if StateOf(p).IsTerminal() && p.high < sent.next then
      Turn(sent.frames + Put(p.farewell, Beat(job, p)), sent.next, false)
    else
      match p.wake
      case Changed => Turn(sent.frames, sent.next, true)
      case Tick(write) =>
        if write.TimedOut? then Turn(sent.frames, sent.next, false)
        else Turn(sent.frames + Put(write, Beat(job, p)), sent.next, true)
      case Closed => Turn(sent.frames, sent.next, false)
      case ClientFrame => Turn(sent.frames, sent.next, false)
  }

  /** One pass: the grant is read again, then everything journaled since `next` is sent. */
  function OnePass(job: string, all: seq<Event>, p: Pass, next: nat): Turn {
    if !p.granted then Turn([Refused], next, false)
    else if p.seen.None? then Turn([], next, false)
    else AfterSending(job, p, SendAll(Journal.From(Visible(all, p.seen.value), next), p.writes, next))
  }

  /** Everything one connection is sent, from the first pass to the last scripted one. */
  function Served(job: string, all: seq<Event>, passes: seq<Pass>, next: nat): seq<Frame> {
    if passes == [] then []
    else
      var turn := OnePass(job, all, passes[0], next);
      if turn.goesOn then turn.frames + Served(job, all, passes[1..], turn.next) else turn.frames
  }

  method SendEvents(events: seq<Event>, writes: nat -> Write, start: nat) returns (frames: seq<Frame>, next: nat, ended: bool)
    ensures Sending(frames, next, ended) == SendAll(events, writes, start)
  {
    frames, next, ended := [], start, false;
    var i := 0;
    ghost var all := SendAll(events, writes, start);
    assert events[0..] == events && [] + all.frames == all.frames;
    while i < |events|
      invariant 0 <= i <= |events|
      invariant var rest := SendAll(events[i..], writes, next);
        all == rest.(frames := frames + rest.frames)
    {
      var e := events[i];
      var write := writes(e.seqNo);
      next := e.seqNo + 1;
      assert events[i..][1..] == events[i + 1..];
      frames := frames + Put(write, e);
      if write.TimedOut? || e.kind.EvDone? {
        return frames, next, true;
      }
      i := i + 1;
    }
    assert frames + [] == frames;
  }

  method ServePass(job: string, all: seq<Event>, p: Pass, start: nat) returns (frames: seq<Frame>, next: nat, goesOn: bool)
    ensures Turn(frames, next, goesOn) == OnePass(job, all, p, start)
  {
    if !p.granted {
      return [Refused], start, false;
    }
    if p.seen.None? {
      return [], start, false;
    }
    var ended;
    frames, next, ended := SendEvents(Journal.From(Visible(all, p.seen.value), start), p.writes, start);
    if ended {
      return frames, next, false;
    }
    if StateOf(p).IsTerminal() && p.high < next {
      return frames + Put(p.farewell, Beat(job, p)), next, false;
    }
    match p.wake {
      case Changed => goesOn := true;
      case Tick(write) =>
        if write.TimedOut? {
          return frames, next, false;
        }
        frames, goesOn := frames + Put(write, Beat(job, p)), true;
      case Closed => goesOn := false;
      case ClientFrame => goesOn := false;
    }
  }

  /** Sequence numbers start at 1, so asking from 0 asks from the start. */
  function Start(fromSeq: nat): (next: nat)
    ensures next == 1 || next == fromSeq
    ensures next >= 1 && next >= fromSeq
  {
    if fromSeq > 1 then fromSeq else 1
  }

  /** What the loop has still to send. */
  ghost function Remaining(job: string, all: seq<Event>, todo: seq<Pass>, next: nat, goesOn: bool): seq<Frame> {
    if goesOn then Served(job, all, todo, next) else []
  }

  lemma RemainingStep(job: string, all: seq<Event>, todo: seq<Pass>, next: nat, turn: Turn)
    requires todo != [] && turn == OnePass(job, all, todo[0], next)
    ensures Remaining(job, all, todo, next, true)
         == turn.frames + Remaining(job, all, todo[1..], turn.next, turn.goesOn)
  {
  }

  /** The serving loop over a script of passes. */
  method ServeAttach(job: string, all: seq<Event>, passes: seq<Pass>, fromSeq: nat) returns (frames: seq<Frame>)
    ensures frames == Served(job, all, passes, Start(fromSeq))
  {
    var todo, next, goesOn := passes, Start(fromSeq), true;
    frames := [];
    ghost var rest := Served(job, all, passes, next);
    ghost var whole := rest;
    while goesOn && todo != []
      invariant rest == Remaining(job, all, todo, next, goesOn)
      invariant whole == frames + rest
      decreases |todo|
    {
      var sent, after, more := ServePass(job, all, todo[0], next);
      RemainingStep(job, all, todo, next, Turn(sent, after, more));
      rest := Remaining(job, all, todo[1..], after, more);
      frames, todo, next, goesOn := frames + sent, todo[1..], after, more;
    }
  }

  // ---- The client -------------------------------------------------------------

  datatype Ending = Open | Finished | Skipped | TurnedAway

  /** What the client holds after reading some frames. */
  datatype Client = Client(received: seq<Event>, lastSeq: nat, ending: Ending)

  function Read(c: Client, frame: Frame): Client {
    if !c.ending.Open? then c
    else if frame.Refused? then c.(ending := TurnedAway)
    else
      var e := frame.event;
      if e.kind.EvHeartbeat? then
        if e.kind.state.IsTerminal() && e.kind.seqHigh <= c.lastSeq then c.(ending := Finished) else c
      else if e.seqNo <= c.lastSeq then c
      else if c.lastSeq != 0 && e.seqNo != c.lastSeq + 1 then c.(ending := Skipped)
      else Client(c.received + [e], e.seqNo, if e.kind.EvDone? then Finished else Open)
  }

  function ReadAll(c: Client, frames: seq<Frame>): Client
    decreases |frames|
  {
    if frames == [] then c else ReadAll(Read(c, frames[0]), frames[1..])
  }

  function Arrived(frames: seq<Frame>, n: nat): seq<Frame> {
    if n <= |frames| then frames[..n] else frames
  }

  /** One connection: what the node writes when asked from a number, and how many of
      those frames arrive before the connection drops. */
  datatype Link = Link(serve: nat -> seq<Frame>, arriving: nat)

  /** Attach from one past the last event held, unless the stream already ended. */
  function Attached(c: Client, k: Link): Client {
    if c.ending.Finished? then c else ReadAll(c.(ending := Open), Arrived(k.serve(c.lastSeq + 1), k.arriving))
  }

  function Attaching(fromSeq: nat, ks: seq<Link>): Client {
    if ks == [] then Client([], Start(fromSeq) - 1, Open)
    else Attached(Attaching(fromSeq, ks[..|ks| - 1]), ks[|ks| - 1])
  }

  /** A connection to a node whose loop runs these passes. */
  datatype Connection = Connection(passes: seq<Pass>, arriving: nat)

  function Dialled(job: string, all: seq<Event>, k: Connection): Link {
    Link((next: nat) => Served(job, all, k.passes, next), k.arriving)
  }

  function DialAll(job: string, all: seq<Event>, ks: seq<Connection>): seq<Link> {
    seq(|ks|, i requires 0 <= i < |ks| => Dialled(job, all, ks[i]))
  }
}

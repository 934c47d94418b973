/**
 The connection as an object, with the loop of its serial writer. Between any two
 of the writer's own critical sections other threads make arbitrary moves.
 */
module PipeWriter {
  import opened Prelude
  import opened PipeConnection
  import opened PipeConnectionProofs

  /** What one turn of the write loop meets: moves of other threads, and system calls. */
  datatype Poll = Interrupted | NotReady | PollFailed | Again | Failed | Accepted(count: nat)

  datatype Turn = Turn(before: seq<Move>, poll: Poll, meanwhile: seq<Move>)

  predicate OfOthers(m: Move) {
    !m.TakeJob? && !m.WriterLoop? && !m.WriteSome? && !m.WriteError?
  }

  function RunFrom(s: Pipe, moves: seq<Move>): Pipe {
    if moves == [] then s else Step(RunFrom(s, moves[..|moves| - 1]), moves[|moves| - 1])
  }

  ghost predicate Ok(s: Pipe) {
    CallersOk(s) && WriterOk(s)
  }

  lemma {:induction false} RunFromParts(s: Pipe, a: seq<Move>, b: seq<Move>)
    ensures RunFrom(s, a + b) == RunFrom(RunFrom(s, a), b)
  {
    if b == [] {
      assert a + b == a;
    } else {
      RunFromParts(s, a, b[..|b| - 1]);
      assert (a + b)[..|a + b| - 1] == a + b[..|b| - 1];
    }
  }

  lemma OneMore(s: Pipe, a: seq<Move>, m: Move)
    ensures RunFrom(s, a + [m]) == Step(RunFrom(s, a), m)
  {
    assert (a + [m])[..|a|] == a;
  }

  lemma StepIsOk(s: Pipe, m: Move)
    requires Ok(s)
    ensures Ok(Step(s, m))
  {
    StepKeepsCallers(s, m);
    StepKeepsWriter(s, m);
  }

  /** The frame in hand stays as it is while others move. */
  predicate SameInHand(s: Pipe, t: Pipe) {
    && t.writer == s.writer && t.wire == s.wire && t.frames == s.frames && t.taken == s.taken
    && |s.queued| <= |t.queued| && (s.closed ==> t.closed)
    && (forall i | 0 <= i < |s.queued| :: t.queued[i] == s.queued[i] && Frame(t, i) == Frame(s, i))
  }

  lemma SameInHandChains(s: Pipe, t: Pipe, u: Pipe)
    requires SameInHand(s, t) && SameInHand(t, u)
    ensures SameInHand(s, u)
  {
  }

  /** The thread that holds the lock registers its request and lets go. */
  lemma ReleaseFreesLock(s: Pipe)
    requires Ok(s) && s.holder.Some?
    ensures Step(s, Insert(s.holder.value)).holder.None?
  {
  }

  lemma OthersOnlyAdd(s: Pipe, m: Move)
    requires OfOthers(m)
    ensures var t := Step(s, m);
      && t.writer == s.writer && t.wire == s.wire && t.frames == s.frames && t.taken == s.taken && (s.closed ==> t.closed)
      && (t.queued == s.queued || t.queued == s.queued + [m.id])
  {
    hide Frame, TakeJobStep, WriterLoopStep, WriteSomeStep, WriteErrorStep;
    if m.Start? || m.Check? || m.Refuse? || m.Insert? || m.Arm? || m.Enqueue? {
      hide FinishStep, FailAllStep, ResumeStep, CancelHandlerStep;
    } else {
      hide StartStep, CheckStep, RefuseStep, InsertStep, ArmStep, EnqueueStep;
    }
  }

  lemma OthersKeepPayloads(s: Pipe, m: Move)
    requires TablesOk(s) && OfOthers(m)
    ensures forall id | id in s.payload :: id in Step(s, m).payload && Step(s, m).payload[id] == s.payload[id]
  {
    hide Frame, TakeJobStep, WriterLoopStep, WriteSomeStep, WriteErrorStep;
  }

  lemma SameFramesInHand(s: Pipe, t: Pipe)
    requires QueueOk(s) && s.queued <= t.queued
    requires forall id | id in s.payload :: id in t.payload && t.payload[id] == s.payload[id]
    ensures forall i | 0 <= i < |s.queued| :: t.queued[i] == s.queued[i] && Frame(t, i) == Frame(s, i)
  {
    forall i | 0 <= i < |s.queued| ensures t.queued[i] == s.queued[i] && Frame(t, i) == Frame(s, i) {
      assert PipeConnectionProofs.Framing.IsFrame(Frame(s, i));
    }
  }

  lemma OthersLeaveTheFrame(s: Pipe, m: Move)
    requires Ok(s) && OfOthers(m)
    ensures SameInHand(s, Step(s, m))
  {
    OthersOnlyAdd(s, m);
    OthersKeepPayloads(s, m);
    assert QueueOk(s) && s.queued <= Step(s, m).queued;
    hide Step, Ok;
    SameFramesInHand(s, Step(s, m));
  }

  predicate OthersTurn(turn: Turn) {
    && (forall i | 0 <= i < |turn.before| :: OfOthers(turn.before[i]))
    && (forall i | 0 <= i < |turn.meanwhile| :: OfOthers(turn.meanwhile[i]))
  }

  /** What is still to be written of the frame in hand. */
  function Left(s: Pipe): int
    requires s.writer.Some?
  {
    |Frame(s, s.writer.value.index)| - s.writer.value.offset
  }

  lemma WriterFits(s: Pipe)
    requires Ok(s) && s.writer.Some?
    ensures s.writer.value.index < |s.queued| && s.writer.value.offset <= |Frame(s, s.writer.value.index)|
    ensures s.pending <= s.due.Keys
  {
    hide Frame;
  }

  /** Hands each of the entries the outcome, in any order. */
  method Deliver(before: map<Id, seq<Outcome>>, entries: set<Id>, outcome: Outcome) returns (due: map<Id, seq<Outcome>>)
    requires entries <= before.Keys
    ensures due == map id | id in before :: if id in entries then before[id] + [outcome] else before[id]
  {
    due := before;
    var left := entries;
    while left != {}
      invariant left <= entries && due.Keys == before.Keys
      invariant forall id | id in due :: due[id] == if id in entries && id !in left then before[id] + [outcome] else before[id]
      decreases left
    {
      var entry :| entry in left;
      due := due[entry := due[entry] + [outcome]];
      left := left - {entry};
    }
  }

  class Connection {
    var closed: bool
    var pending: set<Id>
    var wire: seq<Byte>
    var others: Pipe

    function Abs(): Pipe
      reads this
    {
      others.(closed := closed, pending := pending, wire := wire)
    }

    /** Another thread makes a move. */
    method Interfere(m: Move)
      requires Ok(Abs())
      modifies this
      ensures Abs() == Step(old(Abs()), m) && Ok(Abs())
    {
      StepIsOk(Abs(), m);
      hide Step, Ok;
      others := Step(Abs(), m);
      closed, pending, wire := others.closed, others.pending, others.wire;
    }

    /** Others move for a while, and whoever then holds the lock lets it go. */
    method LetOthersMove(moves: seq<Move>) returns (trace: seq<Move>)
      requires Ok(Abs()) && forall i | 0 <= i < |moves| :: OfOthers(moves[i])
      modifies this
      ensures Abs() == RunFrom(old(Abs()), trace) && Ok(Abs()) && Abs().holder.None?
      ensures SameInHand(old(Abs()), Abs())
    {
      trace := [];
      var i := 0;
      while i < |moves|
        invariant i <= |moves| && Ok(Abs()) && Abs() == RunFrom(old(Abs()), trace) && SameInHand(old(Abs()), Abs())
      {
        OthersLeaveTheFrame(Abs(), moves[i]);
        SameInHandChains(old(Abs()), Abs(), Step(Abs(), moves[i]));
        OneMore(old(Abs()), trace, moves[i]);
        hide *;
        Interfere(moves[i]);
        trace, i := trace + [moves[i]], i + 1;
      }
      if others.holder.Some? {
        var release := Insert(others.holder.value);
        OthersLeaveTheFrame(Abs(), release);
        SameInHandChains(old(Abs()), Abs(), Step(Abs(), release));
        OneMore(old(Abs()), trace, release);
        ReleaseFreesLock(Abs());
        hide *;
        Interfere(release);
        trace := trace + [release];
      }
    }

    /** Takes a waiting request out of the table; the first to do so resumes its caller. */
    method Finish(id: Id, outcome: Outcome)
      requires others.holder.None?
      modifies this`pending, this`others
      ensures Abs() == FinishStep(old(Abs()), id, outcome)
    {
      if id in pending {
        pending := pending - {id};
        others := others.(due := others.due[id := (if id in others.due then others.due[id] else []) + [outcome]]);
      }
    }

    /** Closes the connection and hands every waiting caller the same outcome. */
    method FailAll(outcome: Outcome)
      requires others.holder.None? && pending <= others.due.Keys
      modifies this
      ensures Abs() == FailAllStep(old(Abs()), outcome)
    {
      closed := true;
      var entries := pending;
      pending := {};
      var due := Deliver(others.due, entries, outcome);
      others := others.(due := due);
      assert due == FailAllStep(old(Abs()), outcome).due;
    }

    /** The next block of the writer's queue begins, unless its request is already over. */
    method TakeJob() returns (active: bool)
      requires others.writer.None? && others.holder.None? && others.taken < |others.queued|
      modifies this`others
      ensures Abs() == TakeJobStep(old(Abs())) && active == Abs().writer.Some?
      ensures active ==> Abs().writer == Some(Job(old(others.taken), 0))
    {
      var index := others.taken;
      active := others.queued[index] in pending && !closed;
      others := others.(taken := index + 1, writer := if active then Some(Job(index, 0)) else None);
    }

    /** The writer puts its frame down, whole, untouched or cut short. */
    method PutDown()
      requires others.writer.Some?
      modifies this`others
      ensures Abs() == Leave(old(Abs()))
    {
      var job := others.writer.value;
      var frame := Frame(others, job.index);
      others := others.(writer := None);
      if job.offset == |frame| {
        others := others.(frames := others.frames + [job.index]);
      } else if job.offset > 0 {
        others := others.(broken := Some(job));
      }
    }

    /** The tests at the head of the loop. */
    method GoesOn() returns (more: bool)
      requires Abs().holder.None? && Abs().writer.Some? && Abs().writer.value.index < |Abs().queued|
      modifies this`others
      ensures Abs() == Step(old(Abs()), WriterLoop) && more == Abs().writer.Some? && (more ==> Abs() == old(Abs()))
    {
      var job := others.writer.value;
      more := job.offset < |Frame(others, job.index)| && !closed && (job.offset > 0 || others.queued[job.index] in pending);
      if !more { PutDown(); }
    }

    /** One write call under the lock; the system takes at most what is left. */
    method WriteOnce(count: nat) returns (more: bool)
      requires Abs().holder.None? && Abs().writer.Some? && Abs().writer.value.index < |Abs().queued|
      requires 0 < count <= Left(Abs())
      modifies this`others, this`wire
      ensures Abs() == Step(old(Abs()), WriteSome(count)) && more == Abs().writer.Some?
    {
      var job := others.writer.value;
      more := !closed && (job.offset > 0 || others.queued[job.index] in pending);
      if more {
        wire := wire + Frame(others, job.index)[job.offset..job.offset + count];
        others := others.(writer := Some(job.(offset := job.offset + count)));
      } else {
        PutDown();
      }
    }

    /** A system call failed: the connection closes, and the frame is put down. */
    method GiveUp()
      requires Abs().holder.None? && Abs().writer.Some? && Abs().writer.value.index < |Abs().queued|
      requires Abs().pending <= Abs().due.Keys
      modifies this
      ensures Abs() == Step(old(Abs()), WriteError) && Abs().writer.None?
    {
      FailAll(Closed);
      PutDown();
    }

    // The four steps of the writer, each as a move of the machine.

    method Begin() returns (active: bool)
      requires Ok(Abs()) && Abs().holder.None? && Abs().writer.None? && Abs().taken < |Abs().queued|
      modifies this
      ensures Abs() == Step(old(Abs()), Move.TakeJob) && Ok(Abs()) && active == Abs().writer.Some?
    {
      StepIsOk(Abs(), Move.TakeJob);
      hide Ok;
      active := TakeJob();
    }

    method Head() returns (more: bool)
      requires Ok(Abs()) && Abs().holder.None? && Abs().writer.Some?
      modifies this
      ensures Abs() == Step(old(Abs()), WriterLoop) && Ok(Abs()) && more == Abs().writer.Some?
      ensures more ==> Abs() == old(Abs())
    {
      WriterFits(Abs());
      StepIsOk(Abs(), WriterLoop);
      hide *;
      more := GoesOn();
    }

    method Push(count: nat) returns (more: bool)
      requires Ok(Abs()) && Abs().holder.None? && Abs().writer.Some? && 0 < count <= Left(Abs())
      modifies this
      ensures Abs() == Step(old(Abs()), WriteSome(count)) && Ok(Abs()) && more == Abs().writer.Some?
    {
      WriterFits(Abs());
      StepIsOk(Abs(), WriteSome(count));
      hide *;
      more := WriteOnce(count);
    }

    method Break()
      requires Ok(Abs()) && Abs().holder.None? && Abs().writer.Some?
      modifies this
      ensures Abs() == Step(old(Abs()), WriteError) && Ok(Abs()) && Abs().writer.None?
    {
      WriterFits(Abs());
      StepIsOk(Abs(), WriteError);
      hide *;
      GiveUp();
    }

    /** The system is ready, or has failed: others may move, then the writer acts. */
    method CallWrite(turn: Turn) returns (trace: seq<Move>, more: bool)
      requires Ok(Abs()) && Abs().writer.Some? && OthersTurn(turn)
      modifies this
      ensures Abs() == RunFrom(old(Abs()), trace) && Ok(Abs()) && more == Abs().writer.Some?
    {
      trace := LetOthersMove(turn.meanwhile);
      assert Abs().writer.Some?;
      hide *;
      var left := Left(Abs());
      if turn.poll.Accepted? && turn.poll.count > 0 && left > 0 {
        var count := if turn.poll.count <= left then turn.poll.count else left;
        OneMore(old(Abs()), trace, WriteSome(count));
        more := Push(count);
        trace := trace + [WriteSome(count)];
      } else if turn.poll.Again? {
        more := true;
      } else {
        OneMore(old(Abs()), trace, WriteError);
        Break();
        trace := trace + [WriteError];
        more := false;
      }
    }

    /** One turn of the write loop. */
    method TakeTurn(turn: Turn) returns (trace: seq<Move>, more: bool)
      requires Ok(Abs()) && Abs().writer.Some? && OthersTurn(turn)
      modifies this
      ensures Abs() == RunFrom(old(Abs()), trace) && Ok(Abs()) && more == Abs().writer.Some?
    {
      trace := LetOthersMove(turn.before);
      assert Abs().writer.Some?;
      hide *;
      OneMore(old(Abs()), trace, WriterLoop);
      more := Head();
      trace := trace + [WriterLoop];
      if more && turn.poll != Interrupted && turn.poll != NotReady {
        var tail;
        tail, more := CallWrite(turn);
        RunFromParts(old(Abs()), trace, tail);
        trace := trace + tail;
      }
    }

    /**
     Writes the next frame of the queue, turn by turn, while others move. The loop
     is a run of the machine, so all that holds of runs holds of it.
     */
    method Write(first: seq<Move>, script: seq<Turn>) returns (trace: seq<Move>, done: bool)
      requires Ok(Abs()) && Abs().writer.None? && Abs().taken < |Abs().queued|
      requires (forall i | 0 <= i < |first| :: OfOthers(first[i])) && forall i | 0 <= i < |script| :: OthersTurn(script[i])
      modifies this
      ensures Abs() == RunFrom(old(Abs()), trace) && Ok(Abs())
      ensures done == Abs().writer.None?
    {
      trace := LetOthersMove(first);
      assert Abs().writer.None? && Abs().taken < |Abs().queued|;
      hide *;
      OneMore(old(Abs()), trace, Move.TakeJob);
      var active := Begin();
      trace := trace + [Move.TakeJob];
      var i := 0;
      while active && i < |script|
        invariant i <= |script| && Abs() == RunFrom(old(Abs()), trace) && Ok(Abs()) && active == Abs().writer.Some?
        decreases |script| - i
      {
        var more;
        more, active := TakeTurn(script[i]);
        RunFromParts(old(Abs()), trace, more);
        trace, i := trace + more, i + 1;
      }
      done := !active;
    }
  }
}

/** What holds of the pipe connection in every run. */
module PipeConnectionProofs {
  import opened Prelude
  import opened PipeConnection
  import Framing = PipeFraming

  // ----- Callers ------------------------------------------------------------------

  /** Nothing that matters to this caller has changed. */
  predicate Alike(s: Pipe, t: Pipe, id: Id) {
    && id in s.phase && id in t.phase && t.phase[id] == s.phase[id]
    && id in s.payload && id in t.payload && t.payload[id] == s.payload[id]
    && id in s.due && id in t.due && t.due[id] == s.due[id]
    && id in s.resumed && id in t.resumed && t.resumed[id] == s.resumed[id]
    && (id in t.pending <==> id in s.pending) && (id in t.handled <==> id in s.handled)
    && (id in s.timers ==> id in t.timers) && (id in s.cancelled ==> id in t.cancelled)
    && (t.holder == Some(id) <==> s.holder == Some(id))
  }

  lemma AlikeIsOk(s: Pipe, t: Pipe, id: Id)
    requires CallerOk(s, id) && Alike(s, t, id)
    ensures CallerOk(t, id)
  {
    hide Framing.IsFrame;
  }

  /** It is enough to look at the caller that moved. */
  lemma OneCallerMoved(s: Pipe, t: Pipe, id: Id)
    requires CallersOk(s) && TablesOk(t)
    requires id in t.phase ==> CallerOk(t, id)
    requires forall other | other in t.phase && other != id :: Alike(s, t, other)
    ensures CallersOk(t)
  {
    hide CallerOk, TablesOk;
    forall other | other in t.phase ensures CallerOk(t, other) {
      if other != id {
        assert Alike(s, t, other);
        assert CallerOk(s, other);
        AlikeIsOk(s, t, other);
      }
    }
  }

  lemma FinishKeepsCallers(s: Pipe, id: Id, outcome: Outcome)
    requires CallersOk(s)
    ensures CallersOk(FinishStep(s, id, outcome))
  {
    hide Framing.IsFrame;
    var t := FinishStep(s, id, outcome);
    if t != s {
      assert CallerOk(s, id);
      assert CallerOk(t, id);
      hide CallerOk;
      OneCallerMoved(s, t, id);
    }
  }

  lemma FailedCaller(s: Pipe, outcome: Outcome, id: Id)
    requires TablesOk(s) && CallerOk(s, id)
    ensures CallerOk(FailAllStep(s, outcome), id)
  {
    hide Framing.IsFrame;
  }

  lemma FailAllKeepsCallers(s: Pipe, outcome: Outcome)
    requires CallersOk(s)
    ensures CallersOk(FailAllStep(s, outcome))
  {
    hide Framing.IsFrame;
    var t := FailAllStep(s, outcome);
    assert TablesOk(t);
    hide CallerOk;
    forall id | id in t.phase ensures CallerOk(t, id) {
      assert CallerOk(s, id);
      FailedCaller(s, outcome, id);
    }
  }

  lemma StartedCaller(s: Pipe, t: Pipe, id: Id, payload: seq<Byte>)
    requires TablesOk(s) && t == StartStep(s, id, payload) && t != s
    ensures CallerOk(t, id) && forall other | other in t.phase && other != id :: Alike(s, t, other)
  {
    hide CallerOk;
    assert forall other | other in t.phase && other != id :: Alike(s, t, other);
    FreshCaller(s, t, id, payload);
  }

  lemma FreshCaller(s: Pipe, t: Pipe, id: Id, payload: seq<Byte>)
    requires TablesOk(s) && t == StartStep(s, id, payload) && t != s
    ensures CallerOk(t, id)
  {
    hide Framing.IsFrame;
  }

  lemma StartKeepsCallers(s: Pipe, id: Id, payload: seq<Byte>)
    requires CallersOk(s)
    ensures CallersOk(StartStep(s, id, payload))
  {
    var t := StartStep(s, id, payload);
    if t != s {
      StartedCaller(s, t, id, payload);
      hide CallerOk;
      assert TablesOk(t);
      hide StartStep;
      OneCallerMoved(s, t, id);
    }
  }

  lemma CheckKeepsCallers(s: Pipe, id: Id)
    requires CallersOk(s)
    ensures CallersOk(CheckStep(s, id))
  {
    hide Framing.IsFrame;
    var t := CheckStep(s, id);
    if t != s {
      assert CallerOk(s, id);
      forall other | other in t.phase && other != id ensures Alike(s, t, other) { assert CallerOk(s, other); }
      OneCallerMoved(s, t, id);
    }
  }

  lemma RefuseKeepsCallers(s: Pipe, id: Id)
    requires CallersOk(s)
    ensures CallersOk(RefuseStep(s, id))
  {
    hide Framing.IsFrame;
    var t := RefuseStep(s, id);
    if t != s {
      assert CallerOk(s, id);
      assert CallerOk(t, id);
      hide CallerOk;
      OneCallerMoved(s, t, id);
    }
  }

  /** A cancellation that came before the registration was seen by the check. */
  lemma InsertKeepsCallers(s: Pipe, id: Id)
    requires CallersOk(s)
    ensures CallersOk(InsertStep(s, id))
  {
    hide Framing.IsFrame;
    var t := InsertStep(s, id);
    if t != s {
      assert CallerOk(s, id);
      assert CallerOk(t, id);
      hide CallerOk;
      OneCallerMoved(s, t, id);
    }
  }

  lemma ArmKeepsCallers(s: Pipe, id: Id)
    requires CallersOk(s)
    ensures CallersOk(ArmStep(s, id))
  {
    hide Framing.IsFrame;
    var t := ArmStep(s, id);
    if t != s {
      assert CallerOk(s, id);
      assert CallerOk(t, id);
      hide CallerOk;
      OneCallerMoved(s, t, id);
    }
  }

  lemma EnqueueKeepsCallers(s: Pipe, id: Id)
    requires CallersOk(s)
    ensures CallersOk(EnqueueStep(s, id))
  {
    hide Framing.IsFrame;
    var t := EnqueueStep(s, id);
    if t != s {
      assert CallerOk(s, id);
      assert CallerOk(t, id);
      hide CallerOk;
      OneCallerMoved(s, t, id);
    }
  }

  lemma ResumeKeepsCallers(s: Pipe, id: Id)
    requires CallersOk(s)
    ensures CallersOk(ResumeStep(s, id))
  {
    hide Framing.IsFrame;
    if Due(s, id) != [] {
      assert CallerOk(s, id);
      OneCallerMoved(s, ResumeStep(s, id), id);
    }
  }

  lemma CancelKeepsCallers(s: Pipe, id: Id)
    requires CallersOk(s)
    ensures CallersOk(s.(cancelled := s.cancelled + {id}))
  {
    hide Framing.IsFrame;
    OneCallerMoved(s, s.(cancelled := s.cancelled + {id}), id);
  }

  lemma HandledCaller(s: Pipe, t: Pipe, id: Id)
    requires CallerOk(s, id)
    requires s.holder.None? && id in s.cancelled && id !in s.pending && t == s.(handled := s.handled + {id})
    ensures CallerOk(t, id)
  {
  }

  lemma HandledKeepsCallers(s: Pipe, id: Id)
    requires CallersOk(s) && id in s.phase && s.holder.None? && id in s.cancelled && id !in s.pending
    ensures CallersOk(s.(handled := s.handled + {id}))
  {
    hide Framing.IsFrame;
    var t := s.(handled := s.handled + {id});
    assert CallerOk(s, id);
    HandledCaller(s, t, id);
    hide CallerOk;
    OneCallerMoved(s, t, id);
  }

  lemma HandlerKeepsCallers(s: Pipe, id: Id)
    requires CallersOk(s)
    ensures CallersOk(CancelHandlerStep(s, id))
  {
    FinishKeepsCallers(s, id, Cancelled);
    hide CallersOk;
    if CancelHandlerStep(s, id) != s { HandledKeepsCallers(FinishStep(s, id, Cancelled), id); }
  }

  /** Only the writer's own variables differ. */
  predicate OnlyWriter(s: Pipe, t: Pipe) {
    t == s.(taken := t.taken, writer := t.writer, broken := t.broken, frames := t.frames, wire := t.wire)
  }

  lemma SameCallers(s: Pipe, t: Pipe)
    requires CallersOk(s) && OnlyWriter(s, t)
    ensures CallersOk(t)
  {
    assert TablesOk(t);
    forall id | id in t.phase ensures CallerOk(t, id) { assert CallerOk(s, id); AlikeIsOk(s, t, id); }
  }

  lemma WriteErrorKeepsCallers(s: Pipe)
    requires CallersOk(s)
    ensures CallersOk(WriteErrorStep(s))
  {
    FailAllKeepsCallers(s, Closed);
    hide CallersOk, Frame, FailAllStep;
    if WriteErrorStep(s) != s { SameCallers(FailAllStep(s, Closed), WriteErrorStep(s)); }
  }

  /** The writer's own moves leave callers alone, except to fail them all. */
  lemma TakeJobKeepsCallers(s: Pipe)
    requires CallersOk(s)
    ensures CallersOk(TakeJobStep(s)) && CallersOk(WriterLoopStep(s))
  {
    hide CallersOk, Frame;
    SameCallers(s, TakeJobStep(s));
    SameCallers(s, WriterLoopStep(s));
  }

  lemma WriteKeepsCallers(s: Pipe, count: nat)
    requires CallersOk(s)
    ensures CallersOk(WriteSomeStep(s, count))
  {
    hide CallersOk, Frame;
    SameCallers(s, WriteSomeStep(s, count));
  }

  lemma StepKeepsCallers(s: Pipe, m: Move)
    requires CallersOk(s)
    ensures CallersOk(Step(s, m))
  {
    hide CallersOk, CheckStep, RefuseStep, InsertStep, FinishStep, FailAllStep, StartStep, ResumeStep;
    match m
    case Start(id, payload) => StartKeepsCallers(s, id, payload);
    case CancelTask(id) => CancelKeepsCallers(s, id);
    case CancelHandler(id) => HandlerKeepsCallers(s, id);
    case Timeout(id) => FinishKeepsCallers(s, id, TimedOut);
    case Finish(id, outcome) => FinishKeepsCallers(s, id, outcome);
    case FailAll(outcome) => FailAllKeepsCallers(s, outcome);
    case Resume(id) => ResumeKeepsCallers(s, id);
    case Arm(id) => ArmKeepsCallers(s, id);
    case Enqueue(id) => EnqueueKeepsCallers(s, id);
    case Check(id) => CheckKeepsCallers(s, id);
    case Refuse(id) => RefuseKeepsCallers(s, id);
    case Insert(id) => InsertKeepsCallers(s, id);
    case WriteError => WriteErrorKeepsCallers(s);
    case WriteSome(count) => WriteKeepsCallers(s, count);
    case _ => TakeJobKeepsCallers(s);
  }

  // ----- The byte stream -------------------------------------------------------------

  lemma {:induction false} SameFrames(s: Pipe, t: Pipe, frames: seq<nat>)
    requires forall i | 0 <= i < |frames| :: Frame(t, frames[i]) == Frame(s, frames[i])
    ensures Joined(t, frames) == Joined(s, frames)
  {
    if frames != [] { SameFrames(s, t, frames[..|frames| - 1]); }
  }

  /** Nothing that matters to the writer has changed, but for new work at the end of the queue. */
  predicate SameWriter(s: Pipe, t: Pipe) {
    && t.taken == s.taken && t.writer == s.writer && t.broken == s.broken && t.frames == s.frames && t.wire == s.wire
    && (s.closed ==> t.closed) && |s.queued| <= |t.queued|
    && (forall i | 0 <= i < |s.queued| :: Frame(t, i) == Frame(s, i))
    && (forall i | |s.queued| <= i < |t.queued| :: Framing.IsFrame(Frame(t, i)))
  }

  lemma OthersKeepStream(s: Pipe, t: Pipe)
    requires WriterOk(s) && SameWriter(s, t)
    ensures StreamOk(t)
  {
    hide Frame;
    SameFrames(s, t, s.frames);
  }

  lemma OthersKeepWriter(s: Pipe, t: Pipe)
    requires WriterOk(s) && SameWriter(s, t)
    ensures WriterOk(t)
  {
    hide Framing.IsFrame;
    OthersKeepStream(s, t);
    hide Frame, StreamOk;
  }

  /** The frames are where they were. */
  predicate SameQueue(s: Pipe, t: Pipe) {
    t.queued == s.queued && t.payload == s.payload
  }

  lemma SameQueueSameFrame(s: Pipe, t: Pipe, index: nat)
    requires SameQueue(s, t)
    ensures Frame(t, index) == Frame(s, index)
  {
  }

  lemma SameQueueSameStream(s: Pipe, t: Pipe, frames: seq<nat>, job: Option<Job>)
    requires SameQueue(s, t)
    ensures Joined(t, frames) == Joined(s, frames) && Part(t, job) == Part(s, job)
  {
    forall i | 0 <= i < |frames| ensures Frame(t, frames[i]) == Frame(s, frames[i]) { SameQueueSameFrame(s, t, frames[i]); }
    if job.Some? { SameQueueSameFrame(s, t, job.value.index); }
    hide Frame;
    SameFrames(s, t, frames);
  }

  lemma JoinedOneMore(s: Pipe, frames: seq<nat>, index: nat)
    ensures Joined(s, frames + [index]) == Joined(s, frames) + Frame(s, index)
  {
    hide Frame;
    assert (frames + [index])[..|frames|] == frames;
  }

  lemma WholePart(s: Pipe, job: Job)
    requires job.offset == |Frame(s, job.index)|
    ensures Part(s, Some(job)) == Frame(s, job.index)
  {
  }

  lemma LeaveKeepsStream(s: Pipe)
    requires s.writer.Some? && s.broken.None? && StreamOk(s) && s.writer.value.offset <= |Frame(s, s.writer.value.index)|
    ensures StreamOk(Leave(s))
  {
    hide Frame;
    var job := s.writer.value;
    var t := Leave(s);
    SameQueueSameStream(s, t, t.frames, Some(job));
    if job.offset == |Frame(s, job.index)| {
      JoinedOneMore(s, s.frames, job.index);
      WholePart(s, job);
      hide Joined;
    }
  }

  lemma LeaveKeepsJobs(s: Pipe)
    requires JobsOk(s) && FramesOk(s) && s.writer.Some?
    requires var job := s.writer.value; 0 < job.offset < |Frame(s, job.index)| ==> s.closed
    ensures JobsOk(Leave(s)) && FramesOk(Leave(s))
  {
    SameQueueSameFrame(s, Leave(s), s.writer.value.index);
    hide Frame;
  }

  lemma SameQueueOk(s: Pipe, t: Pipe)
    requires QueueOk(s) && SameQueue(s, t) && t.taken <= |t.queued|
    ensures QueueOk(t)
  {
    forall i | 0 <= i < |t.queued| ensures Framing.IsFrame(Frame(t, i)) { SameQueueSameFrame(s, t, i); }
  }

  lemma LeaveKeepsWriter(s: Pipe)
    requires WriterOk(s) && s.writer.Some?
    requires var job := s.writer.value; 0 < job.offset < |Frame(s, job.index)| ==> s.closed
    ensures WriterOk(Leave(s))
  {
    LeaveKeepsStream(s);
    LeaveKeepsJobs(s);
    hide Frame, StreamOk, JobsOk, FramesOk;
    SameQueueOk(s, Leave(s));
  }

  lemma TakeJobKeepsWriter(s: Pipe)
    requires WriterOk(s) && TablesOk(s)
    ensures WriterOk(TakeJobStep(s))
  {
    var t := TakeJobStep(s);
    SameQueueOk(s, t);
    SameQueueSameStream(s, t, s.frames, s.broken);
    SameQueueSameFrame(s, t, s.taken);
    if s.broken.Some? { SameQueueSameFrame(s, t, s.broken.value.index); }
    hide Frame, Framing.IsFrame, QueueOk;
  }

  lemma LongerPart(frame: seq<Byte>, k: nat, n: nat, before: seq<Byte>)
    requires k + n <= |frame|
    ensures before + frame[..k] + frame[k..k + n] == before + frame[..k + n]
  {
    assert frame[..k] + frame[k..k + n] == frame[..k + n];
    Assoc(before, frame[..k], frame[k..k + n]);
  }

  lemma BytesKeepStream(s: Pipe, count: nat)
    requires WriterOk(s) && s.writer.Some?
    requires s.writer.value.offset + count <= |Frame(s, s.writer.value.index)|
    ensures WriterOk(Written(s, count))
  {
    var t, job := Written(s, count), s.writer.value;
    SameQueueOk(s, t);
    SameQueueSameStream(s, t, s.frames, s.broken);
    SameQueueSameFrame(s, t, job.index);
    hide Framing.IsFrame, QueueOk, Joined;
    assert FramesOk(t) && JobsOk(t) by { hide Frame; }
    hide Frame, FramesOk;
    LongerPart(Frame(s, job.index), job.offset, count, Joined(s, s.frames));
    assert s.wire == Joined(s, s.frames) + Frame(s, job.index)[..job.offset] by { assert s.broken.None?; }
  }

  lemma WriteKeepsWriter(s: Pipe, count: nat)
    requires WriterOk(s)
    ensures WriterOk(WriteSomeStep(s, count))
  {
    var t := WriteSomeStep(s, count);
    hide WriterOk, Frame;
    if t != s {
      var job := s.writer.value;
      if s.closed || (job.offset == 0 && JobId(s, job) !in s.pending) {
        LeaveKeepsWriter(s);
      } else {
        BytesKeepStream(s, count);
      }
    }
  }

  lemma WriterLoopKeepsWriter(s: Pipe)
    requires WriterOk(s)
    ensures WriterOk(WriterLoopStep(s))
  {
    assert s.writer.Some? ==> JobsOk(s);
    hide WriterOk, Frame, Leave;
    if s.writer.Some? && WriterLoopStep(s) != s { LeaveKeepsWriter(s); }
  }

  lemma WriteErrorKeepsWriter(s: Pipe)
    requires WriterOk(s)
    ensures WriterOk(WriteErrorStep(s))
  {
    var u := FailAllStep(s, Closed);
    FailAllKeepsWriter(s, Closed);
    hide WriterOk, Frame, Leave;
    if s.writer.Some? && s.holder.None? { LeaveKeepsWriter(u); }
  }

  lemma EnqueueKeepsWriter(s: Pipe, id: Id)
    requires CallersOk(s) && WriterOk(s)
    ensures WriterOk(EnqueueStep(s, id))
  {
    hide Framing.IsFrame;
    if In(s, id, Armed) {
      assert CallerOk(s, id);
      OthersKeepWriter(s, EnqueueStep(s, id));
    }
  }

  lemma StartKeepsWriter(s: Pipe, id: Id, payload: seq<Byte>)
    requires TablesOk(s) && WriterOk(s)
    ensures WriterOk(StartStep(s, id, payload))
  {
    assert QueueOk(s);
    var t := StartStep(s, id, payload);
    forall i | 0 <= i < |s.queued| ensures Frame(t, i) == Frame(s, i) { assert Framing.IsFrame(Frame(s, i)); }
    hide WriterOk, QueueOk;
    OthersKeepWriter(s, t);
  }

  lemma FailAllKeepsWriter(s: Pipe, outcome: Outcome)
    requires WriterOk(s)
    ensures WriterOk(FailAllStep(s, outcome))
  {
    hide WriterOk;
    OthersKeepWriter(s, FailAllStep(s, outcome));
  }

  lemma FinishKeepsWriter(s: Pipe, id: Id, outcome: Outcome)
    requires WriterOk(s)
    ensures WriterOk(FinishStep(s, id, outcome)) && WriterOk(CancelHandlerStep(s, id))
  {
    hide WriterOk;
    OthersKeepWriter(s, FinishStep(s, id, outcome));
    OthersKeepWriter(s, CancelHandlerStep(s, id));
  }

  /** Registering, arming, cancelling and resuming leave the writer alone. */
  lemma RegistrationKeepsWriter(s: Pipe, m: Move)
    requires WriterOk(s) && (m.Check? || m.Refuse? || m.Insert? || m.Arm? || m.CancelTask? || m.Resume?)
    ensures WriterOk(Step(s, m))
  {
    hide WriterOk;
    OthersKeepWriter(s, Step(s, m));
  }

  lemma StepKeepsWriter(s: Pipe, m: Move)
    requires CallersOk(s) && WriterOk(s)
    ensures WriterOk(Step(s, m))
  {
    hide WriterOk, FinishStep, FailAllStep, StartStep, EnqueueStep, TakeJobStep, WriterLoopStep, WriteSomeStep;
    match m
    case Start(id, payload) => StartKeepsWriter(s, id, payload);
    case Enqueue(id) => EnqueueKeepsWriter(s, id);
    case Timeout(id) => FinishKeepsWriter(s, id, TimedOut);
    case Finish(id, outcome) => FinishKeepsWriter(s, id, outcome);
    case CancelHandler(id) => FinishKeepsWriter(s, id, Cancelled);
    case FailAll(outcome) => FailAllKeepsWriter(s, outcome);
    case TakeJob => TakeJobKeepsWriter(s);
    case WriterLoop => WriterLoopKeepsWriter(s);
    case WriteError => WriteErrorKeepsWriter(s);
    case WriteSome(count) => WriteKeepsWriter(s, count);
    case _ => RegistrationKeepsWriter(s, m);
  }

  lemma {:induction false} RunIsOk(moves: seq<Move>)
    ensures CallersOk(Run(moves)) && WriterOk(Run(moves))
  {
    if moves != [] {
      RunIsOk(moves[..|moves| - 1]);
      StepKeepsCallers(Run(moves[..|moves| - 1]), moves[|moves| - 1]);
      StepKeepsWriter(Run(moves[..|moves| - 1]), moves[|moves| - 1]);
    }
  }

  // ----- What this means for callers --------------------------------------------------------

  /** A started request is waiting, or has been resumed, exactly once in all. */
  lemma ResumedExactlyOnce(moves: seq<Move>, id: Id)
    ensures var s := Run(moves);
      |Outcomes(s, id)| + |Due(s, id)| + (if id in s.pending then 1 else 0) + (if Unregistered(s, id) then 1 else 0)
      == if id in s.phase then 1 else 0
  {
    RunIsOk(moves);
    var s := Run(moves);
    if id in s.phase { assert CallerOk(s, id); }
  }

  lemma OutcomesStay(s: Pipe, m: Move, id: Id)
    requires CallersOk(s)
    ensures Outcomes(s, id) <= Outcomes(Step(s, m), id)
  {
    hide CallerOk, Frame;
  }

  lemma RunSnoc(moves: seq<Move>, m: Move)
    ensures Run(moves + [m]) == Step(Run(moves), m)
  {
    hide Step;
    assert (moves + [m])[..|moves|] == moves;
  }

  lemma PrefixOfOne(a: seq<Outcome>, b: seq<Outcome>)
    requires a <= b && |a| == 1 && |b| <= 1
    ensures a == b
  {
  }

  lemma OneOutcome(moves: seq<Move>, id: Id)
    ensures |Outcomes(Run(moves), id)| <= 1
    ensures Outcomes(Run(moves), id) != [] ==> id !in Run(moves).pending
  {
    ResumedExactlyOnce(moves, id);
    hide Run, Unregistered;
  }

  lemma OutcomesStayInRun(moves: seq<Move>, m: Move, id: Id)
    ensures Outcomes(Run(moves), id) <= Outcomes(Run(moves + [m]), id)
  {
    RunIsOk(moves);
    RunSnoc(moves, m);
    OutcomesStay(Run(moves), m, id);
    hide *;
  }

  /** Once resumed, a request keeps that one outcome whatever follows. */
  lemma {:induction false} OutcomeIsFinal(moves: seq<Move>, more: seq<Move>, id: Id)
    requires Outcomes(Run(moves), id) != []
    ensures Outcomes(Run(moves + more), id) == Outcomes(Run(moves), id) && |Outcomes(Run(moves), id)| == 1
    ensures id !in Run(moves + more).pending
  {
    OneOutcome(moves, id);
    OneOutcome(moves + more, id);
    hide *;
    if more == [] {
      assert moves + more == moves;
    } else {
      var init, last := more[..|more| - 1], more[|more| - 1];
      OutcomeIsFinal(moves, init, id);
      OutcomesStayInRun(moves + init, last, id);
      assert moves + more == moves + init + [last];
      PrefixOfOne(Outcomes(Run(moves + init), id), Outcomes(Run(moves + more), id));
    }
  }

  /** After a close nobody waits, nobody registers, and the stream stays as it is. */
  lemma ClosedForGood(moves: seq<Move>, m: Move)
    requires Run(moves).closed
    ensures var s, t := Run(moves), Step(Run(moves), m);
      t.closed && s.pending == {} && t.pending == {} && t.holder.None? && t.wire == s.wire
  {
    RunIsOk(moves);
    RunIsOk(moves + [m]);
    RunSnoc(moves, m);
    ClosedStep(Run(moves), m);
    hide Step, Run, CallerOk, WriterOk;
  }

  lemma ClosedStep(s: Pipe, m: Move)
    requires s.closed && s.holder.None?
    ensures Step(s, m).closed && Step(s, m).wire == s.wire && Step(s, m).holder.None?
  {
    hide Frame;
  }

  /** Once the handler of a cancelled task has run, the request is neither waiting nor about to wait. */
  lemma CancellationIsNotLost(moves: seq<Move>, id: Id)
    requires id in Run(moves).handled
    ensures var s := Run(moves); id in s.cancelled && id !in s.pending && s.holder != Some(id)
    ensures var s := Run(moves);
      |Outcomes(s, id)| + |Due(s, id)| == 1 || In(s, id, Entered) || In(s, id, Refusing)
    ensures In(Run(moves), id, Entered) && Run(moves).holder.None? ==>
      RefuseStep(CheckStep(Run(moves), id), id).resumed[id] == [Cancelled]
  {
    RunIsOk(moves);
    assert CallerOk(Run(moves), id);
  }

  /** A registered request whose caller's code has ended has a timer, which ends the wait when it fires. */
  lemma WaitsAreTimed(moves: seq<Move>, id: Id)
    requires id in Run(moves).pending && In(Run(moves), id, Submitted) && Run(moves).holder.None?
    ensures id in Run(moves).timers && Due(Step(Run(moves), Timeout(id)), id) == [TimedOut]
    ensures id !in Step(Run(moves), Timeout(id)).pending
  {
    RunIsOk(moves);
    assert CallerOk(Run(moves), id);
    PendingIsFresh(moves, id);
    assert id in Run(moves).timers by { hide Balance; }
    EndingSteps(Run(moves), id, TimedOut);
    hide Run, Step, FinishStep, FailAllStep, CallerOk;
    FinishTells(Run(moves), id, TimedOut);
  }

  // ----- What this means for the stream -----------------------------------------------------------

  /** Whole frames in queue order, then at most one unfinished frame; cut short only by a close. */
  lemma StreamIsWholeFrames(moves: seq<Move>)
    ensures var s := Run(moves);
      && s.wire == Joined(s, s.frames) + Part(s, s.writer) + Part(s, s.broken)
      && (forall i, j | 0 <= i < j < |s.frames| :: s.frames[i] < s.frames[j] < |s.queued|)
      && (Part(s, s.writer) == [] || Part(s, s.broken) == [])
      && (s.broken.Some? ==> s.closed)
  {
    RunIsOk(moves);
    hide Joined, Frame;
  }

  /** The request lines of these frames, without their newlines. */
  function Requests(s: Pipe, frames: seq<nat>): seq<seq<Byte>> {
    if frames == [] then []
    else
      var frame := Frame(s, frames[|frames| - 1]);
      Requests(s, frames[..|frames| - 1]) + [if frame == [] then [] else frame[..|frame| - 1]]
  }

  lemma {:induction false} FramesAreLines(s: Pipe, frames: seq<nat>)
    requires forall i | 0 <= i < |frames| :: Framing.IsFrame(Frame(s, frames[i]))
    ensures Framing.Lines(Joined(s, frames)) == Requests(s, frames) && Framing.Rest(Joined(s, frames)) == []
  {
    hide Frame, Framing.IsFrame;
    if frames != [] {
      var init, last := frames[..|frames| - 1], Frame(s, frames[|frames| - 1]);
      FramesAreLines(s, init);
      Framing.FrameIsLine(Joined(s, init), last);
      assert last != [] by { FrameIsNotEmpty(last); }
    }
  }

  lemma FrameIsNotEmpty(frame: seq<Byte>)
    requires Framing.IsFrame(frame)
    ensures frame != []
  {
  }

  /** A proper beginning of a frame holds no newline, and a whole frame is one line. */
  lemma PartOfFrame(frame: seq<Byte>, k: nat)
    requires Framing.IsFrame(frame) && k < |frame|
    ensures Framing.NEWLINE !in frame[..k]
  {
    assert frame[..k] <= frame[..|frame| - 1];
  }

  /** The peer reads the requests in queue order, each as one line, and at most a part of one more. */
  lemma PeerReadsRequests(moves: seq<Move>)
    ensures var s := Run(moves);
      var unfinished := Part(s, s.writer) + Part(s, s.broken);
      if s.writer.Some? && s.writer.value.offset == |Frame(s, s.writer.value.index)|
      then Framing.Lines(s.wire) == Requests(s, s.frames + [s.writer.value.index]) && Framing.Rest(s.wire) == []
      else Framing.Lines(s.wire) == Requests(s, s.frames) && Framing.Rest(s.wire) == unfinished
  {
    RunIsOk(moves);
    ReadBack(Run(moves));
  }

  lemma ReadBackWhole(s: Pipe, a: seq<Byte>)
    requires s.writer.Some? && s.writer.value.offset == |Frame(s, s.writer.value.index)|
    requires Framing.IsFrame(Frame(s, s.writer.value.index))
    requires a == Joined(s, s.frames) && Framing.Lines(a) == Requests(s, s.frames) && Framing.Rest(a) == []
    ensures var wire := a + Part(s, s.writer);
      Framing.Lines(wire) == Requests(s, s.frames + [s.writer.value.index]) && Framing.Rest(wire) == []
  {
    var frame := Frame(s, s.writer.value.index);
    Framing.FrameIsLine(a, frame);
    FrameIsNotEmpty(frame);
    WholePart(s, s.writer.value);
    hide Frame, Framing.IsFrame, Framing.Lines, Framing.Rest, Joined, Part;
    assert (s.frames + [s.writer.value.index])[..|s.frames|] == s.frames;
  }

  lemma PartIsUnfinished(s: Pipe, job: Option<Job>)
    requires job.Some? ==> Framing.IsFrame(Frame(s, job.value.index)) && job.value.offset < |Frame(s, job.value.index)|
    ensures Framing.NEWLINE !in Part(s, job)
  {
    hide Frame, Framing.IsFrame;
    if job.Some? { PartOfFrame(Frame(s, job.value.index), job.value.offset); }
  }

  lemma ReadBack(s: Pipe)
    requires WriterOk(s)
    ensures var unfinished := Part(s, s.writer) + Part(s, s.broken);
      if s.writer.Some? && s.writer.value.offset == |Frame(s, s.writer.value.index)|
      then Framing.Lines(s.wire) == Requests(s, s.frames + [s.writer.value.index]) && Framing.Rest(s.wire) == []
      else Framing.Lines(s.wire) == Requests(s, s.frames) && Framing.Rest(s.wire) == unfinished
  {
    hide Frame, Framing.IsFrame, Framing.Lines, Framing.Rest, Requests;
    FramesAreLines(s, s.frames);
    var a, unfinished := Joined(s, s.frames), Part(s, s.writer) + Part(s, s.broken);
    assert s.wire == a + unfinished;
    if s.writer.Some? && s.writer.value.offset == |Frame(s, s.writer.value.index)| {
      assert Part(s, s.broken) == [];
      assert a + unfinished == a + Part(s, s.writer);
      ReadBackWhole(s, a);
    } else {
      PartIsUnfinished(s, s.writer);
      PartIsUnfinished(s, s.broken);
      Framing.PartIsRest(a, unfinished);
    }
  }

  /** In every run bytes go out only on an open connection, and the first byte of a frame only while its caller waits. */
  lemma FirstByteNeedsACaller(moves: seq<Move>, m: Move)
    requires Run(moves + [m]).wire != Run(moves).wire
    ensures var s := Run(moves);
      && !s.closed && s.wire < Run(moves + [m]).wire && s.writer.Some? && s.writer.value.index < |s.queued|
      && (s.writer.value.offset == 0 ==> s.queued[s.writer.value.index] in s.pending)
  {
    RunIsOk(moves);
    RunSnoc(moves, m);
    WritingStep(Run(moves), m);
    hide *;
  }

  lemma WritingStep(s: Pipe, m: Move)
    requires WriterOk(s) && Step(s, m).wire != s.wire
    ensures !s.closed && s.wire < Step(s, m).wire && s.writer.Some? && s.writer.value.index < |s.queued|
    ensures s.writer.value.offset == 0 ==> s.queued[s.writer.value.index] in s.pending
  {
    if m.WriteSome? {
      hide WriterOk, Frame;
    } else {
      OnlyWritesWrite(s, m);
    }
  }

  lemma OnlyWritesWrite(s: Pipe, m: Move)
    requires !m.WriteSome?
    ensures Step(s, m).wire == s.wire
  {
    hide Frame;
    if m.TakeJob? || m.WriterLoop? || m.WriteError? {
      hide FinishStep, StartStep, CheckStep;
    } else {
      hide TakeJobStep, WriterLoopStep, WriteSomeStep, WriteErrorStep;
    }
  }

  lemma PendingIsFresh(moves: seq<Move>, id: Id)
    requires id in Run(moves).pending
    ensures var s := Run(moves); id in s.due && s.due[id] == [] && id in s.phase && id !in s.handled
  {
    RunIsOk(moves);
    assert CallerOk(Run(moves), id);
    hide Run, WriterOk;
  }

  lemma FinishTells(s: Pipe, id: Id, outcome: Outcome)
    requires id in s.pending && s.holder.None? && id in s.due && s.due[id] == []
    ensures var t := FinishStep(s, id, outcome);
      Due(t, id) == [outcome] && t.pending == s.pending - {id} && t.closed == s.closed && forall other | other != id :: Due(t, other) == Due(s, other)
    ensures var t := FailAllStep(s, outcome); Due(t, id) == [outcome] && t.pending == {} && t.closed
  {
  }

  lemma EndingSteps(s: Pipe, id: Id, outcome: Outcome)
    ensures Step(s, Finish(id, outcome)) == FinishStep(s, id, outcome) && Step(s, FailAll(outcome)) == FailAllStep(s, outcome)
    ensures Step(s, CancelHandler(id)) == CancelHandlerStep(s, id)
    ensures id in s.timers ==> Step(s, Timeout(id)) == FinishStep(s, id, TimedOut)
  {
    hide FinishStep, FailAllStep, CancelHandlerStep;
  }

  /** What a waiting request is told by whatever ends it: the reply, the close, its timer, or its cancellation. */
  lemma EndingsAreTold(moves: seq<Move>, id: Id, outcome: Outcome)
    requires id in Run(moves).pending && Run(moves).holder.None?
    ensures var s, t := Run(moves), Step(Run(moves), Finish(id, outcome));
      Due(t, id) == [outcome] && t.pending == s.pending - {id} && forall other | other != id :: Due(t, other) == Due(s, other)
    ensures var t := Step(Run(moves), FailAll(outcome)); Due(t, id) == [outcome] && t.pending == {} && t.closed
    ensures var s, t := Run(moves), Step(Run(moves), Timeout(id)); id in s.timers ==> Due(t, id) == [TimedOut] && t.pending == s.pending - {id}
    ensures var s, t := Run(moves), Step(Run(moves), CancelHandler(id)); id in s.cancelled ==> Due(t, id) == [Cancelled] && t.pending == s.pending - {id}
  {
    PendingIsFresh(moves, id);
    var s := Run(moves);
    hide Run, Step, FinishStep, FailAllStep;
    EndingSteps(s, id, outcome);
    FinishTells(s, id, outcome);
    FinishTells(s, id, TimedOut);
    FinishTells(s, id, Cancelled);
  }

  // ----- One frame for one request ------------------------------------------------------------------

  predicate SentOnce(s: Pipe) {
    && (forall i | 0 <= i < |s.queued| :: In(s, s.queued[i], Submitted))
    && (forall i, j | 0 <= i < j < |s.queued| :: s.queued[i] != s.queued[j])
  }

  lemma WriterLeavesQueue(s: Pipe)
    ensures OnlyWriter(s, TakeJobStep(s)) && OnlyWriter(s, WriterLoopStep(s))
  {
    hide Frame;
  }

  lemma WriteLeavesQueue(s: Pipe, count: nat)
    ensures OnlyWriter(s, WriteSomeStep(s, count))
  {
    hide Frame;
  }

  lemma WriteErrorLeavesQueue(s: Pipe)
    ensures WriteErrorStep(s).queued == s.queued && WriteErrorStep(s).phase == s.phase
  {
    hide Frame;
  }

  lemma QueueGrows(s: Pipe, m: Move)
    ensures Step(s, m).queued == s.queued
      || (m.Enqueue? && In(s, m.id, Armed) && Step(s, m).queued == s.queued + [m.id] && In(Step(s, m), m.id, Submitted))
  {
    WriterLeavesQueue(s);
    WriteErrorLeavesQueue(s);
    if m.WriteSome? { WriteLeavesQueue(s, m.count); }
    hide TakeJobStep, WriterLoopStep, WriteSomeStep, WriteErrorStep;
  }

  lemma SubmittedStays(s: Pipe, m: Move, id: Id)
    requires In(s, id, Submitted)
    ensures In(Step(s, m), id, Submitted)
  {
    WriterLeavesQueue(s);
    WriteErrorLeavesQueue(s);
    if m.WriteSome? { WriteLeavesQueue(s, m.count); }
    hide TakeJobStep, WriterLoopStep, WriteSomeStep, WriteErrorStep;
  }

  lemma StepSendsOnce(s: Pipe, m: Move)
    requires SentOnce(s)
    ensures SentOnce(Step(s, m))
  {
    QueueGrows(s, m);
    forall id | In(s, id, Submitted) ensures In(Step(s, m), id, Submitted) { SubmittedStays(s, m, id); }
    hide Step;
  }

  /** No request is queued twice, so with increasing positions none is sent twice. */
  lemma {:induction false} RunSendsOnce(moves: seq<Move>)
    ensures SentOnce(Run(moves))
  {
    if moves != [] {
      RunSendsOnce(moves[..|moves| - 1]);
      StepSendsOnce(Run(moves[..|moves| - 1]), moves[|moves| - 1]);
    }
  }

  // ----- An undisturbed request -------------------------------------------------------------------------

  /** A new request on an open connection whose writer is idle. */
  predicate Quiet(s: Pipe, id: Id) {
    && !s.closed && s.holder.None? && s.writer.None? && s.taken == |s.queued|
    && id !in s.phase && id !in s.cancelled
  }

  function Submission(s: Pipe, id: Id, payload: seq<Byte>): Pipe {
    EnqueueStep(ArmStep(InsertStep(CheckStep(StartStep(s, id, payload), id), id), id), id)
  }

  lemma QuietSubmission(s: Pipe, id: Id, payload: seq<Byte>)
    requires Quiet(s, id) && Framing.IsFrame(payload)
    ensures var t := Submission(s, id, payload);
      && t == s.(phase := t.phase, payload := t.payload, due := t.due, resumed := t.resumed, pending := s.pending + {id},
            timers := t.timers, queued := s.queued + [id])
      && id in t.payload && t.payload[id] == payload && Due(t, id) == [] && Outcomes(t, id) == []
  {
    var a := StartStep(s, id, payload);
    assert In(a, id, Entered);
    var b := CheckStep(a, id);
    assert In(b, id, Checked);
    var c := InsertStep(b, id);
    assert In(c, id, Registered);
    var d := ArmStep(c, id);
    assert In(d, id, Armed);
  }

  lemma QuietWrite(t: Pipe, id: Id, payload: seq<Byte>)
    requires !t.closed && t.holder.None? && t.writer.None? && t.taken + 1 == |t.queued| && t.queued[t.taken] == id
    requires id in t.pending && id in t.payload && t.payload[id] == payload && Framing.IsFrame(payload)
    ensures var u := WriterLoopStep(WriteSomeStep(TakeJobStep(t), |payload|));
      u == t.(taken := |t.queued|, frames := t.frames + [t.taken], wire := t.wire + payload)
  {
    var a := TakeJobStep(t);
    assert a.writer == Some(Job(t.taken, 0)) && Frame(a, t.taken) == payload;
    var b := WriteSomeStep(a, |payload|);
    assert b == Written(a, |payload|);
    assert Frame(b, t.taken) == payload;
  }

  /** Left alone, a request is written as one frame and gets the reply that comes for it. */
  lemma UndisturbedRequest(s: Pipe, id: Id, payload: seq<Byte>, text: string)
    requires Quiet(s, id) && Framing.IsFrame(payload)
    ensures
      var sent := WriterLoopStep(WriteSomeStep(TakeJobStep(Submission(s, id, payload)), |payload|));
      var done := ResumeStep(FinishStep(sent, id, Result(text)), id);
      sent.wire == s.wire + payload && Outcomes(done, id) == [Result(text)] && done.pending == s.pending - {id}
  {
    QuietSubmission(s, id, payload);
    var t := Submission(s, id, payload);
    QuietWrite(t, id, payload);
    hide Submission, TakeJobStep, WriteSomeStep, WriterLoopStep;
  }
}

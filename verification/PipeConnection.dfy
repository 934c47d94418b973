/**
 A JSON-RPC connection over pipes, as a machine over the steps that its threads
 take: callers, their cancellation, timers, the reader, the serial writer, close.
 Steps that need the lock do nothing while a caller holds it between its check
 and its registration. A step that is not enabled changes nothing.
 */
module PipeConnection {
  import opened Prelude

  import Framing = PipeFraming

  type Byte = Framing.Byte
  type Id = nat

  datatype Outcome = Result(text: string) | Remote(text: string) | TimedOut | Cancelled | Closed | InvalidResponse

  /** How far a caller's code has come. */
  datatype Phase = Entered | Checked | Refusing | Registered | Armed | Submitted

  /** The frame being written: a position in the writer's queue, and bytes sent. */
  datatype Job = Job(index: nat, offset: nat)

  datatype Pipe = Pipe(
    closed: bool,
    holder: Option<Id>,
    phase: map<Id, Phase>,
    payload: map<Id, seq<Byte>>,
    pending: set<Id>,
    due: map<Id, seq<Outcome>>,
    resumed: map<Id, seq<Outcome>>,
    cancelled: set<Id>,
    handled: set<Id>,
    timers: set<Id>,
    queued: seq<Id>,
    taken: nat,
    writer: Option<Job>,
    broken: Option<Job>,
    frames: seq<nat>,
    wire: seq<Byte>)

  const OPEN := Pipe(false, None, map[], map[], {}, map[], map[], {}, {}, {}, [], 0, None, None, [], [])

  datatype Move =
    | Start(id: Id, payload: seq<Byte>)
    | Check(id: Id)
    | Refuse(id: Id)
    | Insert(id: Id)
    | Arm(id: Id)
    | Enqueue(id: Id)
    | CancelTask(id: Id)
    | CancelHandler(id: Id)
    | Timeout(id: Id)
    | Finish(id: Id, outcome: Outcome)
    | FailAll(outcome: Outcome)
    | Resume(id: Id)
    | TakeJob
    | WriterLoop
    | WriteSome(count: nat)
    | WriteError

  // ----- Callers ----------------------------------------------------------------

  predicate In(s: Pipe, id: Id, phase: Phase) {
    id in s.phase && s.phase[id] == phase
  }

  function At(s: Pipe, id: Id, phase: Phase): Pipe {
    s.(phase := s.phase[id := phase])
  }

  /** A fresh request, encoded as one frame; one over the limit is refused before it starts. */
  function StartStep(s: Pipe, id: Id, payload: seq<Byte>): Pipe {
    if id in s.phase || !Framing.IsFrame(payload) then s
    else At(s, id, Entered).(payload := s.payload[id := payload], due := s.due[id := []], resumed := s.resumed[id := []])
  }

  /** Takes the lock; gives it back at once when the request must be refused. */
  function CheckStep(s: Pipe, id: Id): Pipe {
    if !In(s, id, Entered) || s.holder.Some? then s
    else if s.closed || id in s.cancelled then At(s, id, Refusing)
    else At(s, id, Checked).(holder := Some(id))
  }

  function Due(s: Pipe, id: Id): seq<Outcome> {
    if id in s.due then s.due[id] else []
  }

  function Outcomes(s: Pipe, id: Id): seq<Outcome> {
    if id in s.resumed then s.resumed[id] else []
  }

  function RefuseStep(s: Pipe, id: Id): Pipe {
    if !In(s, id, Refusing) then s
    else
      var outcome := if id in s.cancelled then Cancelled else Closed;
      At(s, id, Submitted).(resumed := s.resumed[id := Outcomes(s, id) + [outcome]])
  }

  function InsertStep(s: Pipe, id: Id): Pipe {
    if !In(s, id, Checked) || s.holder != Some(id) then s
    else At(s, id, Registered).(pending := s.pending + {id}, holder := None)
  }

  function ArmStep(s: Pipe, id: Id): Pipe {
    if !In(s, id, Registered) then s else At(s, id, Armed).(timers := s.timers + {id})
  }

  function EnqueueStep(s: Pipe, id: Id): Pipe {
    if !In(s, id, Armed) then s else At(s, id, Submitted).(queued := s.queued + [id])
  }

  // ----- Endings ------------------------------------------------------------------

  /** Removes a pending request under the lock; its caller is resumed afterwards. */
  function FinishStep(s: Pipe, id: Id, outcome: Outcome): Pipe {
    if s.holder.Some? || id !in s.pending then s
    else s.(pending := s.pending - {id}, due := s.due[id := Due(s, id) + [outcome]])
  }

  function FailAllStep(s: Pipe, outcome: Outcome): Pipe {
    if s.holder.Some? then s
    else s.(closed := true, pending := {},
            due := map id | id in s.due :: if id in s.pending then s.due[id] + [outcome] else s.due[id])
  }

  function ResumeStep(s: Pipe, id: Id): Pipe {
    if Due(s, id) == [] then s
    else s.(due := s.due[id := Due(s, id)[1..]], resumed := s.resumed[id := Outcomes(s, id) + [Due(s, id)[0]]])
  }

  /** The cancellation handler runs once, some time after the task's flag was set. */
  function CancelHandlerStep(s: Pipe, id: Id): Pipe {
    if s.holder.Some? || id !in s.cancelled || id in s.handled || id !in s.phase then s
    else FinishStep(s, id, Cancelled).(handled := s.handled + {id})
  }

  // ----- The serial writer ----------------------------------------------------------

  function JobId(s: Pipe, job: Job): Id
    requires job.index < |s.queued|
  {
    s.queued[job.index]
  }

  function Frame(s: Pipe, index: nat): seq<Byte> {
    if index < |s.queued| && s.queued[index] in s.payload then s.payload[s.queued[index]] else []
  }

  /** The next block of the queue starts; a request that is gone is not written. */
  function TakeJobStep(s: Pipe): Pipe {
    if s.writer.Some? || s.taken >= |s.queued| || s.holder.Some? then s
    else if s.closed || s.queued[s.taken] !in s.pending then s.(taken := s.taken + 1)
    else s.(taken := s.taken + 1, writer := Some(Job(s.taken, 0)))
  }

  /** The writer leaves its frame: done, untouched, or cut short. */
  function Leave(s: Pipe): Pipe
    requires s.writer.Some?
  {
    var job := s.writer.value;
    if job.offset == |Frame(s, job.index)| then s.(writer := None, frames := s.frames + [job.index])
    else if job.offset == 0 then s.(writer := None)
    else s.(writer := None, broken := Some(job))
  }

  /** The tests at the head of the write loop. */
  function WriterLoopStep(s: Pipe): Pipe {
    if s.writer.None? || s.holder.Some? || s.writer.value.index >= |s.queued| then s
    else
      var job := s.writer.value;
      if job.offset >= |Frame(s, job.index)| || s.closed || (job.offset == 0 && JobId(s, job) !in s.pending)
      then Leave(s) else s
  }

  function Written(s: Pipe, count: nat): Pipe
    requires s.writer.Some? && s.writer.value.offset + count <= |Frame(s, s.writer.value.index)|
  {
    var job := s.writer.value;
    s.(wire := s.wire + Frame(s, job.index)[job.offset..job.offset + count],
       writer := Some(job.(offset := job.offset + count)))
  }

  /** One write call that accepts `count` bytes, made under the lock. */
  function WriteSomeStep(s: Pipe, count: nat): Pipe {
    if s.writer.None? || s.holder.Some? || s.writer.value.index >= |s.queued| then s
    else
      var job := s.writer.value;
      if s.closed || (job.offset == 0 && JobId(s, job) !in s.pending) then Leave(s)
      else if count == 0 || job.offset + count > |Frame(s, job.index)| then s
      else Written(s, count)
  }

  function WriteErrorStep(s: Pipe): Pipe {
    if s.writer.None? || s.holder.Some? || s.writer.value.index >= |s.queued| then s
    else Leave(FailAllStep(s, Closed))
  }

  // ----- The machine ------------------------------------------------------------------

  function Step(s: Pipe, m: Move): Pipe {
    match m
    case Start(id, payload) => StartStep(s, id, payload)
    case Check(id) => CheckStep(s, id)
    case Refuse(id) => RefuseStep(s, id)
    case Insert(id) => InsertStep(s, id)
    case Arm(id) => ArmStep(s, id)
    case Enqueue(id) => EnqueueStep(s, id)
    case CancelTask(id) => s.(cancelled := s.cancelled + {id})
    case CancelHandler(id) => CancelHandlerStep(s, id)
    case Timeout(id) => if id in s.timers then FinishStep(s, id, TimedOut) else s
    case Finish(id, outcome) => FinishStep(s, id, outcome)
    case FailAll(outcome) => FailAllStep(s, outcome)
    case Resume(id) => ResumeStep(s, id)
    case TakeJob => TakeJobStep(s)
    case WriterLoop => WriterLoopStep(s)
    case WriteSome(count) => WriteSomeStep(s, count)
    case WriteError => WriteErrorStep(s)
  }

  function Run(moves: seq<Move>): Pipe {
    if moves == [] then OPEN else Step(Run(moves[..|moves| - 1]), moves[|moves| - 1])
  }

  // ----- Exactly one resumption ----------------------------------------------------------

  predicate Unregistered(s: Pipe, id: Id) {
    In(s, id, Entered) || In(s, id, Checked) || In(s, id, Refusing)
  }

  /** Times resumed or about to be, plus one while the request is still waiting. */
  function Balance(s: Pipe, id: Id): nat {
    |Outcomes(s, id)| + |Due(s, id)| + (if id in s.pending then 1 else 0) + (if Unregistered(s, id) then 1 else 0)
  }

  predicate CallerOk(s: Pipe, id: Id) {
    && id in s.payload && id in s.due && id in s.resumed && Framing.IsFrame(s.payload[id])
    && Balance(s, id) == 1
    && (In(s, id, Checked) ==> s.holder == Some(id))
    && (id in s.pending && (In(s, id, Armed) || In(s, id, Submitted)) ==> id in s.timers)
    && (id in s.handled ==> id in s.cancelled && id !in s.pending && s.holder != Some(id))
  }

  predicate TablesOk(s: Pipe) {
    && s.phase.Keys == s.payload.Keys == s.due.Keys == s.resumed.Keys
    && s.pending <= s.phase.Keys && s.handled <= s.phase.Keys
    && (s.holder.Some? ==> In(s, s.holder.value, Checked) && !s.closed)
    && (s.closed ==> s.pending == {})
  }

  ghost predicate CallersOk(s: Pipe) {
    TablesOk(s) && forall id | id in s.phase :: CallerOk(s, id)
  }

  // ----- The byte stream ---------------------------------------------------------------------

  /** The bytes of these frames, one after the other. */
  function Joined(s: Pipe, frames: seq<nat>): seq<Byte> {
    if frames == [] then [] else Joined(s, frames[..|frames| - 1]) + Frame(s, frames[|frames| - 1])
  }

  function Part(s: Pipe, job: Option<Job>): seq<Byte> {
    if job.Some? && job.value.offset <= |Frame(s, job.value.index)| then Frame(s, job.value.index)[..job.value.offset] else []
  }

  predicate QueueOk(s: Pipe) {
    s.taken <= |s.queued| && forall i | 0 <= i < |s.queued| :: Framing.IsFrame(Frame(s, i))
  }

  /** Whole frames in the order of the queue, all before the one being written. */
  predicate FramesOk(s: Pipe) {
    && (forall i | 0 <= i < |s.frames| :: s.frames[i] < s.taken)
    && (forall i, j | 0 <= i < j < |s.frames| :: s.frames[i] < s.frames[j])
    && (s.writer.Some? ==> forall i | 0 <= i < |s.frames| :: s.frames[i] < s.writer.value.index)
  }

  /** A frame cut short is the last thing on the stream, and the connection is closed. */
  predicate JobsOk(s: Pipe) {
    && (s.writer.Some? ==>
          s.broken.None? && s.writer.value.index < s.taken && s.writer.value.offset <= |Frame(s, s.writer.value.index)|)
    && (s.broken.Some? ==>
          s.closed && s.broken.value.index < s.taken && 0 < s.broken.value.offset < |Frame(s, s.broken.value.index)|)
  }

  predicate StreamOk(s: Pipe) {
    s.wire == Joined(s, s.frames) + Part(s, s.writer) + Part(s, s.broken)
  }

  predicate WriterOk(s: Pipe) {
    QueueOk(s) && FramesOk(s) && JobsOk(s) && StreamOk(s)
  }
}

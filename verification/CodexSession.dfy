/**
 The Codex App Server client as a machine over its critical sections and its
 channel sends: a process that is started and stopped, calls that wait for their
 response, and requests of the server that wait for an answer.

 A call makes a channel with room for one message, so the channel is named by the
 call's id. `place`, `arrival` and `written` are bookkeeping for the
 specification.
 */
module CodexSession {
  import opened Prelude

  // ----- Calls -----------------------------------------------------------------------

  datatype Message = Response(id: nat, payload: string) | Stopped(id: nat)

  /** Where a caller's channel stands. */
  datatype Place =
    | Waiting
    | Sending(message: Message)
    | Buffered(message: Message)
    | Received(message: Message)
    | Withdrawn
    | Forgotten

  datatype Calls = Calls(
    nextID: nat,
    pending: set<nat>,
    slots: map<nat, seq<Message>>,
    sends: seq<Message>,
    blocked: bool,
    place: map<nat, Place>)

  function RegisterCall(s: Calls): Calls {
    var id := s.nextID + 1;
    s.(nextID := id, pending := s.pending + {id}, slots := s.slots[id := []], place := s.place[id := Waiting])
  }

  /** A caller that gives up: its write failed, its time is over, or it was cancelled. */
  function RemovePending(s: Calls, id: nat): Calls {
    if id !in s.place then s
    else s.(pending := s.pending - {id},
            place := if s.place[id] == Waiting || s.place[id] == Forgotten then s.place[id := Withdrawn] else s.place)
  }

  /** The read loop takes the caller off the table; the send comes later, without the lock. */
  function TakeResponse(s: Calls, id: nat, payload: string): Calls {
    if id !in s.pending then s
    else s.(pending := s.pending - {id}, sends := s.sends + [Response(id, payload)], place := s.place[id := Sending(Response(id, payload))])
  }

  /** A send into a channel; it blocks when the channel is full. */
  function Send(s: Calls, m: Message): Calls {
    if m.id !in s.slots || s.slots[m.id] != [] then s.(blocked := true)
    else s.(slots := s.slots[m.id := [m]], place := s.place[m.id := Buffered(m)])
  }

  function EmitResponse(s: Calls, index: nat): Calls {
    if index >= |s.sends| then s else Send(s.(sends := s.sends[..index] + s.sends[index + 1..]), s.sends[index])
  }

  function Receive(s: Calls, id: nat): Calls {
    if id !in s.slots || s.slots[id] == [] then s
    else s.(slots := s.slots[id := s.slots[id][1..]], place := s.place[id := Received(s.slots[id][0])])
  }

  predicate CanTell(s: Calls) {
    forall id | id in s.pending :: id in s.slots && s.slots[id] == [] && id in s.place
  }

  /** Every pending caller is told that the process stopped, while the lock is held. */
  function TellAll(s: Calls): Calls {
    s.(pending := {}, blocked := s.blocked || !CanTell(s),
       slots := map id | id in s.slots :: if id in s.pending then [Stopped(id)] else s.slots[id],
       place := map id | id in s.place :: if id in s.pending then Buffered(Stopped(id)) else s.place[id])
  }

  /** A new process begins with an empty table; who was still in the old one is in none. */
  function DropAll(s: Calls): Calls {
    s.(pending := {}, place := map id | id in s.place :: if id in s.pending then Forgotten else s.place[id])
  }

  // ----- Requests of the server --------------------------------------------------------

  type ThreadId = string

  const USER_INPUT := "item/tool/requestUserInput"

  predicate IsApproval(kind: string) {
    || kind == "item/commandExecution/requestApproval"
    || kind == "item/fileChange/requestApproval"
    || kind == "item/permissions/requestApproval"
  }

  /** `arrival` numbers the requests in the order in which they came. */
  datatype Request = Request(id: string, kind: string, turn: string, arrival: nat)

  /** A caller that has read a request: about to write its reply, or to clean up after it. */
  datatype Reply =
    | Answering(thread: ThreadId, request: Request)
    | Cancelling(thread: ThreadId, request: Request)
    | Cleaning(thread: ThreadId, request: Request)

  datatype Written = Written(request: Request, cancels: bool)

  datatype Desk = Desk(
    requests: map<ThreadId, Request>,
    arrivals: nat,
    replies: map<nat, Reply>,
    nextReply: nat,
    written: seq<Written>)

  /** The latest request of a thread replaces an earlier one. */
  function Arrive(d: Desk, thread: ThreadId, id: string, kind: string, turn: string): Desk {
    if thread == "" then d
    else d.(requests := d.requests[thread := Request(id, kind, turn, d.arrivals)], arrivals := d.arrivals + 1)
  }

  /** The server withdraws a request, by thread or by id alone. */
  function Resolve(d: Desk, thread: ThreadId, id: Option<string>): Desk {
    if thread != "" then
      if thread in d.requests && (id.None? || d.requests[thread].id == id.value) then d.(requests := d.requests - {thread}) else d
    else if id.None? then d
    else d.(requests := map t | t in d.requests && d.requests[t].id != id.value :: d.requests[t])
  }

  /** The request is taken off the table before the answer is written. */
  function BeginAnswer(d: Desk, thread: ThreadId): Desk {
    if thread !in d.requests || d.requests[thread].kind != USER_INPUT then d
    else d.(requests := d.requests - {thread}, nextReply := d.nextReply + 1,
            replies := d.replies[d.nextReply := Answering(thread, d.requests[thread])])
  }

  /** The request is read, but stays on the table until its cancellation was written. */
  function BeginCancel(d: Desk, thread: ThreadId, turn: string, expected: string, kind: string): Desk {
    if !IsApproval(kind) || thread !in d.requests then d
    else
      var request := d.requests[thread];
      if request.kind != kind || (request.turn != "" && request.turn != turn) || request.id != expected then d
      else d.(nextReply := d.nextReply + 1, replies := d.replies[d.nextReply := Cancelling(thread, request)])
  }

  /** `ok` says whether a process runs and takes the reply. */
  function WriteReply(d: Desk, c: nat, ok: bool): Desk {
    if c !in d.replies || d.replies[c].Cleaning? then d
    else
      var reply := d.replies[c];
      if !ok then d.(replies := d.replies - {c})
      else
        d.(written := d.written + [Written(reply.request, reply.Cancelling?)],
           replies := if reply.Cancelling? then d.replies[c := Cleaning(reply.thread, reply.request)] else d.replies - {c})
  }

  function EndCancel(d: Desk, c: nat): Desk {
    if c !in d.replies || !d.replies[c].Cleaning? then d
    else
      var thread, id := d.replies[c].thread, d.replies[c].request.id;
      var d' := d.(replies := d.replies - {c});
      if thread in d.requests && d.requests[thread].id == id then d'.(requests := d.requests - {thread}) else d'
  }

  // ----- The client ------------------------------------------------------------------------

  /** Calls are made only after a first start. `starting` are the processes whose initialization is still waited for, `reading` those whose read loop runs. */
  datatype Client = Client(
    process: Option<nat>,
    started: nat,
    closed: bool,
    starting: set<nat>,
    reading: set<nat>,
    calls: Calls,
    desk: Desk)

  const NEW := Client(None, 0, false, {}, {}, Calls(0, {}, map[], [], false, map[]), Desk(map[], 0, map[], 0, []))

  datatype Event =
    | Start(ok: bool)
    | InitDone(process: nat, ok: bool)
    | ReadLoopEnded(process: nat)
    | Close
    | Register
    | Remove(id: nat)
    | Respond(process: nat, id: nat, payload: string)
    | Emit(index: nat)
    | Take(id: nat)
    | RequestArrived(process: nat, thread: ThreadId, requestID: string, kind: string, turn: string)
    | RequestResolved(process: nat, thread: ThreadId, resolved: Option<string>)
    | Answer(thread: ThreadId)
    | Cancel(thread: ThreadId, turn: string, expected: string, kind: string)
    | Write(reply: nat, ok: bool)
    | Clean(reply: nat)

  function StopLocked(s: Client): Client {
    s.(process := None, calls := TellAll(s.calls), desk := s.desk.(requests := map[]))
  }

  predicate Starts(s: Client, e: Event) {
    e.Start? && e.ok && s.process.None? && !s.closed
  }

  function StartStep(s: Client, ok: bool): Client {
    if s.process.Some? || s.closed || !ok then s
    else s.(process := Some(s.started), started := s.started + 1, starting := s.starting + {s.started},
            reading := s.reading + {s.started}, calls := DropAll(s.calls), desk := s.desk.(requests := map[]))
  }

  /** A failed initialization stops whatever runs by then. */
  function InitDoneStep(s: Client, process: nat, ok: bool): Client {
    if process !in s.starting then s
    else
      var t := s.(starting := s.starting - {process});
      if ok then t else StopLocked(t)
  }

  /** The end of a read loop stops the process only if it is still the loop's own. */
  function ReadLoopEndedStep(s: Client, process: nat): Client {
    if process !in s.reading then s
    else
      var t := s.(reading := s.reading - {process});
      if s.process == Some(process) then StopLocked(t) else t
  }

  function Step(s: Client, e: Event): Client {
    match e
    case Start(ok) => StartStep(s, ok)
    case InitDone(process, ok) => InitDoneStep(s, process, ok)
    case ReadLoopEnded(process) => ReadLoopEndedStep(s, process)
    case Close => StopLocked(s.(closed := true))
    case Register => if s.started > 0 then s.(calls := RegisterCall(s.calls)) else s
    case Remove(id) => s.(calls := RemovePending(s.calls, id))
    case Respond(process, id, payload) => if process in s.reading then s.(calls := TakeResponse(s.calls, id, payload)) else s
    case Emit(index) => s.(calls := EmitResponse(s.calls, index))
    case Take(id) => s.(calls := Receive(s.calls, id))
    case RequestArrived(process, thread, id, kind, turn) =>
      if process in s.reading then s.(desk := Arrive(s.desk, thread, id, kind, turn)) else s
    case RequestResolved(process, thread, id) => if process in s.reading then s.(desk := Resolve(s.desk, thread, id)) else s
    case Answer(thread) => s.(desk := BeginAnswer(s.desk, thread))
    case Cancel(thread, turn, expected, kind) => s.(desk := BeginCancel(s.desk, thread, turn, expected, kind))
    case Write(reply, ok) => s.(desk := WriteReply(s.desk, reply, s.process.Some? && ok))
    case Clean(reply) => s.(desk := EndCancel(s.desk, reply))
  }

  function Run(events: seq<Event>): Client {
    if events == [] then NEW else Step(Run(events[..|events| - 1]), events[|events| - 1])
  }
}

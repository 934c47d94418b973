/** What each event does to the requests on the table, to their answers and to the callers, in every run. */
module CodexEffects {
  import opened Prelude
  import opened CodexSession
  import P = CodexSessionProofs

  // ----- Requests on the table -----------------------------------------------------------

  predicate Comes(s: Client, e: Event, thread: ThreadId) {
    e.RequestArrived? && e.process in s.reading && e.thread == thread && thread != ""
  }

  /** The server says that this request, or the thread's, is settled. */
  predicate IsResolved(s: Client, e: Event, thread: ThreadId, request: Request) {
    && e.RequestResolved? && e.process in s.reading
    && (e.thread == thread || e.thread == "") && (e.resolved == Some(request.id) || (e.resolved == None && e.thread != ""))
  }

  predicate IsCleared(s: Client, e: Event, thread: ThreadId, request: Request) {
    e.Clean? && e.reply in s.desk.replies && s.desk.replies[e.reply].Cleaning?
    && s.desk.replies[e.reply].thread == thread && s.desk.replies[e.reply].request.id == request.id
  }

  /** What takes a waiting request off the table: a new process, an end of the old one, or whoever settles it. */
  predicate Removes(s: Client, e: Event, thread: ThreadId, request: Request) {
    || Starts(s, e) || P.StopsNow(s, e)
    || IsResolved(s, e, thread, request)
    || (e == Answer(thread) && request.kind == "item/tool/requestUserInput")
    || IsCleared(s, e, thread, request)
  }

  /** The thread's request after the event. */
  predicate TableFollows(s: Client, t: Client, e: Event, thread: ThreadId) {
    var before, after := s.desk.requests, t.desk.requests;
    if Comes(s, e, thread) then
      thread in after && after[thread] == Request(e.requestID, e.kind, e.turn, s.desk.arrivals) && t.desk.arrivals == s.desk.arrivals + 1
    else if thread in before && !Removes(s, e, thread, before[thread]) then thread in after && after[thread] == before[thread]
    else thread !in after
  }

  lemma ResolvedIsOff(d: Desk, thread: ThreadId, id: Option<string>, u: ThreadId)
    ensures var t := Resolve(d, thread, id);
      (u in t.requests <==> u in d.requests && !((thread == u || thread == "") && (id == Some(d.requests[u].id) || (id == None && thread != ""))))
      && (u in t.requests ==> t.requests[u] == d.requests[u]) && t.arrivals == d.arrivals
  {
  }

  lemma StepFollows(s: Client, e: Event, thread: ThreadId)
    requires "" !in s.desk.requests
    ensures TableFollows(s, Step(s, e), e, thread)
  {
    if e.RequestResolved? { ResolvedIsOff(s.desk, e.thread, e.resolved, thread); }
    hide Resolve, TellAll, DropAll, RegisterCall, RemovePending, TakeResponse, EmitResponse, Receive;
  }

  lemma {:induction false} NoRequestIsThreadless(events: seq<Event>)
    ensures "" !in Run(events).desk.requests
  {
    if events != [] {
      NoRequestIsThreadless(events[..|events| - 1]);
      var s, e := Run(events[..|events| - 1]), events[|events| - 1];
      StepFollows(s, e, "");
      hide Step;
    }
  }

  /** In every run a thread's request is the last that came, until one of the named events removes it. */
  lemma RequestsFollow(events: seq<Event>, e: Event, thread: ThreadId)
    ensures TableFollows(Run(events), Run(events + [e]), e, thread)
  {
    NoRequestIsThreadless(events);
    P.RunSnoc(events, e);
    StepFollows(Run(events), e, thread);
    hide Run, Step, TableFollows;
  }

  /** Nothing replaces or removes the request along the way. */
  ghost predicate Undisturbed(events: seq<Event>, more: seq<Event>, thread: ThreadId, request: Request) {
    forall i | 0 <= i < |more| ::
      !Comes(Run(events + more[..i]), more[i], thread) && !Removes(Run(events + more[..i]), more[i], thread, request)
  }

  lemma UndisturbedInit(events: seq<Event>, more: seq<Event>, last: Event, thread: ThreadId, request: Request)
    requires Undisturbed(events, more + [last], thread, request)
    ensures Undisturbed(events, more, thread, request)
    ensures !Comes(Run(events + more), last, thread) && !Removes(Run(events + more), last, thread, request)
  {
    hide Run, Comes, Removes;
    var longer := more + [last];
    assert forall i | 0 <= i <= |more| :: longer[..i] == more[..i];
    assert more[..|more|] == more && longer[|more|] == last;
    assert forall i | 0 <= i < |more| :: longer[i] == more[i];
  }

  lemma {:induction false} RequestWaits(events: seq<Event>, more: seq<Event>, thread: ThreadId)
    requires thread in Run(events).desk.requests && Undisturbed(events, more, thread, Run(events).desk.requests[thread])
    ensures thread in Run(events + more).desk.requests && Run(events + more).desk.requests[thread] == Run(events).desk.requests[thread]
  {
    if more == [] {
      assert events + more == events;
    } else {
      var init, last := more[..|more| - 1], more[|more| - 1];
      assert more == init + [last] && events + more == (events + init) + [last];
      UndisturbedInit(events, init, last, thread, Run(events).desk.requests[thread]);
      hide Run, Undisturbed, Comes, Removes;
      RequestWaits(events, init, thread);
      RequestsFollow(events + init, last, thread);
    }
  }

  // ----- Answers ---------------------------------------------------------------------------------

  predicate Fits(request: Request, turn: string, expected: string, kind: string) {
    request.kind == kind && request.id == expected && (request.turn == turn || request.turn == "")
  }

  /** A caller is about to write this. */
  predicate WillWrite(d: Desk, t: Desk, reply: Reply) {
    d.nextReply !in d.replies && t.nextReply == d.nextReply + 1 && t.replies == d.replies[d.nextReply := reply] && t.written == d.written
  }

  predicate Nothing(d: Desk, t: Desk) {
    t.nextReply == d.nextReply && t.replies == d.replies && t.written == d.written
  }

  lemma {:induction false} NextReplyIsFree(events: seq<Event>)
    ensures forall c | c in Run(events).desk.replies :: c < Run(events).desk.nextReply
  {
    if events != [] {
      NextReplyIsFree(events[..|events| - 1]);
      hide Resolve, Arrive, TellAll, DropAll, RegisterCall, RemovePending, TakeResponse, EmitResponse, Receive;
    }
  }

  /** An answer is written for the thread's request exactly when that is a request for user input. */
  lemma AnswerBegins(events: seq<Event>, thread: ThreadId)
    ensures var d, t := Run(events).desk, Run(events + [Answer(thread)]).desk;
      if thread in d.requests && d.requests[thread].kind == "item/tool/requestUserInput"
      then WillWrite(d, t, Answering(thread, d.requests[thread]))
      else Nothing(d, t)
  {
    NextReplyIsFree(events);
    P.RunSnoc(events, Answer(thread));
    hide Run;
  }

  /** A cancellation is written exactly when the thread's request is the expected approval. */
  lemma CancelBegins(events: seq<Event>, thread: ThreadId, turn: string, expected: string, kind: string)
    ensures var d, t := Run(events).desk, Run(events + [Cancel(thread, turn, expected, kind)]).desk;
      if IsApproval(kind) && thread in d.requests && Fits(d.requests[thread], turn, expected, kind)
      then WillWrite(d, t, Cancelling(thread, d.requests[thread]))
      else Nothing(d, t)
  {
    NextReplyIsFree(events);
    P.RunSnoc(events, Cancel(thread, turn, expected, kind));
    hide Run;
  }

  /** What is about to be written is written exactly once, while a process runs that takes it. */
  lemma ReplyIsWritten(events: seq<Event>, c: nat, ok: bool)
    requires c in Run(events).desk.replies && !Run(events).desk.replies[c].Cleaning?
    ensures var s, t := Run(events), Run(events + [Write(c, ok)]);
      var reply := s.desk.replies[c];
      && t.desk.requests == s.desk.requests
      && t.desk.written == s.desk.written + (if ok && s.process != None then [Written(reply.request, reply.Cancelling?)] else [])
      && (c in t.desk.replies <==> reply.Cancelling? && ok && s.process != None)
      && (c in t.desk.replies ==> t.desk.replies[c] == Cleaning(reply.thread, reply.request))
      && (forall other | other != c :: other in t.desk.replies <==> other in s.desk.replies)
      && (forall other | other != c && other in t.desk.replies :: t.desk.replies[other] == s.desk.replies[other])
  {
    P.RunSnoc(events, Write(c, ok));
    hide Run;
  }

  // ----- A request and its answer --------------------------------------------------------------------

  /**
   A request for user input that came from a running process, and that nothing replaced
   or removed, is answered by the next answer to its thread.
   */
  lemma RequestIsAnswered(events: seq<Event>, more: seq<Event>, thread: ThreadId)
    requires thread in Run(events).desk.requests && Undisturbed(events, more, thread, Run(events).desk.requests[thread])
    requires Run(events).desk.requests[thread].kind == "item/tool/requestUserInput" && Run(events + more).process.Some?
    ensures var before := events + more;
      Run(before + [Answer(thread)] + [Write(Run(before).desk.nextReply, true)]).desk.written
        == Run(before).desk.written + [Written(Run(events).desk.requests[thread], false)]
  {
    var before := events + more;
    RequestWaits(events, more, thread);
    AnswerBegins(before, thread);
    AnswerKeepsProcess(before, thread);
    hide Run, Undisturbed;
    ReplyIsWritten(before + [Answer(thread)], Run(before).desk.nextReply, true);
  }

  lemma AnswerKeepsProcess(events: seq<Event>, thread: ThreadId)
    ensures Run(events + [Answer(thread)]).process == Run(events).process
  {
    P.RunSnoc(events, Answer(thread));
    hide Run;
  }

  // ----- Callers -------------------------------------------------------------------------------------------

  /** A response goes to the caller that waits under its id, if one does. */
  lemma ResponseIsDelivered(events: seq<Event>, process: nat, id: nat, payload: string)
    ensures var s, t := Run(events), Run(events + [Respond(process, id, payload)]);
      && (process in s.reading && id in s.calls.pending ==>
            && t.calls.pending == s.calls.pending - {id} && t.calls.sends == s.calls.sends + [Response(id, payload)]
            && t.calls.slots == s.calls.slots)
      && (process !in s.reading || id !in s.calls.pending ==> t == s)
  {
    P.RunSnoc(events, Respond(process, id, payload));
    hide Run;
  }

  /** A send that is under way puts exactly its message into its caller's channel. */
  lemma SendArrives(events: seq<Event>, index: nat)
    requires index < |Run(events).calls.sends|
    ensures var s, t := Run(events).calls, Run(events + [Emit(index)]).calls;
      var m := s.sends[index];
      && m.id in s.slots && t.slots == s.slots[m.id := [m]] && t.sends == s.sends[..index] + s.sends[index + 1..] && t.pending == s.pending
  {
    P.RunSnoc(events, Emit(index));
    P.NoSendBlocks(events);
    hide Run;
  }

  /** Whoever waits when the process stops is told so; nobody else's channel changes. */
  lemma StopIsTold(events: seq<Event>, e: Event)
    requires P.StopsNow(Run(events), e)
    ensures var s, t := Run(events), Run(events + [e]);
      && t.process == None && t.calls.pending == {} && t.desk.requests == map[] && t.calls.slots.Keys == s.calls.slots.Keys
      && (forall id | id in s.calls.pending :: id in t.calls.slots && t.calls.slots[id] == [Stopped(id)])
      && (forall id | id in s.calls.slots && id !in s.calls.pending :: t.calls.slots[id] == s.calls.slots[id])
      && t.calls.sends == s.calls.sends && t.desk.written == s.desk.written && t.desk.replies == s.desk.replies
  {
    P.RunSnoc(events, e);
    P.NoSendBlocks(events);
    hide Run;
  }
}

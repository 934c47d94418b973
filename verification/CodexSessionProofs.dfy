/** What holds of the Codex client in every run, and, by concrete runs, what does not. */
module CodexSessionProofs {
  import opened Prelude
  import opened CodexSession

  // ----- Calls -----------------------------------------------------------------------

  /** One caller: its slot, its message and the table fit its place. */
  predicate CallerOk(s: Calls, id: nat)
    requires id in s.place
  {
    && 0 < id <= s.nextID && id in s.slots
    && s.slots[id] == (if s.place[id].Buffered? then [s.place[id].message] else [])
    && (s.place[id] == Waiting <==> id in s.pending)
    && (s.place[id].Sending? || s.place[id].Buffered? || s.place[id].Received? ==> s.place[id].message.id == id)
    && (s.place[id].Sending? ==> s.place[id].message in s.sends)
  }

  predicate SendsOk(s: Calls) {
    && (forall i | 0 <= i < |s.sends| :: s.sends[i].id in s.place && s.place[s.sends[i].id] == Sending(s.sends[i]))
    && (forall i, j | 0 <= i < j < |s.sends| :: s.sends[i].id != s.sends[j].id)
  }

  /** Every caller is in one place, and no send has met a full channel. */
  predicate CallsOk(s: Calls) {
    && !s.blocked
    && s.place.Keys == s.slots.Keys && s.pending <= s.place.Keys
    && (forall id | 0 < id <= s.nextID :: id in s.place)
    && (forall id | id in s.place :: CallerOk(s, id))
    && SendsOk(s)
  }

  lemma NextIsFresh(s: Calls)
    requires CallsOk(s)
    ensures s.nextID + 1 !in s.place && s.nextID + 1 !in s.pending
  {
    forall id | id in s.place ensures id <= s.nextID { assert CallerOk(s, id); }
  }

  lemma RegisterKeepsCalls(s: Calls)
    requires CallsOk(s)
    ensures CallsOk(RegisterCall(s))
  {
    var t := RegisterCall(s);
    forall id | id in t.place ensures CallerOk(t, id) { assert id in s.place ==> CallerOk(s, id); }
    NextIsFresh(s);
  }

  lemma RemoveKeepsCalls(s: Calls, id: nat)
    requires CallsOk(s)
    ensures CallsOk(RemovePending(s, id))
  {
    var t := RemovePending(s, id);
    forall other | other in t.place ensures CallerOk(t, other) { assert CallerOk(s, other); }
  }

  lemma TakeKeepsCalls(s: Calls, id: nat, payload: string)
    requires CallsOk(s)
    ensures CallsOk(TakeResponse(s, id, payload))
  {
    var t := TakeResponse(s, id, payload);
    assert id in s.place ==> CallerOk(s, id);
    forall other | other in t.place ensures CallerOk(t, other) {
      assert CallerOk(s, other);
      if id in s.pending && t.place[other].Sending? && other == id { assert t.sends[|s.sends|] == Response(id, payload); }
    }
  }

  lemma WithoutOne(sends: seq<Message>, index: nat)
    requires index < |sends|
    ensures var rest := sends[..index] + sends[index + 1..];
      && |rest| == |sends| - 1
      && (forall i | 0 <= i < |rest| :: rest[i] == sends[if i < index then i else i + 1])
      && (forall m | m in sends && m != sends[index] :: m in rest)
  {
    var rest := sends[..index] + sends[index + 1..];
    forall m | m in sends && m != sends[index] ensures m in rest {
      var k :| 0 <= k < |sends| && sends[k] == m;
      assert rest[if k < index then k else k - 1] == m;
    }
  }

  lemma EmittedSends(s: Calls, index: nat)
    requires CallsOk(s) && index < |s.sends|
    ensures SendsOk(EmitResponse(s, index)) && !EmitResponse(s, index).blocked
    ensures forall m | m in s.sends && m.id != s.sends[index].id :: m in EmitResponse(s, index).sends
  {
    var t, m := EmitResponse(s, index), s.sends[index];
    assert CallerOk(s, m.id);
    hide CallerOk, CallsOk;
    assert s.place[m.id] == Sending(m) && s.slots[m.id] == [];
    assert t.place == s.place[m.id := Buffered(m)] && !t.blocked;
    WithoutOne(s.sends, index);
    forall i | 0 <= i < |t.sends| ensures t.sends[i].id in t.place && t.place[t.sends[i].id] == Sending(t.sends[i]) {
      assert t.sends[i] == s.sends[if i < index then i else i + 1];
    }
  }

  lemma EmitKeepsCalls(s: Calls, index: nat)
    requires CallsOk(s)
    ensures CallsOk(EmitResponse(s, index))
  {
    if index < |s.sends| {
      var t, m := EmitResponse(s, index), s.sends[index];
      EmittedSends(s, index);
      assert CallerOk(s, m.id);
      hide SendsOk;
      forall other | other in t.place ensures CallerOk(t, other) { assert CallerOk(s, other); }
    }
  }

  lemma ReceiveKeepsCalls(s: Calls, id: nat)
    requires CallsOk(s)
    ensures CallsOk(Receive(s, id))
  {
    var t := Receive(s, id);
    forall other | other in t.place ensures CallerOk(t, other) { assert CallerOk(s, other); }
  }

  lemma TellKeepsCalls(s: Calls)
    requires CallsOk(s)
    ensures CallsOk(TellAll(s))
  {
    assert CanTell(s) by { forall id | id in s.pending ensures id in s.slots && s.slots[id] == [] && id in s.place { assert CallerOk(s, id); } }
    var t := TellAll(s);
    forall other | other in t.place ensures CallerOk(t, other) { assert CallerOk(s, other); }
  }

  lemma DropKeepsCalls(s: Calls)
    requires CallsOk(s)
    ensures CallsOk(DropAll(s))
  {
    var t := DropAll(s);
    forall other | other in t.place ensures CallerOk(t, other) { assert CallerOk(s, other); }
  }

  lemma StepKeepsCalls(s: Client, e: Event)
    requires CallsOk(s.calls)
    ensures CallsOk(Step(s, e).calls)
  {
    TellKeepsCalls(s.calls);
    DropKeepsCalls(s.calls);
    RegisterKeepsCalls(s.calls);
    match e
    case Remove(id) => RemoveKeepsCalls(s.calls, id);
    case Respond(process, id, payload) => TakeKeepsCalls(s.calls, id, payload);
    case Emit(index) => EmitKeepsCalls(s.calls, index);
    case Take(id) => ReceiveKeepsCalls(s.calls, id);
    case _ =>
  }

  lemma {:induction false} RunKeepsCalls(events: seq<Event>)
    ensures CallsOk(Run(events).calls)
  {
    if events != [] {
      RunKeepsCalls(events[..|events| - 1]);
      StepKeepsCalls(Run(events[..|events| - 1]), events[|events| - 1]);
    }
  }

  /** No send ever blocks: every pending caller and every send under way has an empty channel, and no two sends share one. */
  lemma NoSendBlocks(events: seq<Event>)
    ensures var s := Run(events).calls;
      && !s.blocked && CanTell(s)
      && (forall i | 0 <= i < |s.sends| :: s.sends[i].id in s.slots && s.slots[s.sends[i].id] == [] && s.sends[i].id !in s.pending)
      && (forall i, j | 0 <= i < j < |s.sends| :: s.sends[i].id != s.sends[j].id)
  {
    RunKeepsCalls(events);
    var s := Run(events).calls;
    forall id | id in s.place ensures CallerOk(s, id) { }
    forall i | 0 <= i < |s.sends| ensures s.sends[i].id in s.slots && s.slots[s.sends[i].id] == [] && s.sends[i].id !in s.pending {
      assert CallerOk(s, s.sends[i].id);
    }
  }

  /** Each call that was made waits, is being answered, has one message of its own id, gave up, or was forgotten. */
  lemma EveryCallerIsSomewhere(events: seq<Event>, id: nat)
    requires 0 < id <= Run(events).calls.nextID
    ensures var s := Run(events).calls;
      && id in s.place && id in s.slots
      && match s.place[id]
         case Waiting => id in s.pending && s.slots[id] == []
         case Sending(m) => m.id == id && m in s.sends && s.slots[id] == []
         case Buffered(m) => m.id == id && s.slots[id] == [m]
         case Received(m) => m.id == id && s.slots[id] == []
         case _ => id !in s.pending && s.slots[id] == []
  {
    RunKeepsCalls(events);
    assert CallerOk(Run(events).calls, id);
  }

  /** How a caller's place may change. */
  predicate Forward(a: Place, b: Place) {
    || a == b
    || (a == Waiting && !b.Received?)
    || (a.Sending? && b == Buffered(a.message))
    || (a.Buffered? && b == Received(a.message))
    || (a == Forgotten && b == Withdrawn)
  }

  /** A caller is answered at most once, forgotten only by a start that finds it waiting, and never answered after that. */
  lemma PlacesMoveForward(events: seq<Event>, e: Event, id: nat)
    requires id in Run(events).calls.place
    ensures var s, t := Run(events), Run(events + [e]);
      && id in t.calls.place && Forward(s.calls.place[id], t.calls.place[id])
      && (s.calls.place[id] != Forgotten ==> (t.calls.place[id] == Forgotten <==> Starts(s, e) && id in s.calls.pending))
  {
    RunSnoc(events, e);
    RunKeepsCalls(events);
    hide Run, Step, CallsOk;
    StepMovesForward(Run(events), e, id);
  }

  lemma StepMovesForward(s: Client, e: Event, id: nat)
    requires CallsOk(s.calls) && id in s.calls.place
    ensures var t := Step(s, e);
      && id in t.calls.place && Forward(s.calls.place[id], t.calls.place[id])
      && (s.calls.place[id] != Forgotten ==> (t.calls.place[id] == Forgotten <==> Starts(s, e) && id in s.calls.pending))
  {
    hide Arrive, Resolve, BeginAnswer, BeginCancel, WriteReply, EndCancel;
    assert CallerOk(s.calls, id);
    if e.Emit? && e.index < |s.calls.sends| {
      assert CallerOk(s.calls, s.calls.sends[e.index].id);
    }
    if e.Register? { assert s.calls.nextID + 1 != id; }
  }

  lemma RunSnoc(events: seq<Event>, e: Event)
    ensures Run(events + [e]) == Step(Run(events), e)
  {
    assert (events + [e])[..|events + [e]| - 1] == events;
  }

  // ----- Processes ------------------------------------------------------------------------

  /** After a close no process runs, whatever follows. */
  lemma {:induction false} ClosedForGood(events: seq<Event>)
    ensures Run(events).closed ==> Run(events).process.None?
    ensures Run(events).process.Some? ==> Run(events).process.value < Run(events).started
    decreases |events|
  {
    if events != [] { ClosedForGood(events[..|events| - 1]); }
  }

  /** Does this event stop a process that it has nothing to do with? */
  predicate StopsAnother(s: Client, e: Event) {
    e.InitDone? && !e.ok && e.process in s.starting && s.process.Some? && s.process.value != e.process
  }

  /** Does this event stop the process that runs? */
  predicate StopsNow(s: Client, e: Event) {
    || e.Close?
    || (e.ReadLoopEnded? && e.process in s.reading && s.process == Some(e.process))
    || (e.InitDone? && !e.ok && e.process in s.starting)
  }

  lemma StepOnProcess(s: Client, e: Event, p: nat)
    requires p < s.started
    ensures p < Step(s, e).started
    ensures Step(s, e).process == Some(p) <==> s.process == Some(p) && !StopsNow(s, e)
  {
  }

  ghost predicate NeverStopped(events: seq<Event>, more: seq<Event>) {
    forall i | 0 <= i < |more| :: !StopsNow(Run(events + more[..i]), more[i])
  }

  lemma NeverStoppedSnoc(events: seq<Event>, more: seq<Event>, last: Event)
    ensures NeverStopped(events, more + [last]) <==> NeverStopped(events, more) && !StopsNow(Run(events + more), last)
  {
    hide Run, StopsNow;
    var longer := more + [last];
    assert forall i | 0 <= i <= |more| :: longer[..i] == more[..i];
    assert more[..|more|] == more;
    assert forall i | 0 <= i < |more| :: longer[i] == more[i];
    if NeverStopped(events, longer) {
      assert !StopsNow(Run(events + longer[..|more|]), longer[|more|]);
      assert forall i | 0 <= i < |more| :: StopsNow(Run(events + more[..i]), more[i]) == StopsNow(Run(events + longer[..i]), longer[i]);
    }
  }

  /** A process that runs keeps running exactly until such an event, and never runs again after it. */
  lemma {:induction false} ProcessRuns(events: seq<Event>, more: seq<Event>, p: nat)
    requires Run(events).process == Some(p)
    ensures Run(events + more).process == Some(p) <==> NeverStopped(events, more)
    ensures p < Run(events + more).started
  {
    ClosedForGood(events);
    if more == [] {
      assert events + more == events;
    } else {
      var init, last := more[..|more| - 1], more[|more| - 1];
      assert more == init + [last] && events + more == (events + init) + [last];
      hide *;
      ProcessRuns(events, init, p);
      RunSnoc(events + init, last);
      StepOnProcess(Run(events + init), last, p);
      NeverStoppedSnoc(events, init, last);
    }
  }

  predicate EndsCall(s: Client, t: Client, id: nat) {
    id in s.calls.pending && id in t.calls.place && t.calls.place[id] == Buffered(Stopped(id)) && t.process.None?
  }

  /** A start whose initialization fails late stops the process that replaced its own, and ends that one's calls. */
  lemma LateInitFailureWitness()
    ensures exists events, e :: StopsAnother(Run(events), e) && EndsCall(Run(events), Run(events + [e]), 1)
  {
    var a := [Start(true)];
    var b := a + [ReadLoopEnded(0)];
    var c := b + [Start(true)];
    var d := c + [Register];
    RunSnoc([], Start(true));
    RunSnoc(a, ReadLoopEnded(0));
    RunSnoc(b, Start(true));
    RunSnoc(c, Register);
    RunSnoc(d, InitDone(0, false));
    assert [] + [Start(true)] == a;
    var s := Run(d);
    assert s.process == Some(1) && s.starting == {0, 1} && s.calls.pending == {1};
    assert StopsAnother(s, InitDone(0, false)) && EndsCall(s, Run(d + [InitDone(0, false)]), 1);
  }

  /** After a first process has stopped, the next call is lost to the next start. */
  predicate LosesNextCall(before: seq<Event>, id: nat) {
    && !Run(before).closed && Run(before).started > 0 && Run(before).process.None? && id !in Run(before).calls.place
    && var after := Run(before + [Register] + [Start(true)]);
      id in after.calls.place && after.calls.place[id] == Forgotten && after.process.Some?
  }

  /** A call registered between a stop and the next start is in no table afterwards: only its own timer ends it. */
  lemma ForgottenCallWitness()
    ensures exists before, id :: LosesNextCall(before, id)
  {
    var a := [Start(true)];
    var b := a + [ReadLoopEnded(0)];
    RunSnoc([], Start(true));
    assert [] + [Start(true)] == a;
    RunSnoc(a, ReadLoopEnded(0));
    RunSnoc(b, Register);
    RunSnoc(b + [Register], Start(true));
    assert Run(b).process.None? && Run(b).started == 1 && Run(b).calls.place == map[] && Run(b).calls.nextID == 0 && !Run(b).closed;
    assert Run(b + [Register]).calls.place == map[1 := Waiting];
    assert LosesNextCall(b, 1);
  }

  // ----- Requests of the server ----------------------------------------------------------------

  /** Replies begun or written for the request of this arrival, as an answer or as a cancellation. */
  function WrittenTo(written: seq<Written>, arrival: nat, cancels: bool): nat {
    if written == [] then 0
    else
      var last := written[|written| - 1];
      WrittenTo(written[..|written| - 1], arrival, cancels) + if last.request.arrival == arrival && last.cancels == cancels then 1 else 0
  }

  lemma WrittenSnoc(written: seq<Written>, last: Written, arrival: nat, cancels: bool)
    ensures WrittenTo(written + [last], arrival, cancels)
      == WrittenTo(written, arrival, cancels) + if last.request.arrival == arrival && last.cancels == cancels then 1 else 0
  {
    assert (written + [last])[..|written|] == written;
  }

  /** The request of thread t is the one of this arrival. */
  predicate Holds(d: Desk, t: ThreadId, arrival: nat) {
    t in d.requests && d.requests[t].arrival == arrival
  }

  ghost predicate OnTable(d: Desk, arrival: nat) {
    exists t :: Holds(d, t, arrival)
  }

  predicate Answers(d: Desk, c: nat, arrival: nat) {
    c in d.replies && d.replies[c].Answering? && d.replies[c].request.arrival == arrival
  }

  predicate Cancels(d: Desk, c: nat, arrival: nat) {
    c in d.replies && !d.replies[c].Answering? && d.replies[c].request.arrival == arrival
  }

  /** An arrival is on the table, or being answered by one caller, or answered once, or none of these. */
  ghost predicate AnswerOk(d: Desk, a: nat) {
    && WrittenTo(d.written, a, false) <= 1
    && (forall t, u | Holds(d, t, a) && Holds(d, u, a) :: t == u)
    && (forall c, e | Answers(d, c, a) && Answers(d, e, a) :: c == e)
    && (OnTable(d, a) ==> WrittenTo(d.written, a, false) == 0 && forall c :: !Answers(d, c, a))
    && (forall c | Answers(d, c, a) :: WrittenTo(d.written, a, false) == 0)
    && (a >= d.arrivals ==> !OnTable(d, a) && (forall c :: !Answers(d, c, a) && !Cancels(d, c, a)) && WrittenTo(d.written, a, false) == 0
                            && WrittenTo(d.written, a, true) == 0)
  }

  /** Answers are of user input, cancellations of approvals; names of callers are fresh. */
  predicate KindsOk(d: Desk) {
    && (forall c | c in d.replies :: c < d.nextReply)
    && (forall c | c in d.replies :: if d.replies[c].Answering? then d.replies[c].request.kind == USER_INPUT else IsApproval(d.replies[c].request.kind))
    && (forall w | w in d.written :: if w.cancels then IsApproval(w.request.kind) else w.request.kind == USER_INPUT)
  }

  ghost predicate DeskOk(d: Desk) {
    KindsOk(d) && forall a: nat :: AnswerOk(d, a)
  }

  /** Nothing but requests leaves the table. */
  predicate OnlyFewer(d: Desk, t: Desk) {
    && t == d.(requests := t.requests)
    && forall thread | thread in t.requests :: thread in d.requests && t.requests[thread] == d.requests[thread]
  }

  lemma FewerRequestsOk(d: Desk, t: Desk)
    requires DeskOk(d) && OnlyFewer(d, t)
    ensures DeskOk(t)
  {
    forall a: nat ensures AnswerOk(t, a) {
      assert AnswerOk(d, a);
      hide WrittenTo;
      assert forall thread | Holds(t, thread, a) :: Holds(d, thread, a);
      assert forall c :: Answers(t, c, a) == Answers(d, c, a) && Cancels(t, c, a) == Cancels(d, c, a);
    }
  }

  lemma ArriveKeepsDesk(d: Desk, thread: ThreadId, id: string, kind: string, turn: string)
    requires DeskOk(d)
    ensures DeskOk(Arrive(d, thread, id, kind, turn))
  {
    var t := Arrive(d, thread, id, kind, turn);
    forall a: nat ensures AnswerOk(t, a) {
      assert AnswerOk(d, a);
      hide WrittenTo;
      if thread != "" {
        assert forall u :: Holds(t, u, a) <==> if u == thread then a == d.arrivals else Holds(d, u, a);
        assert forall c :: Answers(t, c, a) == Answers(d, c, a) && Cancels(t, c, a) == Cancels(d, c, a);
      }
    }
  }

  lemma BeginAnswerKeepsDesk(d: Desk, thread: ThreadId)
    requires DeskOk(d)
    ensures DeskOk(BeginAnswer(d, thread))
  {
    var t := BeginAnswer(d, thread);
    forall a: nat ensures AnswerOk(t, a) {
      assert AnswerOk(d, a);
      hide WrittenTo;
      if t != d {
        assert forall u :: Holds(t, u, a) <==> u != thread && Holds(d, u, a);
        assert forall c :: Answers(t, c, a) <==> Answers(d, c, a) || (c == d.nextReply && Holds(d, thread, a));
        assert forall c :: Cancels(t, c, a) <==> Cancels(d, c, a);
      }
    }
  }

  lemma BeginCancelKeepsDesk(d: Desk, thread: ThreadId, turn: string, expected: string, kind: string)
    requires DeskOk(d)
    ensures DeskOk(BeginCancel(d, thread, turn, expected, kind))
  {
    var t := BeginCancel(d, thread, turn, expected, kind);
    forall a: nat ensures AnswerOk(t, a) {
      assert AnswerOk(d, a);
      hide WrittenTo;
      if t != d {
        assert forall u :: Holds(t, u, a) <==> Holds(d, u, a);
        assert forall c :: Answers(t, c, a) <==> Answers(d, c, a);
        assert forall c :: Cancels(t, c, a) <==> Cancels(d, c, a) || (c == d.nextReply && Holds(d, thread, a));
      }
    }
  }

  lemma FailedWriteKeepsDesk(d: Desk, c: nat)
    requires DeskOk(d) && c in d.replies
    ensures DeskOk(d.(replies := d.replies - {c}))
  {
    var t := d.(replies := d.replies - {c});
    forall a: nat ensures AnswerOk(t, a) {
      assert AnswerOk(d, a);
      hide WrittenTo;
      assert forall u :: Holds(t, u, a) <==> Holds(d, u, a);
      assert forall e :: Answers(t, e, a) <==> Answers(d, e, a) && e != c;
      assert forall e | Cancels(t, e, a) :: Cancels(d, e, a);
    }
  }

  lemma WrittenAnswerOk(d: Desk, c: nat, a: nat)
    requires AnswerOk(d, a) && c in d.replies && d.replies[c].Answering?
    ensures AnswerOk(WriteReply(d, c, true), a)
  {
    var t, last := WriteReply(d, c, true), Written(d.replies[c].request, false);
    WrittenSnoc(d.written, last, a, false);
    WrittenSnoc(d.written, last, a, true);
    AnswerIsWritten(d, c, a);
    hide WrittenTo, WriteReply, Holds, Answers, Cancels;
  }

  lemma AnswerIsWritten(d: Desk, c: nat, a: nat)
    requires c in d.replies && d.replies[c].Answering?
    ensures var t, last := WriteReply(d, c, true), Written(d.replies[c].request, false);
      && (Answers(d, c, a) <==> last.request.arrival == a)
      && (forall u :: Holds(t, u, a) <==> Holds(d, u, a))
      && (forall e :: Answers(t, e, a) <==> Answers(d, e, a) && e != c)
      && (forall e :: Cancels(t, e, a) <==> Cancels(d, e, a))
      && t.arrivals == d.arrivals && t.written == d.written + [last]
  {
  }

  lemma WrittenCancelOk(d: Desk, c: nat, a: nat)
    requires AnswerOk(d, a) && c in d.replies && d.replies[c].Cancelling?
    ensures AnswerOk(WriteReply(d, c, true), a)
  {
    var t, last := WriteReply(d, c, true), Written(d.replies[c].request, true);
    WrittenSnoc(d.written, last, a, false);
    WrittenSnoc(d.written, last, a, true);
    hide WrittenTo;
    assert Cancels(d, c, a) <==> last.request.arrival == a;
    assert forall u :: Holds(t, u, a) <==> Holds(d, u, a);
    assert forall e :: Answers(t, e, a) <==> Answers(d, e, a);
    assert forall e :: Cancels(t, e, a) <==> Cancels(d, e, a);
    assert t.arrivals == d.arrivals && t.written == d.written + [last];
    hide WriteReply, Holds, Answers, Cancels;
  }

  lemma WriteKeepsDesk(d: Desk, c: nat, ok: bool)
    requires DeskOk(d)
    ensures DeskOk(WriteReply(d, c, ok))
  {
    if c in d.replies && !d.replies[c].Cleaning? {
      if ok {
        forall a: nat ensures AnswerOk(WriteReply(d, c, true), a) {
          assert AnswerOk(d, a);
          if d.replies[c].Answering? { WrittenAnswerOk(d, c, a); } else { WrittenCancelOk(d, c, a); }
        }
      } else {
        FailedWriteKeepsDesk(d, c);
      }
    }
  }

  lemma EndCancelKeepsDesk(d: Desk, c: nat)
    requires DeskOk(d)
    ensures DeskOk(EndCancel(d, c))
  {
    var t := EndCancel(d, c);
    forall a: nat ensures AnswerOk(t, a) {
      assert AnswerOk(d, a);
      hide WrittenTo;
      assert forall u | Holds(t, u, a) :: Holds(d, u, a);
      assert forall e :: Answers(t, e, a) <==> Answers(d, e, a);
      assert forall e | Cancels(t, e, a) :: Cancels(d, e, a);
    }
  }

  lemma StepKeepsDesk(s: Client, e: Event)
    requires DeskOk(s.desk)
    ensures DeskOk(Step(s, e).desk)
  {
    match e
    case RequestArrived(process, thread, id, kind, turn) => ArriveKeepsDesk(s.desk, thread, id, kind, turn);
    case Answer(thread) => BeginAnswerKeepsDesk(s.desk, thread);
    case Cancel(thread, turn, expected, kind) => BeginCancelKeepsDesk(s.desk, thread, turn, expected, kind);
    case Write(reply, ok) => WriteKeepsDesk(s.desk, reply, s.process.Some? && ok);
    case Clean(reply) => EndCancelKeepsDesk(s.desk, reply);
    case _ =>
      assert OnlyFewer(s.desk, Step(s, e).desk) by { hide DeskOk; }
      FewerRequestsOk(s.desk, Step(s, e).desk);
  }

  lemma {:induction false} RunKeepsDesk(events: seq<Event>)
    ensures DeskOk(Run(events).desk)
  {
    if events != [] {
      RunKeepsDesk(events[..|events| - 1]);
      StepKeepsDesk(Run(events[..|events| - 1]), events[|events| - 1]);
    }
  }

  /** However calls interleave, a request for user input is answered at most once, and only while it waits for no one else. */
  lemma AnsweredAtMostOnce(events: seq<Event>, a: nat)
    ensures var d := Run(events).desk;
      && WrittenTo(d.written, a, false) <= 1
      && (WrittenTo(d.written, a, false) == 1 ==> !OnTable(d, a) && forall c :: !Answers(d, c, a))
      && (forall w | w in d.written :: if w.cancels then IsApproval(w.request.kind) else w.request.kind == USER_INPUT)
  {
    RunKeepsDesk(events);
    assert AnswerOk(Run(events).desk, a);
  }

  lemma StaysOff(s: Client, e: Event, a: nat, u: ThreadId)
    requires a < s.desk.arrivals && forall t :: !Holds(s.desk, t, a)
    ensures !Holds(Step(s, e).desk, u, a)
  {
    assert !Holds(s.desk, u, a);
  }

  lemma FindsNoCaller(s: Client, e: Event, a: nat, c: nat)
    requires forall t :: !Holds(s.desk, t, a)
    ensures (Answers(Step(s, e).desk, c, a) ==> Answers(s.desk, c, a)) && (Cancels(Step(s, e).desk, c, a) ==> Cancels(s.desk, c, a))
  {
    if e.Answer? || e.Cancel? { assert !Holds(s.desk, e.thread, a); }
  }

  /** What left the table does not come back, and only what is on it finds a new caller. */
  lemma OffForGood(events: seq<Event>, e: Event, a: nat)
    requires a < Run(events).desk.arrivals && !OnTable(Run(events).desk, a)
    ensures var d, t := Run(events).desk, Run(events + [e]).desk;
      !OnTable(t, a) && forall c :: (Answers(t, c, a) ==> Answers(d, c, a)) && (Cancels(t, c, a) ==> Cancels(d, c, a))
  {
    RunSnoc(events, e);
    assert forall u :: !Holds(Run(events).desk, u, a);
    forall u { StaysOff(Run(events), e, a, u); }
    forall c { FindsNoCaller(Run(events), e, a, c); }
    hide Run, Step, Holds, Answers, Cancels;
  }

  // ----- Cancelling once ----------------------------------------------------------------------

  /** Does this cancellation begin while another one of the same request is under way? */
  ghost predicate Overlaps(d: Desk, e: Event) {
    e.Cancel? && BeginCancel(d, e.thread, e.turn, e.expected, e.kind) != d && exists c :: Cancels(d, c, d.requests[e.thread].arrival)
  }

  ghost predicate CancelOk(d: Desk, a: nat) {
    && WrittenTo(d.written, a, true) <= 1
    && (forall c, e | Cancels(d, c, a) && Cancels(d, e, a) :: c == e)
    && (forall c | Cancels(d, c, a) && d.replies[c].Cancelling? :: WrittenTo(d.written, a, true) == 0)
    && (WrittenTo(d.written, a, true) == 1 && OnTable(d, a) ==> exists c :: Cancels(d, c, a))
    && (forall c, t | Cancels(d, c, a) && Holds(d, t, a) :: t == d.replies[c].thread && d.requests[t] == d.replies[c].request)
  }

  lemma FewerKeepsCancel(d: Desk, t: Desk, a: nat)
    requires CancelOk(d, a) && OnlyFewer(d, t)
    ensures CancelOk(t, a)
  {
    hide WrittenTo;
    assert forall u | Holds(t, u, a) :: Holds(d, u, a);
    assert forall c :: Cancels(t, c, a) == Cancels(d, c, a);
  }

  lemma ArriveKeepsCancel(d: Desk, thread: ThreadId, id: string, kind: string, turn: string, a: nat)
    requires CancelOk(d, a) && AnswerOk(d, a)
    ensures CancelOk(Arrive(d, thread, id, kind, turn), a)
  {
    var t := Arrive(d, thread, id, kind, turn);
    hide WrittenTo;
    if thread != "" {
      assert forall u :: Holds(t, u, a) <==> if u == thread then a == d.arrivals else Holds(d, u, a);
      assert forall c :: Cancels(t, c, a) == Cancels(d, c, a);
    }
  }

  lemma BeginAnswerKeepsCancel(d: Desk, thread: ThreadId, a: nat)
    requires CancelOk(d, a) && KindsOk(d)
    ensures CancelOk(BeginAnswer(d, thread), a)
  {
    var t := BeginAnswer(d, thread);
    hide WrittenTo;
    assert forall u | Holds(t, u, a) :: Holds(d, u, a);
    assert forall c :: Cancels(t, c, a) == Cancels(d, c, a);
  }

  lemma BeginCancelKeepsCancel(d: Desk, e: Event, a: nat)
    requires e.Cancel? && CancelOk(d, a) && KindsOk(d) && AnswerOk(d, a) && !Overlaps(d, e)
    ensures CancelOk(BeginCancel(d, e.thread, e.turn, e.expected, e.kind), a)
  {
    var t := BeginCancel(d, e.thread, e.turn, e.expected, e.kind);
    hide WrittenTo;
    if t != d {
      assert Holds(d, e.thread, a) ==> OnTable(d, a) && forall c :: !Cancels(d, c, a);
      assert forall u :: Holds(t, u, a) <==> Holds(d, u, a);
      assert forall c :: Cancels(t, c, a) <==> Cancels(d, c, a) || (c == d.nextReply && Holds(d, e.thread, a));
    }
  }

  lemma FailedWriteKeepsCancel(d: Desk, c: nat, a: nat)
    requires CancelOk(d, a) && c in d.replies && !d.replies[c].Cleaning?
    ensures CancelOk(WriteReply(d, c, false), a)
  {
    var t := WriteReply(d, c, false);
    hide WrittenTo;
    assert forall u :: Holds(t, u, a) <==> Holds(d, u, a);
    assert forall e :: Cancels(t, e, a) <==> Cancels(d, e, a) && e != c;
    assert Cancels(d, c, a) ==> WrittenTo(d.written, a, true) == 0;
  }

  lemma WrittenKeepsCancel(d: Desk, c: nat, a: nat)
    requires CancelOk(d, a) && c in d.replies && !d.replies[c].Cleaning?
    ensures CancelOk(WriteReply(d, c, true), a)
  {
    var t, last := WriteReply(d, c, true), Written(d.replies[c].request, d.replies[c].Cancelling?);
    WrittenSnoc(d.written, last, a, true);
    ReplyIsMade(d, c, a);
    hide WrittenTo, WriteReply, Holds, Cancels;
    if Cancels(d, c, a) { assert Cancels(t, c, a); }
  }

  lemma ReplyIsMade(d: Desk, c: nat, a: nat)
    requires c in d.replies && !d.replies[c].Cleaning?
    ensures var t, last := WriteReply(d, c, true), Written(d.replies[c].request, d.replies[c].Cancelling?);
      && t.written == d.written + [last] && t.requests == d.requests
      && (forall u :: Holds(t, u, a) <==> Holds(d, u, a))
      && (forall e :: Cancels(t, e, a) <==> Cancels(d, e, a))
      && (Cancels(d, c, a) <==> last.request.arrival == a && last.cancels)
      && (forall e | Cancels(t, e, a) :: e in d.replies && t.replies[e].thread == d.replies[e].thread && t.replies[e].request == d.replies[e].request)
      && (forall e | Cancels(t, e, a) && t.replies[e].Cancelling? :: e != c && d.replies[e].Cancelling?)
  {
  }

  lemma EndCancelKeepsCancel(d: Desk, c: nat, a: nat)
    requires CancelOk(d, a)
    ensures CancelOk(EndCancel(d, c), a)
  {
    var t := EndCancel(d, c);
    hide WrittenTo;
    if t != d {
      assert forall u | Holds(t, u, a) :: Holds(d, u, a);
      assert forall e :: Cancels(t, e, a) <==> Cancels(d, e, a) && e != c;
      if Cancels(d, c, a) { assert forall u :: !Holds(t, u, a); }
    }
  }

  lemma StepKeepsCancel(s: Client, e: Event, a: nat)
    requires DeskOk(s.desk) && CancelOk(s.desk, a) && !Overlaps(s.desk, e)
    ensures CancelOk(Step(s, e).desk, a)
  {
    assert AnswerOk(s.desk, a);
    var d := s.desk;
    hide AnswerOk, CancelOk, KindsOk;
    match e
    case RequestArrived(process, thread, id, kind, turn) => ArriveKeepsCancel(d, thread, id, kind, turn, a);
    case Answer(thread) => BeginAnswerKeepsCancel(d, thread, a);
    case Cancel(thread, turn, expected, kind) => BeginCancelKeepsCancel(d, e, a);
    case Write(c, ok) =>
      if c in d.replies && !d.replies[c].Cleaning? {
        if s.process.Some? && ok { WrittenKeepsCancel(d, c, a); } else { FailedWriteKeepsCancel(d, c, a); }
      }
    case Clean(reply) => EndCancelKeepsCancel(d, reply, a);
    case _ => FewerKeepsCancel(d, Step(s, e).desk, a);
  }

  /** Without overlapping cancellations, an approval is cancelled at most once. */
  lemma {:induction false} CancelledOnceWithoutOverlap(events: seq<Event>, a: nat)
    requires forall i | 0 <= i < |events| :: !Overlaps(Run(events[..i]).desk, events[i])
    ensures CancelOk(Run(events).desk, a) && WrittenTo(Run(events).desk.written, a, true) <= 1
  {
    if events != [] {
      var n := |events| - 1;
      var init := events[..n];
      forall i | 0 <= i < n ensures !Overlaps(Run(init[..i]).desk, init[i]) { assert init[..i] == events[..i]; }
      CancelledOnceWithoutOverlap(init, a);
      RunKeepsDesk(init);
      StepKeepsCancel(Run(init), events[n], a);
    }
  }

  /** A caller that cleans up has written its cancellation. */
  predicate CleaningOk(d: Desk) {
    forall c | c in d.replies && d.replies[c].Cleaning? :: WrittenTo(d.written, d.replies[c].request.arrival, true) >= 1
  }

  lemma StepKeepsCleaning(s: Client, e: Event)
    requires CleaningOk(s.desk) && KindsOk(s.desk)
    ensures CleaningOk(Step(s, e).desk)
  {
    var d, t := s.desk, Step(s, e).desk;
    if e.Write? && t.written != d.written {
      var last := Written(d.replies[e.reply].request, d.replies[e.reply].Cancelling?);
      forall c | c in t.replies && t.replies[c].Cleaning? ensures WrittenTo(t.written, t.replies[c].request.arrival, true) >= 1 {
        WrittenSnoc(d.written, last, t.replies[c].request.arrival, true);
      }
    }
    hide WrittenTo;
  }

  lemma {:induction false} RunKeepsCleaning(events: seq<Event>)
    ensures CleaningOk(Run(events).desk)
  {
    if events != [] {
      var init := events[..|events| - 1];
      RunKeepsCleaning(init);
      RunKeepsDesk(init);
      StepKeepsCleaning(Run(init), events[|events| - 1]);
      hide CleaningOk, DeskOk;
    }
  }

  lemma CancelIsWritten(s: Client, c: nat)
    requires s.process.Some? && c in s.desk.replies && s.desk.replies[c].Cancelling?
    ensures var t := Step(s, Write(c, true));
      && t.desk.written == s.desk.written + [Written(s.desk.replies[c].request, true)] && t.process == s.process
      && (forall e | e in s.desk.replies && e != c :: e in t.desk.replies && t.desk.replies[e] == s.desk.replies[e])
  {
  }

  /** A caller about to cancel can still do so, and is counted. */
  lemma WriteCancels(events: seq<Event>, c: nat, a: nat)
    requires Run(events).process.Some? && c in Run(events).desk.replies
    requires Run(events).desk.replies[c].Cancelling? && Run(events).desk.replies[c].request.arrival == a
    ensures var d, t := Run(events).desk, Run(events + [Write(c, true)]).desk;
      && WrittenTo(t.written, a, true) == WrittenTo(d.written, a, true) + 1 && Run(events + [Write(c, true)]).process.Some?
      && (forall e | e in d.replies && e != c :: e in t.replies && t.replies[e] == d.replies[e])
  {
    RunSnoc(events, Write(c, true));
    CancelIsWritten(Run(events), c);
    WrittenSnoc(Run(events).desk.written, Written(Run(events).desk.replies[c].request, true), a, true);
    hide *;
  }

  /** From every state in which an overlapping cancellation begins while a process runs, the run can go on to cancel twice. */
  lemma OverlapCanCancelTwice(events: seq<Event>, e: Event) returns (more: seq<Event>)
    requires Run(events).process.Some? && Overlaps(Run(events).desk, e)
    ensures WrittenTo(Run(events + [e] + more).desk.written, Run(events).desk.requests[e.thread].arrival, true) >= 2
  {
    var d := Run(events).desk;
    var a := d.requests[e.thread].arrival;
    var c :| Cancels(d, c, a);
    RunKeepsDesk(events);
    RunKeepsCleaning(events);
    RunSnoc(events, e);
    var begun := events + [e];
    var next := d.nextReply;
    assert c < next;
    var t := Run(begun).desk;
    assert t == BeginCancel(d, e.thread, e.turn, e.expected, e.kind);
    assert next in t.replies && t.replies[next].Cancelling? && t.replies[next].request.arrival == a;
    assert c in t.replies && t.replies[c] == d.replies[c] && t.written == d.written && Run(begun).process.Some?;
    hide Run, Overlaps, DeskOk, BeginCancel;
    WriteCancels(begun, next, a);
    var first := begun + [Write(next, true)];
    if d.replies[c].Cancelling? {
      WriteCancels(first, c, a);
      more := [Write(next, true), Write(c, true)];
      assert begun + more == first + [Write(c, true)];
    } else {
      assert d.replies[c].Cleaning?;
      more := [Write(next, true)];
    }
  }

  const ASKED := Request("7", "item/fileChange/requestApproval", "", 0)

  lemma TwoCancelsBegin() returns (events: seq<Event>)
    ensures var reply := Cancelling("t", ASKED);
      Run(events).desk == Desk(map["t" := ASKED], 1, map[0 := reply, 1 := reply], 2, []) && Run(events).process == Some(0)
  {
    var cancel := Cancel("t", "u", ASKED.id, ASKED.kind);
    var a := [Start(true)];
    var b := a + [RequestArrived(0, "t", ASKED.id, ASKED.kind, "")];
    var c := b + [cancel];
    RunSnoc([], Start(true));
    assert [] + [Start(true)] == a;
    RunSnoc(a, RequestArrived(0, "t", ASKED.id, ASKED.kind, ""));
    assert Run(b).desk == Desk(map["t" := ASKED], 1, map[], 0, []) && Run(b).process == Some(0);
    RunSnoc(b, cancel);
    RunSnoc(c, cancel);
    assert Run(c).desk == Desk(map["t" := ASKED], 1, map[0 := Cancelling("t", ASKED)], 1, []);
    events := c + [cancel];
  }

  /** With an overlap it can be cancelled twice: the request stays on the table until the first cancellation was written. */
  lemma CancelledTwiceWitness()
    ensures exists events :: WrittenTo(Run(events).desk.written, 0, true) == 2
  {
    var d := TwoCancelsBegin();
    var f := d + [Write(0, true)];
    var g := f + [Write(1, true)];
    RunSnoc(d, Write(0, true));
    RunSnoc(f, Write(1, true));
    hide Run;
    var entry := Written(ASKED, true);
    assert Run(f).desk.written == [] + [entry] && Run(f).desk.replies[1] == Cancelling("t", ASKED) && Run(f).process == Some(0);
    assert Run(g).desk.written == [] + [entry] + [entry];
    WrittenSnoc([], entry, 0, true);
    WrittenSnoc([] + [entry], entry, 0, true);
  }
}

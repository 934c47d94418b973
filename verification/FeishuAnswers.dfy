/**
 What a session promises about its requests, told by the fields of the request, the
 reply and the state: which actions go out, and what each reply comes to.
 */
module FeishuAnswers {
  import opened Prelude
  import opened FeishuSession

  // ----- What is asked for ----------------------------------------------------------------

  predicate RefersToFlow(action: string) {
    action == "finish_app" || action == "finish_auth" || action == "cancel_flow"
  }

  /** The shown flow can still be acted on. */
  predicate FlowIsAlive(flow: Flow, now: int) {
    flow.id != "" && (flow.state == "completed" || FlowIsPending(flow, now))
  }

  predicate FlowIsPending(flow: Flow, now: int) {
    flow.state == "pending" && (flow.expiresAt.None? || now < flow.expiresAt.value)
  }

  /** The user may do this, as far as the shown snapshot says. */
  predicate IsOffered(shown: Snapshot, request: Request) {
    && request.action in shown.actions && shown.actions[request.action].enabled
    && (request.expected.None? || (request.expected.value.0 == shown.epoch && request.expected.value.1 == shown.context))
  }

  /** An action with a confirmation text needs the user's word; two actions do without a text. */
  predicate IsConfirmed(shown: Snapshot, request: Request)
    requires request.action in shown.actions
  {
    if shown.actions[request.action].confirmation == "" then request.action == "finish_app" || request.action == "finish_auth"
    else request.confirm
  }

  predicate IsAddressed(shown: Snapshot, request: Request) {
    && (request.action == "test_message" ==> request.target != "" && request.target in shown.targets)
    && (RefersToFlow(request.action) ==>
          shown.flow.Some? && shown.flow.value.id == request.flowId && FlowIsAlive(shown.flow.value, request.now))
    && (request.action == "cancel_flow" ==> FlowIsPending(shown.flow.value, request.now))
  }

  predicate IsPermitted(s: Session, request: Request) {
    && !s.closed && !s.view.acting && s.view.phase == Current && s.view.snapshot.Some? && request.canSubmit
    && IsOffered(s.view.snapshot.value, request) && IsConfirmed(s.view.snapshot.value, request)
    && IsAddressed(s.view.snapshot.value, request)
  }

  lemma PermittedIsAccepted(s: Session, request: Request)
    ensures IsPermitted(s, request) <==> Accepts(s, request)
  {
    if s.view.snapshot.Some? && request.action in s.view.snapshot.value.actions {
      ConfirmedMeans(s.view.snapshot.value, request);
      if s.view.phase == Current { AddressedMeans(s.view, s.view.snapshot.value, request); }
    }
    hide IsConfirmed, Confirmed, IsAddressed, ActionFlow;
  }

  lemma ConfirmedMeans(shown: Snapshot, request: Request)
    requires request.action in shown.actions
    ensures IsConfirmed(shown, request) && (request.action == "test_message" ==> request.target != "")
      <==> Confirmed(request, shown.actions[request.action]) && (request.action == "test_message" ==> request.target != "")
  {
  }

  lemma AddressedMeans(view: View, shown: Snapshot, request: Request)
    requires view.snapshot == Some(shown) && view.phase == Current
    ensures IsAddressed(shown, request)
      <==> && (request.action == "test_message" ==> request.target != "" && request.target in shown.targets)
           && (request.action in {"finish_app", "finish_auth", "cancel_flow"} ==>
                 var flow := ActionFlow(view, request.now);
                 && request.flowId != "" && flow.Some? && flow.value.id == request.flowId
                 && (request.action == "cancel_flow" ==> flow.value.state == "pending"))
  {
    assert "completed" != "pending" by { assert "completed"[0] != "pending"[0]; }
  }

  /** Exactly the permitted actions go out, once, and make the session wait for them. */
  lemma PermittedIsSent(events: seq<Event>, request: Request)
    ensures var s, t := RunFrom(FRESH, events), RunFrom(FRESH, events + [BeginPerform(request)]);
      && (!IsPermitted(s, request) ==> t == s)
      && (IsPermitted(s, request) ==>
            && t.sent == s.sent + [Mutation(s.nextRequest)] && t.nextRequest == s.nextRequest + 1
            && s.nextCall !in s.calls && t.nextCall == s.nextCall + 1 && IsCurrent(t, s.nextCall)
            && t.calls == s.calls[s.nextCall := Acting(t.localRevision, t.generation, s.nextRequest)]
            && t.view == s.view.(acting := true, reading := false, outcome := None, lastAction := Some(request.action))
            && t.closed == s.closed)
  {
    RunSnoc(events, BeginPerform(request));
    RunKeepsCalls(events);
    PermittedIsAccepted(RunFrom(FRESH, events), request);
    hide RunFrom, Accepts, IsPermitted;
  }

  // ----- What a reply comes to --------------------------------------------------------------

  /** No call was begun and nothing was withdrawn since this one was. */
  predicate IsCurrent(s: Session, id: CallId) {
    id in s.calls && s.calls[id].revision == s.localRevision && s.calls[id].generation == s.generation
  }

  /** A snapshot of the known version with an epoch and a title, and not older than what is shown of its epoch. */
  predicate Fits(snapshot: Snapshot, shown: Option<Snapshot>) {
    && snapshot.schema == 2 && |snapshot.epoch| > 0 && |snapshot.title| > 0
    && (shown.None? || shown.value.epoch != snapshot.epoch || snapshot.revision >= shown.value.revision)
  }

  predicate IsOutcome(outcome: string) {
    outcome == "completed" || outcome == "pending" || outcome == "failed" || outcome == "unknown"
  }

  /** A user's pending authorization is over, as far as the snapshots say. */
  predicate IsAuthorized(view: View, snapshot: Snapshot) {
    && view.outcome == Some("pending") && view.snapshot.Some? && view.snapshot.value.flow.Some?
    && view.snapshot.value.flow.value.kind == "user" && snapshot.flow.None? && snapshot.identityValid
  }

  /** The snapshot is shown, and a new epoch makes all calls outdated. */
  predicate Shows(s: Session, t: Session, snapshot: Snapshot) {
    && t.view.snapshot == Some(snapshot) && t.view.phase == Current && !t.view.refreshError && t.view.lastAction == s.view.lastAction
    && t.generation == s.generation + (if s.view.snapshot.Some? && s.view.snapshot.value.epoch != snapshot.epoch then 1 else 0)
    && t.localRevision == s.localRevision && t.closed == s.closed
  }

  /** One call is over, and nothing was sent. */
  predicate IsOver(s: Session, t: Session, id: CallId) {
    && t.calls.Keys == s.calls.Keys - {id} && (forall c | c in t.calls :: t.calls[c] == s.calls[c])
    && t.sent == s.sent && t.nextCall == s.nextCall && t.nextRequest == s.nextRequest
  }

  predicate OnlyView(s: Session, t: Session) {
    t.generation == s.generation && t.localRevision == s.localRevision && t.closed == s.closed
  }

  /** What an answered read shows. */
  predicate ReadShown(s: Session, t: Session, snapshot: Snapshot) {
    && Shows(s, t, snapshot) && t.view.acting == s.view.acting && t.view.reading == (s.view.reading && snapshot.refreshing)
    && t.view.outcome == (if IsAuthorized(s.view, snapshot) then Some("completed") else s.view.outcome)
  }

  /** What a failed read leaves. */
  predicate ReadFailed(s: Session, t: Session) {
    && OnlyView(s, t) && t.view.refreshError && !t.view.reading && t.view.snapshot == s.view.snapshot
    && t.view.phase == (if s.view.snapshot.None? then Unknown else s.view.phase)
    && t.view.acting == s.view.acting && t.view.outcome == s.view.outcome && t.view.lastAction == s.view.lastAction
  }

  predicate IsUsable(s: Session, reply: Reply) {
    reply.Success? && Fits(reply.snapshot, s.view.snapshot)
  }

  lemma ReadStep(s: Session, id: CallId, reply: Reply, cancelled: bool)
    requires id in s.calls && s.calls[id].Reading?
    ensures var t := EndReadStep(s, id, reply, cancelled);
      && IsOver(s, t, id)
      && (cancelled || !IsCurrent(s, id) ==> t.view == s.view && OnlyView(s, t))
      && (!cancelled && IsCurrent(s, id) ==> if IsUsable(s, reply) then ReadShown(s, t, reply.snapshot) else ReadFailed(s, t))
  {
  }

  /** What the answer of an action shows; the outcome is the reply's. */
  predicate ActionShown(s: Session, t: Session, id: CallId, outcome: string, snapshot: Snapshot) {
    && IsOver(s, t, id) && Shows(s, t, snapshot) && t.view.outcome == Some(outcome) && !t.view.acting && t.view.reading == s.view.reading
  }

  /** The result is asked for, by the same request, and nothing else changes. */
  predicate IsAsked(s: Session, t: Session, id: CallId)
    requires id in s.calls && s.calls[id].Acting?
  {
    && t.calls.Keys == s.calls.Keys && (forall c | c in s.calls && c != id :: t.calls[c] == s.calls[c])
    && t.calls[id] == Querying(s.calls[id].revision, s.calls[id].generation, s.calls[id].request)
    && t.sent == s.sent + [Query(s.calls[id].request)] && t.view == s.view && OnlyView(s, t)
    && t.nextCall == s.nextCall && t.nextRequest == s.nextRequest
  }

  lemma ActionStep(s: Session, id: CallId, reply: Reply)
    requires id in s.calls && s.calls[id].Acting?
    ensures var t := EndActionStep(s, id, reply);
      && (!IsCurrent(s, id) ==> IsOver(s, t, id) && t.view == s.view && OnlyView(s, t))
      && (IsCurrent(s, id) ==>
            if IsUsable(s, reply) && IsOutcome(reply.outcome) then ActionShown(s, t, id, reply.outcome, reply.snapshot) else IsAsked(s, t, id))
  {
  }

  /** Nobody knows how the action ended. */
  predicate IsUnclear(s: Session, t: Session, id: CallId) {
    && IsOver(s, t, id) && OnlyView(s, t)
    && t.view == s.view.(phase := Unknown, outcome := Some("unknown"), acting := false)
  }

  lemma QueryStep(s: Session, id: CallId, reply: Reply)
    requires id in s.calls && s.calls[id].Querying?
    ensures var t := EndQueryStep(s, id, reply);
      && (reply.Failure? ==> IsUnclear(s, t, id))
      && (reply.Success? && !IsCurrent(s, id) ==> IsOver(s, t, id) && t.view == s.view && OnlyView(s, t))
      && (reply.Success? && IsCurrent(s, id) ==>
            if IsUsable(s, reply) then ActionShown(s, t, id, reply.outcome, reply.snapshot) else IsUnclear(s, t, id))
  {
  }

  /** What any reply comes to in any run, by its call. */
  lemma RepliesCount(events: seq<Event>, id: CallId, reply: Reply, cancelled: bool)
    requires id in RunFrom(FRESH, events).calls
    ensures var s := RunFrom(FRESH, events);
      && (s.calls[id].Reading? ==>
            var t := RunFrom(FRESH, events + [EndRead(id, reply, cancelled)]);
            && IsOver(s, t, id)
            && (cancelled || !IsCurrent(s, id) ==> t.view == s.view && OnlyView(s, t))
            && (!cancelled && IsCurrent(s, id) ==> if IsUsable(s, reply) then ReadShown(s, t, reply.snapshot) else ReadFailed(s, t)))
      && (s.calls[id].Acting? ==>
            var t := RunFrom(FRESH, events + [EndAction(id, reply)]);
            && (!IsCurrent(s, id) ==> IsOver(s, t, id) && t.view == s.view && OnlyView(s, t))
            && (IsCurrent(s, id) ==>
                  if IsUsable(s, reply) && IsOutcome(reply.outcome) then ActionShown(s, t, id, reply.outcome, reply.snapshot)
                  else IsAsked(s, t, id)))
      && (s.calls[id].Querying? ==>
            var t := RunFrom(FRESH, events + [EndQuery(id, reply)]);
            && (reply.Failure? ==> IsUnclear(s, t, id))
            && (reply.Success? && !IsCurrent(s, id) ==> IsOver(s, t, id) && t.view == s.view && OnlyView(s, t))
            && (reply.Success? && IsCurrent(s, id) ==>
                  if IsUsable(s, reply) then ActionShown(s, t, id, reply.outcome, reply.snapshot) else IsUnclear(s, t, id)))
  {
    var s := RunFrom(FRESH, events);
    hide RunFrom, IsOver, OnlyView, IsUsable, ReadShown, ReadFailed, ActionShown, IsAsked, IsUnclear, IsOutcome, IsCurrent,
         EndReadStep, EndActionStep, EndQueryStep;
    match s.calls[id]
    case Reading(_, _) => RunSnoc(events, EndRead(id, reply, cancelled)); ReadStep(s, id, reply, cancelled);
    case Acting(_, _, _) => RunSnoc(events, EndAction(id, reply)); ActionStep(s, id, reply);
    case Querying(_, _, _) => RunSnoc(events, EndQuery(id, reply)); QueryStep(s, id, reply);
  }

  // ----- An action and its answer ---------------------------------------------------------------

  /** Someone else's event: no disturbance, no failed query, and no reply to this call. */
  predicate LeavesAlone(e: Event, id: CallId) {
    !Disturbs(e) && CallOf(e) != Some(id) && !(e.EndQuery? && e.reply.Failure?)
  }

  /** The action waits for its reply. */
  predicate Awaits(s: Session, id: CallId, revision: nat, generation: nat, request: RequestId) {
    id in s.calls && s.calls[id] == Acting(revision, generation, request) && revision == s.localRevision && generation == s.generation
  }

  /** Every other call is older, so that its reply shows nothing. */
  lemma OthersAreOutdated(s: Session, id: CallId, other: CallId)
    requires CallsOk(s) && IsCurrent(s, id) && other in s.calls && other != id
    ensures !IsCurrent(s, other)
  {
  }

  lemma AwaitStays(s: Session, e: Event, id: CallId, revision: nat, generation: nat, request: RequestId)
    requires CallsOk(s) && Awaits(s, id, revision, generation, request) && s.view.acting && LeavesAlone(e, id)
    ensures Awaits(Step(s, e), id, revision, generation, request) && Step(s, e).view == s.view && Step(s, e).sent == s.sent
  {
    assert IsCurrent(s, id);
    if CallOf(e).Some? && CallOf(e).value in s.calls { OthersAreOutdated(s, id, CallOf(e).value); }
    hide IsValid, Accepts, CallsOk;
    if e.BeginPerform? { NotWhileActing(s, e.request); }
  }

  lemma NotWhileActing(s: Session, request: Request)
    requires s.view.acting
    ensures !Accepts(s, request)
  {
  }

  /**
   A permitted action keeps waiting, and the view stays as it is, whatever else is
   asked or answered in between; then its own reply, if it can be used, gives the
   outcome and the snapshot shown, and otherwise the result is asked for once.
   */
  lemma {:induction false} ActionKeepsWaiting(events: seq<Event>, request: Request, more: seq<Event>)
    requires IsPermitted(RunFrom(FRESH, events), request)
    requires forall e | e in more :: LeavesAlone(e, RunFrom(FRESH, events).nextCall)
    ensures var s, t := RunFrom(FRESH, events), RunFrom(FRESH, events + [BeginPerform(request)] + more);
      && Awaits(t, s.nextCall, t.localRevision, t.generation, s.nextRequest) && t.sent == s.sent + [Mutation(s.nextRequest)]
      && t.view == s.view.(acting := true, reading := false, outcome := None, lastAction := Some(request.action))
  {
    var s, begun := RunFrom(FRESH, events), events + [BeginPerform(request)];
    if more == [] {
      assert begun + more == begun;
      PermittedIsSent(events, request);
    } else {
      var init, last := more[..|more| - 1], more[|more| - 1];
      ActionKeepsWaiting(events, request, init);
      assert begun + more == begun + init + [last];
      RunSnoc(begun + init, last);
      RunKeepsCalls(begun + init);
      var t := RunFrom(FRESH, begun + init);
      assert LeavesAlone(last, s.nextCall);
      hide RunFrom, CallsOk, LeavesAlone;
      AwaitStays(t, last, s.nextCall, t.localRevision, t.generation, s.nextRequest);
    }
  }

  lemma ActionIsAnswered(events: seq<Event>, request: Request, more: seq<Event>, reply: Reply)
    requires IsPermitted(RunFrom(FRESH, events), request)
    requires forall e | e in more :: LeavesAlone(e, RunFrom(FRESH, events).nextCall)
    ensures var s := RunFrom(FRESH, events);
      var t := RunFrom(FRESH, events + [BeginPerform(request)] + more + [EndAction(s.nextCall, reply)]);
      var sent := s.sent + [Mutation(s.nextRequest)];
      if IsUsable(s, reply) && IsOutcome(reply.outcome)
      then t.view.outcome == Some(reply.outcome) && t.view.snapshot == Some(reply.snapshot) && !t.view.acting && t.sent == sent
      else t.view.outcome == None && t.view.snapshot == s.view.snapshot && t.view.acting && t.sent == sent + [Query(s.nextRequest)]
  {
    var s, before := RunFrom(FRESH, events), events + [BeginPerform(request)] + more;
    ActionKeepsWaiting(events, request, more);
    assert IsCurrent(RunFrom(FRESH, before), s.nextCall);
    RepliesCount(before, s.nextCall, reply, false);
    hide RunFrom, IsPermitted, LeavesAlone;
  }

  // ----- Beginning a read, and withdrawing --------------------------------------------------------

  /** A read begins exactly in an open session that does nothing; then it is the latest call. */
  lemma ReadBegins(events: seq<Event>, refresh: bool, cancelled: bool)
    ensures var s, t := RunFrom(FRESH, events), RunFrom(FRESH, events + [BeginRead(refresh, cancelled)]);
      && (s.closed || s.view.acting || cancelled ==> t == s)
      && (!s.closed && !s.view.acting && !cancelled ==>
            && s.nextCall !in s.calls && IsCurrent(t, s.nextCall) && t.calls[s.nextCall].Reading? && t.nextCall == s.nextCall + 1
            && t.calls.Keys == s.calls.Keys + {s.nextCall}
            && (forall c | c in s.calls :: t.calls[c] == s.calls[c] && !IsCurrent(t, c)) && t.sent == s.sent
            && t.view == s.view.(reading := s.view.reading || refresh || s.view.snapshot.None?))
  {
    RunSnoc(events, BeginRead(refresh, cancelled));
    RunKeepsCalls(events);
    hide RunFrom;
  }

  /** Withdrawing clears the view and leaves no call that is current. */
  lemma WithdrawnMeans(events: seq<Event>, e: Event)
    requires e == Invalidate || e == Shutdown
    ensures var s, t := RunFrom(FRESH, events), RunFrom(FRESH, events + [e]);
      && t.view == View(if e == Shutdown then Unknown else Loading, None, false, false, None, None, false)
      && t.calls == s.calls && t.sent == s.sent && t.closed == (s.closed || e == Shutdown)
      && forall c | c in t.calls :: !IsCurrent(t, c)
  {
    RunSnoc(events, e);
    RunKeepsCalls(events);
    RunKeepsGenerations(events);
    hide RunFrom;
  }

  /** Restoring shows a snapshot that fits, with nothing else in the view and no call current; another one changes nothing. */
  lemma RestoredMeans(events: seq<Event>, snapshot: Snapshot)
    ensures var s, t := RunFrom(FRESH, events), RunFrom(FRESH, events + [Event.Restore(snapshot)]);
      if !Fits(snapshot, s.view.snapshot) then t == s
      else
        && t.view == View(Current, Some(snapshot), false, false, None, None, false) && t.calls == s.calls && t.sent == s.sent
        && t.closed == s.closed && forall c | c in t.calls :: !IsCurrent(t, c)
  {
    RunSnoc(events, Event.Restore(snapshot));
    RunKeepsCalls(events);
    RunKeepsGenerations(events);
    hide RunFrom;
  }

  /** To stop polling outdates a read that waits, and never an action. */
  lemma StoppedMeans(events: seq<Event>)
    ensures var s, t := RunFrom(FRESH, events), RunFrom(FRESH, events + [StopPolling]);
      && (s.view.acting ==> t == s)
      && (!s.view.acting ==>
            && t.view == s.view.(reading := false) && t.calls == s.calls && t.sent == s.sent && t.closed == s.closed
            && forall c | c in t.calls :: !IsCurrent(t, c))
  {
    RunSnoc(events, StopPolling);
    RunKeepsCalls(events);
    hide RunFrom;
  }
}

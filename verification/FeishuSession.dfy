/**
 The configuration session: one actor whose code runs undisturbed between awaits.
 Each step below is one such stretch of code; the calls that are waiting for a
 reply are kept with the local variables that they will need.
 */
module FeishuSession {
  import opened Prelude

  // ----- Snapshots --------------------------------------------------------------------

  datatype Flow = Flow(id: string, kind: string, state: string, expiresAt: Option<int>)

  datatype Action = Action(enabled: bool, confirmation: string)

  datatype Snapshot = Snapshot(
    schema: int,
    epoch: string,
    revision: nat,
    context: string,
    title: string,
    actions: map<string, Action>,
    flow: Option<Flow>,
    targets: seq<string>,
    identityValid: bool,
    refreshing: bool)

  datatype Phase = Loading | Current | Unknown

  datatype View = View(
    phase: Phase,
    snapshot: Option<Snapshot>,
    reading: bool,
    acting: bool,
    outcome: Option<string>,
    lastAction: Option<string>,
    refreshError: bool)

  const BLANK := View(Loading, None, false, false, None, None, false)

  // ----- Calls -------------------------------------------------------------------------

  type CallId = nat
  type RequestId = nat

  /** A call that waits: a read, an action sent, or the query for an action's result. */
  datatype Call =
    | Reading(revision: nat, generation: nat)
    | Acting(revision: nat, generation: nat, request: RequestId)
    | Querying(revision: nat, generation: nat, request: RequestId)

  datatype Message = Mutation(request: RequestId) | Query(request: RequestId)

  datatype Session = Session(
    view: View,
    generation: nat,
    localRevision: nat,
    closed: bool,
    calls: map<CallId, Call>,
    nextCall: CallId,
    nextRequest: RequestId,
    sent: seq<Message>)

  const FRESH := Session(BLANK, 0, 0, false, map[], 0, 0, [])

  /** What the user asked for; the time is the one at which flows are judged. */
  datatype Request = Request(action: string, confirm: bool, target: string, flowId: string,
                             expected: Option<(string, string)>, canSubmit: bool, now: int)

  /** What a transport call comes to: an error, or a decoded reply. */
  datatype Reply = Failure | Success(outcome: string, snapshot: Snapshot)

  datatype Event =
    | BeginRead(refresh: bool, cancelled: bool)
    | EndRead(call: CallId, reply: Reply, cancelled: bool)
    | BeginPerform(request: Request)
    | EndAction(call: CallId, reply: Reply)
    | EndQuery(call: CallId, reply: Reply)
    | StopPolling
    | Invalidate
    | Shutdown
    | Restore(snapshot: Snapshot)

  // ----- Validation --------------------------------------------------------------------------

  const OUTCOMES := {"completed", "pending", "failed", "unknown"}

  predicate IsValid(view: View, snapshot: Snapshot) {
    && snapshot.schema == 2 && snapshot.epoch != "" && snapshot.title != ""
    && (view.snapshot.Some? && view.snapshot.value.epoch == snapshot.epoch ==> view.snapshot.value.revision <= snapshot.revision)
  }

  /** The flow that actions may refer to: completed, or pending and not expired. */
  function ActionFlow(view: View, now: int): Option<Flow> {
    if view.phase != Current || view.snapshot.None? || view.snapshot.value.flow.None? then None
    else
      var flow := view.snapshot.value.flow.value;
      if flow.id == "" then None
      else if flow.state == "completed" then Some(flow)
      else if flow.state == "pending" && (flow.expiresAt.None? || flow.expiresAt.value > now) then Some(flow)
      else None
  }

  predicate Confirmed(request: Request, action: Action) {
    (request.action !in {"finish_app", "finish_auth"} || action.confirmation != "")
    ==> action.confirmation != "" && (request.action == "test_message" ==> request.target != "") && request.confirm
  }

  /** Whether a request goes out. */
  predicate Accepts(s: Session, request: Request) {
    && !s.closed && s.view.phase == Current && !s.view.acting && s.view.snapshot.Some?
    && var snapshot := s.view.snapshot.value;
      && request.action in snapshot.actions && snapshot.actions[request.action].enabled && request.canSubmit
      && (request.expected.Some? ==> request.expected.value == (snapshot.epoch, snapshot.context))
      && Confirmed(request, snapshot.actions[request.action])
      && (request.action == "test_message" ==> request.target != "" && request.target in snapshot.targets)
      && (request.action in {"finish_app", "finish_auth", "cancel_flow"} ==>
            var flow := ActionFlow(s.view, request.now);
            && request.flowId != "" && flow.Some? && flow.value.id == request.flowId
            && (request.action == "cancel_flow" ==> flow.value.state == "pending"))
  }

  // ----- Steps ---------------------------------------------------------------------------------

  /** Shows a snapshot; a new epoch makes every waiting call stale. */
  function Apply(s: Session, snapshot: Snapshot): Session {
    var current := s.view.snapshot;
    var authorized := s.view.outcome == Some("pending") && current.Some? && current.value.flow.Some?
      && current.value.flow.value.kind == "user" && snapshot.flow.None? && snapshot.identityValid;
    s.(generation := if current.Some? && current.value.epoch != snapshot.epoch then s.generation + 1 else s.generation,
       view := s.view.(snapshot := Some(snapshot), phase := Current, refreshError := false,
                       outcome := if authorized then Some("completed") else s.view.outcome))
  }

  predicate IsLatest(s: Session, call: Call) {
    call.revision == s.localRevision && call.generation == s.generation
  }

  function Done(s: Session, id: CallId): Session {
    s.(calls := map c: CallId | c in s.calls && c != id :: s.calls[c])
  }

  function Settle(s: Session): Session {
    var v := s.view;
    s.(view := v.(reading := v.reading && !v.refreshError && v.snapshot.Some? && v.snapshot.value.refreshing))
  }

  function Stop(s: Session): Session {
    s.(view := s.view.(acting := false))
  }

  function BeginReadStep(s: Session, refresh: bool, cancelled: bool): Session {
    if s.closed || s.view.acting || cancelled then s
    else
      s.(localRevision := s.localRevision + 1,
         calls := s.calls[s.nextCall := Reading(s.localRevision + 1, s.generation)], nextCall := s.nextCall + 1,
         view := s.view.(reading := s.view.reading || refresh || s.view.snapshot.None?))
  }

  function EndReadStep(s: Session, id: CallId, reply: Reply, cancelled: bool): Session {
    if id !in s.calls || !s.calls[id].Reading? then s
    else
      var t := Done(s, id);
      if cancelled || !IsLatest(s, s.calls[id]) then t
      else if reply.Success? && IsValid(s.view, reply.snapshot) then Settle(Apply(t, reply.snapshot))
      else Settle(t.(view := t.view.(phase := if t.view.snapshot.None? then Unknown else t.view.phase, refreshError := true)))
  }

  function BeginPerformStep(s: Session, request: Request): Session {
    if !Accepts(s, request) then s
    else
      s.(localRevision := s.localRevision + 1,
         calls := s.calls[s.nextCall := Acting(s.localRevision + 1, s.generation, s.nextRequest)], nextCall := s.nextCall + 1,
         nextRequest := s.nextRequest + 1, sent := s.sent + [Mutation(s.nextRequest)],
         view := s.view.(lastAction := Some(request.action), acting := true, reading := false, outcome := None))
  }

  /** An answer that cannot be used is never followed by a second mutation, only by a query. */
  function EndActionStep(s: Session, id: CallId, reply: Reply): Session {
    if id !in s.calls || !s.calls[id].Acting? then s
    else
      var call := s.calls[id];
      if !IsLatest(s, call) then Done(s, id)
      else if reply.Success? && IsValid(s.view, reply.snapshot) && reply.outcome in OUTCOMES
      then
        var t := Apply(Done(s, id), reply.snapshot);
        Stop(t.(view := t.view.(outcome := Some(reply.outcome))))
      else s.(calls := s.calls[id := Querying(call.revision, call.generation, call.request)], sent := s.sent + [Query(call.request)])
  }

  function Unclear(s: Session): Session {
    s.(view := s.view.(phase := Unknown, outcome := Some("unknown")))
  }

  /** A failed query is reported without asking whether the call is still the latest. */
  function EndQueryStep(s: Session, id: CallId, reply: Reply): Session {
    if id !in s.calls || !s.calls[id].Querying? then s
    else
      var t := Done(s, id);
      if reply.Failure? then Stop(Unclear(t))
      else if !IsLatest(s, s.calls[id]) then t
      else if !IsValid(s.view, reply.snapshot) then Stop(Unclear(t))
      else
        var u := Apply(t, reply.snapshot);
        Stop(u.(view := u.view.(outcome := Some(reply.outcome))))
  }

  function StopPollingStep(s: Session): Session {
    if s.view.acting then s else s.(localRevision := s.localRevision + 1, view := s.view.(reading := false))
  }

  function InvalidateStep(s: Session): Session {
    var t := StopPollingStep(s);
    t.(generation := t.generation + 1, localRevision := t.localRevision + 1, view := BLANK)
  }

  function RestoreStep(s: Session, snapshot: Snapshot): Session {
    if !IsValid(s.view, snapshot) then s
    else Apply(s.(generation := s.generation + 1, localRevision := s.localRevision + 1, view := BLANK), snapshot)
  }

  function Step(s: Session, e: Event): Session {
    match e
    case BeginRead(refresh, cancelled) => BeginReadStep(s, refresh, cancelled)
    case EndRead(call, reply, cancelled) => EndReadStep(s, call, reply, cancelled)
    case BeginPerform(request) => BeginPerformStep(s, request)
    case EndAction(call, reply) => EndActionStep(s, call, reply)
    case EndQuery(call, reply) => EndQueryStep(s, call, reply)
    case StopPolling => StopPollingStep(s)
    case Invalidate => InvalidateStep(s)
    case Shutdown =>
      var t := InvalidateStep(s.(closed := true));
      t.(view := t.view.(phase := Unknown))
    case Restore(snapshot) => RestoreStep(s, snapshot)
  }

  function RunFrom(s: Session, events: seq<Event>): Session {
    if events == [] then s else Step(RunFrom(s, events[..|events| - 1]), events[|events| - 1])
  }

  // ----- What holds in every run -----------------------------------------------------------------

  /** Each waiting call has a revision of its own, none newer than the last one given out. */
  predicate CallsOk(s: Session) {
    && (forall c | c in s.calls :: c < s.nextCall && s.calls[c].revision <= s.localRevision)
    && (forall c, d | c in s.calls && d in s.calls && c != d :: s.calls[c].revision != s.calls[d].revision)
  }

  /** No call was added, and those that remain have the revisions they had. */
  predicate OnlyFewer(s: Session, t: Session) {
    && s.localRevision <= t.localRevision && s.nextCall == t.nextCall
    && forall c | c in t.calls :: c in s.calls && t.calls[c].revision == s.calls[c].revision
  }

  lemma FewerCallsOk(s: Session, t: Session)
    requires CallsOk(s) && OnlyFewer(s, t)
    ensures CallsOk(t)
  {
  }

  lemma BeginKeepsCalls(s: Session, t: Session, call: Call)
    requires CallsOk(s) && call.revision == s.localRevision + 1 && t.localRevision == s.localRevision + 1
    requires t.calls == s.calls[s.nextCall := call] && t.nextCall == s.nextCall + 1
    ensures CallsOk(t)
  {
  }

  lemma RepliesOnlyRemove(s: Session, id: CallId, reply: Reply, cancelled: bool)
    ensures OnlyFewer(s, EndReadStep(s, id, reply, cancelled)) && OnlyFewer(s, EndActionStep(s, id, reply))
  {
    hide IsValid, Settle;
    assert forall t: Session :: Settle(t).calls == t.calls && Settle(t).localRevision == t.localRevision && Settle(t).nextCall == t.nextCall by {
      SettleKeeps();
    }
  }

  lemma SettleKeeps()
    ensures forall t: Session :: Settle(t).calls == t.calls && Settle(t).localRevision == t.localRevision && Settle(t).nextCall == t.nextCall
  {
  }

  lemma OthersOnlyRemove(s: Session, e: Event)
    requires !e.BeginRead? && !e.BeginPerform? && !e.EndRead? && !e.EndAction?
    ensures OnlyFewer(s, Step(s, e))
  {
    hide IsValid;
  }

  lemma StepKeepsCalls(s: Session, e: Event)
    requires CallsOk(s)
    ensures CallsOk(Step(s, e))
  {
    hide IsValid, Accepts, CallsOk, OnlyFewer, EndReadStep, EndActionStep;
    match e
    case BeginRead(refresh, cancelled) =>
      if Step(s, e) != s { BeginKeepsCalls(s, Step(s, e), Reading(s.localRevision + 1, s.generation)); }
    case BeginPerform(request) =>
      if Step(s, e) != s { BeginKeepsCalls(s, Step(s, e), Acting(s.localRevision + 1, s.generation, s.nextRequest)); }
    case EndRead(id, reply, cancelled) => RepliesOnlyRemove(s, id, reply, cancelled); FewerCallsOk(s, Step(s, e));
    case EndAction(id, reply) => RepliesOnlyRemove(s, id, reply, false); FewerCallsOk(s, Step(s, e));
    case _ => OthersOnlyRemove(s, e); FewerCallsOk(s, Step(s, e));
  }

  lemma {:induction false} RunKeepsCalls(events: seq<Event>)
    ensures CallsOk(RunFrom(FRESH, events))
  {
    if events != [] {
      RunKeepsCalls(events[..|events| - 1]);
      StepKeepsCalls(RunFrom(FRESH, events[..|events| - 1]), events[|events| - 1]);
    }
  }

  function CallOf(e: Event): Option<CallId> {
    match e
    case EndRead(call, _, _) => Some(call)
    case EndAction(call, _) => Some(call)
    case EndQuery(call, _) => Some(call)
    case _ => None
  }

  /** A reply shows a snapshot only when its call is the latest one issued. */
  lemma OnlyLatestIsShown(events: seq<Event>, e: Event)
    requires CallOf(e).Some? && Step(RunFrom(FRESH, events), e).view.snapshot != RunFrom(FRESH, events).view.snapshot
    ensures var s := RunFrom(FRESH, events);
      var id := CallOf(e).value;
      id in s.calls && IsLatest(s, s.calls[id])
      && forall other | other in s.calls && other != id :: s.calls[other].revision < s.calls[id].revision
  {
    RunKeepsCalls(events);
    hide IsValid;
  }

  predicate IsFailedQuery(s: Session, e: Event) {
    e.EndQuery? && e.call in s.calls && s.calls[e.call].Querying? && e.reply.Failure?
  }

  /** What the reply to an outdated call does: nothing, unless it is a failed query. */
  lemma OutdatedReplies(s: Session, e: Event)
    requires CallOf(e).Some? && CallOf(e).value in s.calls && !IsLatest(s, s.calls[CallOf(e).value])
    ensures var t := Step(s, e);
      && (!IsFailedQuery(s, e) ==> t.view == s.view && t.sent == s.sent && t.generation == s.generation && t.localRevision == s.localRevision)
      && (IsFailedQuery(s, e) ==> t.view == s.view.(phase := Unknown, outcome := Some("unknown"), acting := false))
  {
    hide IsValid;
  }

  lemma OutdatedStays(s: Session, e: Event, c: CallId)
    requires CallsOk(s) && GenerationsOk(s) && c in s.calls && !IsLatest(s, s.calls[c]) && c in Step(s, e).calls
    ensures !IsLatest(Step(s, e), Step(s, e).calls[c])
  {
    hide IsValid, Accepts;
    StepKeepsGenerations(s, e);
  }

  lemma CallIsNotReused(s: Session, e: Event, c: CallId)
    requires c !in s.calls && c < s.nextCall
    ensures c !in Step(s, e).calls && s.nextCall <= Step(s, e).nextCall
  {
    hide IsValid, Accepts;
  }

  /** A call that is outdated once is outdated whenever its reply comes. */
  lemma {:induction false} OutdatedForever(events: seq<Event>, more: seq<Event>, c: CallId)
    requires c in RunFrom(FRESH, events).calls && !IsLatest(RunFrom(FRESH, events), RunFrom(FRESH, events).calls[c])
    ensures var t := RunFrom(FRESH, events + more); c < t.nextCall && (c in t.calls ==> !IsLatest(t, t.calls[c]))
  {
    if more == [] {
      assert events + more == events;
      RunKeepsCalls(events);
    } else {
      var init, last := more[..|more| - 1], more[|more| - 1];
      OutdatedForever(events, init, c);
      assert events + more == (events + init) + [last];
      RunSnoc(events + init, last);
      RunKeepsCalls(events + init);
      RunKeepsGenerations(events + init);
      var s := RunFrom(FRESH, events + init);
      hide RunFrom, IsLatest, CallsOk, GenerationsOk;
      if c in s.calls {
        if c in Step(s, last).calls { OutdatedStays(s, last, c); }
        NextCallGrows(s, last);
      } else {
        CallIsNotReused(s, last, c);
      }
    }
  }

  lemma NextCallGrows(s: Session, e: Event)
    ensures s.nextCall <= Step(s, e).nextCall
  {
    hide IsValid, Accepts;
  }

  /** So from then on its reply shows nothing; only a failed query touches the view. */
  lemma OutdatedReplyShowsNothing(events: seq<Event>, more: seq<Event>, c: CallId, e: Event)
    requires c in RunFrom(FRESH, events).calls && !IsLatest(RunFrom(FRESH, events), RunFrom(FRESH, events).calls[c])
    requires CallOf(e) == Some(c)
    ensures var s := RunFrom(FRESH, events + more);
      && Step(s, e).view.snapshot == s.view.snapshot && Step(s, e).generation == s.generation
      && (Step(s, e).view != s.view ==> IsFailedQuery(s, e))
  {
    OutdatedForever(events, more, c);
    var s := RunFrom(FRESH, events + more);
    hide RunFrom;
    if c in s.calls { OutdatedReplies(s, e); }
    hide IsValid;
  }

  predicate Resets(e: Event) {
    e.Invalidate? || e.Shutdown?
  }

  /** A shown snapshot is replaced, never dropped, and within an epoch by no older one. */
  lemma RevisionStepNeverFalls(s: Session, e: Event)
    requires !Resets(e) && s.view.snapshot.Some?
    ensures var t := Step(s, e);
      t.view.snapshot.Some?
      && (t.view.snapshot.value.epoch == s.view.snapshot.value.epoch ==> s.view.snapshot.value.revision <= t.view.snapshot.value.revision)
  {
    hide Accepts;
  }

  /** All snapshots shown along the way have this epoch. */
  predicate InEpoch(s: Session, events: seq<Event>, epoch: string) {
    forall i | 0 <= i <= |events| ::
      RunFrom(s, events[..i]).view.snapshot.Some? ==> RunFrom(s, events[..i]).view.snapshot.value.epoch == epoch
  }

  /** Between invalidations, while the epoch stays, the revision never falls. */
  lemma {:induction false} RevisionNeverFalls(s: Session, events: seq<Event>)
    requires s.view.snapshot.Some? && InEpoch(s, events, s.view.snapshot.value.epoch)
    requires forall e | e in events :: !Resets(e)
    ensures var t := RunFrom(s, events); t.view.snapshot.Some? && s.view.snapshot.value.revision <= t.view.snapshot.value.revision
  {
    if events != [] {
      var init, last := events[..|events| - 1], events[|events| - 1];
      assert forall i | 0 <= i <= |init| :: init[..i] == events[..i];
      assert events[..|events|] == events;
      assert last in events;
      RevisionNeverFalls(s, init);
      RevisionStepNeverFalls(RunFrom(s, init), last);
      hide Step;
    }
  }

  // ----- One action at a time -------------------------------------------------------------------------

  predicate IsAction(call: Call) {
    call.Acting? || call.Querying?
  }

  predicate TwoInFlight(s: Session) {
    exists c, d | c in s.calls && d in s.calls :: c != d && IsAction(s.calls[c]) && IsAction(s.calls[d])
  }

  predicate Disturbs(e: Event) {
    e.Invalidate? || e.Shutdown? || e.Restore?
  }

  /** The session is acting exactly while one action, the latest call, is in flight. */
  predicate OneAction(s: Session) {
    && (!s.view.acting ==> forall c | c in s.calls :: !IsAction(s.calls[c]))
    && (s.view.acting ==> exists c | c in s.calls :: TheAction(s, c))
  }

  predicate TheAction(s: Session, c: CallId)
    requires c in s.calls
  {
    IsAction(s.calls[c]) && IsLatest(s, s.calls[c]) && forall d | d in s.calls && d != c :: !IsAction(s.calls[d])
  }

  lemma BeginReadKeepsOne(s: Session, refresh: bool, cancelled: bool)
    requires OneAction(s) && CallsOk(s)
    ensures OneAction(BeginReadStep(s, refresh, cancelled))
  {
  }

  lemma BeginPerformKeepsOne(s: Session, request: Request)
    requires OneAction(s) && CallsOk(s)
    ensures OneAction(BeginPerformStep(s, request))
  {
    var t := BeginPerformStep(s, request);
    if t != s {
      assert !s.view.acting;
      hide Accepts;
      assert TheAction(t, s.nextCall);
    }
  }

  lemma EndReadKeepsOne(s: Session, id: CallId, reply: Reply, cancelled: bool)
    requires OneAction(s) && CallsOk(s)
    ensures OneAction(EndReadStep(s, id, reply, cancelled))
  {
    hide IsValid;
    var t := EndReadStep(s, id, reply, cancelled);
    if t != s && s.view.acting {
      var c :| c in s.calls && TheAction(s, c);
      assert s.calls[c].revision != s.calls[id].revision;
      assert TheAction(t, c);
    }
  }

  lemma EndActionKeepsOne(s: Session, id: CallId, reply: Reply)
    requires OneAction(s) && CallsOk(s)
    ensures OneAction(EndActionStep(s, id, reply))
  {
    hide IsValid, Apply;
    assert forall t: Session, x: Snapshot :: Apply(t, x).calls == t.calls && Apply(t, x).view.acting == t.view.acting by { ApplyKeeps(); }
    var t := EndActionStep(s, id, reply);
    if t != s {
      assert s.view.acting;
      assert TheAction(s, id);
      if t.view.acting { assert TheAction(t, id); }
    }
  }

  lemma ApplyKeeps()
    ensures forall t: Session, x: Snapshot :: Apply(t, x).calls == t.calls && Apply(t, x).view.acting == t.view.acting
  {
  }

  lemma EndQueryKeepsOne(s: Session, id: CallId, reply: Reply)
    requires OneAction(s) && CallsOk(s)
    ensures OneAction(EndQueryStep(s, id, reply))
  {
    hide IsValid, Apply;
    assert forall t: Session, x: Snapshot :: Apply(t, x).calls == t.calls && Apply(t, x).view.acting == t.view.acting by { ApplyKeeps(); }
    var t := EndQueryStep(s, id, reply);
    if t != s {
      assert s.view.acting;
      assert TheAction(s, id);
    }
  }

  lemma StepKeepsOne(s: Session, e: Event)
    requires OneAction(s) && CallsOk(s) && !Disturbs(e)
    ensures OneAction(Step(s, e))
  {
    hide OneAction, CallsOk, Accepts, BeginReadStep, BeginPerformStep, EndReadStep, EndActionStep, EndQueryStep;
    match e
    case BeginRead(refresh, cancelled) => BeginReadKeepsOne(s, refresh, cancelled);
    case BeginPerform(request) => BeginPerformKeepsOne(s, request);
    case EndRead(id, reply, cancelled) => EndReadKeepsOne(s, id, reply, cancelled);
    case EndAction(id, reply) => EndActionKeepsOne(s, id, reply);
    case EndQuery(id, reply) => EndQueryKeepsOne(s, id, reply);
    case StopPolling => StopKeepsOne(s);
  }

  lemma StopKeepsOne(s: Session)
    requires OneAction(s)
    ensures OneAction(StopPollingStep(s))
  {
  }

  /** Left undisturbed, the session never has two actions in flight. */
  lemma {:induction false} OneActionInFlight(events: seq<Event>)
    requires forall e | e in events :: !Disturbs(e)
    ensures OneAction(RunFrom(FRESH, events))
    ensures !TwoInFlight(RunFrom(FRESH, events))
  {
    if events != [] {
      var init, last := events[..|events| - 1], events[|events| - 1];
      assert last in events;
      OneActionInFlight(init);
      RunKeepsCalls(init);
      StepKeepsOne(RunFrom(FRESH, init), last);
      hide Step;
    }
  }

  predicate ActionWaits(s: Session) {
    exists c | c in s.calls :: IsAction(s.calls[c])
  }

  lemma ActionsOnlyBegin(s: Session, e: Event)
    requires !e.BeginPerform?
    ensures forall c | c in Step(s, e).calls && IsAction(Step(s, e).calls[c]) :: c in s.calls && IsAction(s.calls[c])
  {
    hide IsValid, Accepts;
    ApplyKeeps();
    hide Apply;
  }

  /** A second action is in flight from the step on in which an action is accepted while any action waits for its reply. */
  lemma SecondActionBegins(events: seq<Event>, e: Event)
    requires !TwoInFlight(RunFrom(FRESH, events))
    ensures var s := RunFrom(FRESH, events);
      TwoInFlight(Step(s, e)) <==> e.BeginPerform? && Accepts(s, e.request) && ActionWaits(s)
  {
    var s := RunFrom(FRESH, events);
    RunKeepsCalls(events);
    hide RunFrom, Accepts;
    if e.BeginPerform? {
      var t := BeginPerformStep(s, e.request);
      if Accepts(s, e.request) && ActionWaits(s) {
        var c :| c in s.calls && IsAction(s.calls[c]);
        assert c in t.calls && s.nextCall in t.calls && IsAction(t.calls[c]) && IsAction(t.calls[s.nextCall]) && c != s.nextCall;
      }
    } else {
      ActionsOnlyBegin(s, e);
      hide Step;
    }
  }

  // ----- What the unguarded failure breaks ----------------------------------------------------------------

  predicate IsCurrentAction(s: Session, c: CallId) {
    c in s.calls && IsAction(s.calls[c]) && s.calls[c].generation == s.generation
  }

  /** Of the actions begun since the last invalidation one is in flight while the session acts, and none otherwise. */
  predicate OneCurrent(s: Session) {
    && (!s.view.acting ==> forall c | c in s.calls :: !IsCurrentAction(s, c))
    && (s.view.acting ==> exists c | c in s.calls :: TheCurrent(s, c))
  }

  predicate TheCurrent(s: Session, c: CallId) {
    IsCurrentAction(s, c) && IsLatest(s, s.calls[c]) && forall d | d in s.calls && d != c :: !IsCurrentAction(s, d)
  }

  /** Two actions are in flight that both began since the last invalidation. */
  predicate TwoCurrent(s: Session) {
    exists c, d | c in s.calls && d in s.calls :: c != d && IsCurrentAction(s, c) && IsCurrentAction(s, d)
  }

  predicate GenerationsOk(s: Session) {
    forall c | c in s.calls :: s.calls[c].generation <= s.generation
  }

  /** A failed query of an outdated call, met while a newer action is in flight. */
  predicate Unguarded(s: Session, e: Event) {
    IsFailedQuery(s, e) && !IsLatest(s, s.calls[e.call]) && s.view.acting
  }

  lemma StepKeepsGenerations(s: Session, e: Event)
    requires GenerationsOk(s)
    ensures GenerationsOk(Step(s, e))
  {
    hide IsValid, Accepts;
  }

  lemma BeginKeepsCurrent(s: Session, e: Event)
    requires OneCurrent(s) && CallsOk(s) && (e.BeginRead? || e.BeginPerform?)
    ensures OneCurrent(Step(s, e))
  {
    var t := Step(s, e);
    if e.BeginPerform? && t != s {
      assert !s.view.acting;
      hide Accepts;
      assert TheCurrent(t, s.nextCall);
    }
    hide Accepts;
  }

  lemma EndReadKeepsCurrent(s: Session, id: CallId, reply: Reply, cancelled: bool)
    requires OneCurrent(s) && CallsOk(s) && GenerationsOk(s)
    ensures OneCurrent(EndReadStep(s, id, reply, cancelled))
  {
    hide IsValid;
    var t := EndReadStep(s, id, reply, cancelled);
    if t != s && s.view.acting {
      var c :| c in s.calls && TheCurrent(s, c);
      assert s.calls[c].revision != s.calls[id].revision;
      assert TheCurrent(t, c);
    }
  }

  lemma EndActionKeepsCurrent(s: Session, id: CallId, reply: Reply)
    requires OneCurrent(s) && CallsOk(s) && GenerationsOk(s)
    ensures OneCurrent(EndActionStep(s, id, reply))
  {
    hide IsValid;
    var t := EndActionStep(s, id, reply);
    if t != s {
      if IsLatest(s, s.calls[id]) {
        assert s.view.acting;
        assert TheCurrent(s, id);
        if t.view.acting { assert TheCurrent(t, id); }
      } else if s.view.acting {
        var c :| c in s.calls && TheCurrent(s, c);
        assert TheCurrent(t, c);
      }
    }
  }

  lemma EndQueryKeepsCurrent(s: Session, id: CallId, reply: Reply)
    requires OneCurrent(s) && CallsOk(s) && GenerationsOk(s)
    ensures OneCurrent(EndQueryStep(s, id, reply)) <==> !Unguarded(s, EndQuery(id, reply))
  {
    hide IsValid;
    var t := EndQueryStep(s, id, reply);
    if t != s {
      if IsLatest(s, s.calls[id]) {
        assert s.view.acting;
        assert TheCurrent(s, id);
      } else if s.view.acting {
        var c :| c in s.calls && TheCurrent(s, c);
        if reply.Success? { assert TheCurrent(t, c); } else { assert IsCurrentAction(t, c); }
      }
    }
  }

  lemma DisturbanceKeepsCurrent(s: Session, e: Event)
    requires GenerationsOk(s) && Disturbs(e)
    ensures (e.Restore? && !IsValid(s.view, e.snapshot)) || OneCurrent(Step(s, e))
  {
    hide IsValid;
  }

  lemma StopKeepsCurrent(s: Session)
    requires OneCurrent(s)
    ensures OneCurrent(StopPollingStep(s))
  {
  }

  /** The guard that is missing is the whole reason: every other step keeps the actions apart. */
  lemma OnlyUnguardedBreaks(events: seq<Event>, e: Event)
    requires OneCurrent(RunFrom(FRESH, events))
    ensures OneCurrent(Step(RunFrom(FRESH, events), e)) <==> !Unguarded(RunFrom(FRESH, events), e)
  {
    var s := RunFrom(FRESH, events);
    RunKeepsCalls(events);
    RunKeepsGenerations(events);
    hide RunFrom, OneCurrent, CallsOk, GenerationsOk, Accepts, IsValid, BeginReadStep, BeginPerformStep, EndReadStep, EndActionStep, EndQueryStep,
         InvalidateStep;
    match e
    case BeginRead(_, _) => BeginKeepsCurrent(s, e);
    case BeginPerform(_) => BeginKeepsCurrent(s, e);
    case EndRead(id, reply, cancelled) => EndReadKeepsCurrent(s, id, reply, cancelled);
    case EndAction(id, reply) => EndActionKeepsCurrent(s, id, reply);
    case EndQuery(id, reply) => EndQueryKeepsCurrent(s, id, reply);
    case StopPolling => StopKeepsCurrent(s);
    case _ => DisturbanceKeepsCurrent(s, e);
  }

  /** In any run without such a failure, disturbed or not, actions of one generation stay apart. */
  lemma {:induction false} GuardedRunsStayApart(events: seq<Event>)
    requires forall i | 0 <= i < |events| :: !Unguarded(RunFrom(FRESH, events[..i]), events[i])
    ensures OneCurrent(RunFrom(FRESH, events)) && !TwoCurrent(RunFrom(FRESH, events))
  {
    if events != [] {
      var n := |events| - 1;
      var init := events[..n];
      forall i | 0 <= i < n ensures !Unguarded(RunFrom(FRESH, init[..i]), init[i]) { assert init[..i] == events[..i]; }
      GuardedRunsStayApart(init);
      OnlyUnguardedBreaks(init, events[n]);
      hide Step, Unguarded;
    }
  }

  lemma {:induction false} RunKeepsGenerations(events: seq<Event>)
    ensures GenerationsOk(RunFrom(FRESH, events))
  {
    if events != [] {
      RunKeepsGenerations(events[..|events| - 1]);
      StepKeepsGenerations(RunFrom(FRESH, events[..|events| - 1]), events[|events| - 1]);
    }
  }

  // ----- One mutation, and one query at most ----------------------------------------------------------------

  function Count(sent: seq<Message>, m: Message): nat {
    if sent == [] then 0 else Count(sent[..|sent| - 1], m) + if sent[|sent| - 1] == m then 1 else 0
  }

  /** Each request was sent once; a query for it goes out only while its call has not sent one. */
  ghost predicate MessagesOk(s: Session) {
    && (forall request: RequestId :: Count(s.sent, Mutation(request)) == if request < s.nextRequest then 1 else 0)
    && (forall request: RequestId :: Count(s.sent, Query(request)) <= 1)
    && (forall request: RequestId | s.nextRequest <= request :: Count(s.sent, Query(request)) == 0)
    && (forall c | c in s.calls && IsAction(s.calls[c]) :: s.calls[c].request < s.nextRequest)
    && (forall c | c in s.calls && s.calls[c].Acting? :: Count(s.sent, Query(s.calls[c].request)) == 0)
    && (forall c, d | c in s.calls && d in s.calls && c != d && IsAction(s.calls[c]) && IsAction(s.calls[d]) ::
          s.calls[c].request != s.calls[d].request)
  }

  lemma CountSnoc(sent: seq<Message>, last: Message, m: Message)
    ensures Count(sent + [last], m) == Count(sent, m) + if last == m then 1 else 0
  {
    assert (sent + [last])[..|sent|] == sent;
  }

  /** Calls may only disappear, and nothing is sent. */
  predicate Quiet(s: Session, t: Session) {
    t.sent == s.sent && t.nextRequest == s.nextRequest && forall c | c in t.calls :: c in s.calls && t.calls[c] == s.calls[c]
  }

  lemma QuietKeepsMessages(s: Session, t: Session)
    requires MessagesOk(s) && Quiet(s, t)
    ensures MessagesOk(t)
  {
    hide Count;
  }

  lemma ReadKeepsMessages(s: Session, refresh: bool, cancelled: bool)
    requires MessagesOk(s) && CallsOk(s)
    ensures MessagesOk(BeginReadStep(s, refresh, cancelled))
  {
    hide Count;
  }

  lemma PerformKeepsMessages(s: Session, request: Request)
    requires MessagesOk(s) && CallsOk(s)
    ensures MessagesOk(BeginPerformStep(s, request))
  {
    forall m { CountSnoc(s.sent, Mutation(s.nextRequest), m); }
    hide Count, Accepts;
  }

  lemma QueryKeepsMessages(s: Session, id: CallId)
    requires MessagesOk(s) && id in s.calls && s.calls[id].Acting?
    ensures var call := s.calls[id];
      MessagesOk(s.(calls := s.calls[id := Querying(call.revision, call.generation, call.request)], sent := s.sent + [Query(call.request)]))
  {
    forall m { CountSnoc(s.sent, Query(s.calls[id].request), m); }
    hide Count;
  }

  lemma ActionKeepsMessages(s: Session, id: CallId, reply: Reply)
    requires MessagesOk(s)
    ensures MessagesOk(EndActionStep(s, id, reply))
  {
    if id in s.calls && s.calls[id].Acting? { QueryKeepsMessages(s, id); }
    hide IsValid, MessagesOk;
    var t := EndActionStep(s, id, reply);
    if t.sent == s.sent { QuietKeepsMessages(s, t); }
  }

  lemma OthersAreQuiet(s: Session, e: Event)
    requires e.EndQuery? || e.StopPolling? || e.Invalidate? || e.Shutdown? || e.Restore?
    ensures Quiet(s, Step(s, e))
  {
    hide IsValid;
  }

  lemma EndReadIsQuiet(s: Session, id: CallId, reply: Reply, cancelled: bool)
    ensures Quiet(s, EndReadStep(s, id, reply, cancelled))
  {
    hide IsValid;
  }

  lemma StepKeepsMessages(s: Session, e: Event)
    requires MessagesOk(s) && CallsOk(s)
    ensures MessagesOk(Step(s, e))
  {
    hide MessagesOk, CallsOk, Quiet, BeginReadStep, BeginPerformStep, EndReadStep, EndActionStep, EndQueryStep, InvalidateStep, RestoreStep;
    match e
    case BeginRead(refresh, cancelled) => ReadKeepsMessages(s, refresh, cancelled);
    case BeginPerform(request) => PerformKeepsMessages(s, request);
    case EndRead(id, reply, cancelled) => EndReadIsQuiet(s, id, reply, cancelled); QuietKeepsMessages(s, Step(s, e));
    case EndAction(id, reply) => ActionKeepsMessages(s, id, reply);
    case _ => OthersAreQuiet(s, e); QuietKeepsMessages(s, Step(s, e));
  }

  /** In every run, disturbed or not, a request is sent once and its result is queried once at most. */
  lemma {:induction false} RunKeepsMessages(events: seq<Event>)
    ensures MessagesOk(RunFrom(FRESH, events))
  {
    if events != [] {
      var init := events[..|events| - 1];
      RunKeepsMessages(init);
      RunKeepsCalls(init);
      StepKeepsMessages(RunFrom(FRESH, init), events[|events| - 1]);
      hide Step, MessagesOk;
    }
  }

  lemma EachRequestIsSentOnce(events: seq<Event>, request: RequestId)
    requires request < RunFrom(FRESH, events).nextRequest
    ensures Count(RunFrom(FRESH, events).sent, Mutation(request)) == 1
    ensures Count(RunFrom(FRESH, events).sent, Query(request)) <= 1
  {
    RunKeepsMessages(events);
  }

  /** Left undisturbed, an action ends with its query's reply, whatever that is. */
  lemma ActionEnds(events: seq<Event>, c: CallId, reply: Reply)
    requires forall e | e in events :: !Disturbs(e)
    requires c in RunFrom(FRESH, events).calls && RunFrom(FRESH, events).calls[c].Querying?
    ensures var t := Step(RunFrom(FRESH, events), EndQuery(c, reply));
      !t.view.acting && t.view.outcome.Some? && forall d | d in t.calls :: !IsAction(t.calls[d])
  {
    var s := RunFrom(FRESH, events);
    OneActionInFlight(events);
    assert s.view.acting;
    assert TheAction(s, c);
    hide IsValid, Apply;
    assert forall t: Session, x: Snapshot :: Apply(t, x).calls == t.calls && Apply(t, x).view.acting == t.view.acting by { ApplyKeeps(); }
  }

  // ----- A late query after an invalidation ------------------------------------------------------------

  const SHOWN := Snapshot(2, "epoch", 0, "context", "title", map["go" := Action(true, "go on")], None, [], false, false)
  const GO := Request("go", true, "", "", None, true, 0)

  lemma RunSnoc(events: seq<Event>, e: Event)
    ensures RunFrom(FRESH, events + [e]) == Step(RunFrom(FRESH, events), e)
  {
    assert (events + [e])[..|events|] == events;
  }

  predicate Ready(s: Session) {
    !s.closed && !s.view.acting && (s.view.snapshot.None? || s.view.snapshot == Some(SHOWN))
  }

  /** A read that is answered at once shows the snapshot. */
  lemma ReadShows(events: seq<Event>)
    requires Ready(RunFrom(FRESH, events))
    ensures var s := RunFrom(FRESH, events);
      var t := RunFrom(FRESH, events + [BeginRead(false, false)] + [EndRead(s.nextCall, Success("", SHOWN), false)]);
      && Ready(t) && t.view.phase == Current && t.view.snapshot == Some(SHOWN)
      && t.calls == s.calls && t.nextCall == s.nextCall + 1 && t.generation == s.generation
  {
    var s := RunFrom(FRESH, events);
    RunKeepsCalls(events);
    RunSnoc(events, BeginRead(false, false));
    RunSnoc(events + [BeginRead(false, false)], EndRead(s.nextCall, Success("", SHOWN), false));
    var a := BeginReadStep(s, false, false);
    assert IsLatest(a, a.calls[s.nextCall]) && IsValid(a.view, SHOWN);
    assert Done(a, s.nextCall).calls == s.calls;
    hide RunFrom, CallsOk;
  }

  lemma PerformStarts(events: seq<Event>)
    requires Ready(RunFrom(FRESH, events)) && RunFrom(FRESH, events).view.phase == Current
    requires RunFrom(FRESH, events).view.snapshot == Some(SHOWN)
    ensures var s := RunFrom(FRESH, events);
      var t := RunFrom(FRESH, events + [BeginPerform(GO)]);
      && t.view.acting && !t.closed && t.nextCall == s.nextCall + 1 && t.view.snapshot == Some(SHOWN) && t.generation == s.generation
      && t.calls == s.calls[s.nextCall := Acting(s.localRevision + 1, s.generation, s.nextRequest)]
  {
    RunSnoc(events, BeginPerform(GO));
    assert Accepts(RunFrom(FRESH, events), GO);
    hide RunFrom, Accepts;
  }

  /** A first action whose query is still out when the session is invalidated. */
  lemma QueryOutlivesInvalidation() returns (events: seq<Event>, first: CallId)
    ensures var s := RunFrom(FRESH, events);
      && Ready(s) && s.view.snapshot.None? && first in s.calls && s.calls[first].Querying? && first < s.nextCall
      && OneCurrent(s) && s.calls[first].generation < s.generation
  {
    ReadShows([]);
    var a := [BeginRead(false, false), EndRead(0, Success("", SHOWN), false)];
    assert [] + [BeginRead(false, false)] + [EndRead(0, Success("", SHOWN), false)] == a;
    PerformStarts(a);
    var b := a + [BeginPerform(GO)];
    first := RunFrom(FRESH, a).nextCall;
    RunSnoc(b, EndAction(first, Failure));
    var c := b + [EndAction(first, Failure)];
    var before, after := RunFrom(FRESH, b), RunFrom(FRESH, c);
    assert first in before.calls && before.calls[first].Acting?;
    RunKeepsGenerations(c);
    hide RunFrom;
    assert IsLatest(before, before.calls[first]) by { RunKeepsOneHere(b); }
    RunSnoc(c, Invalidate);
    events := c + [Invalidate];
    DisturbanceKeepsCurrent(after, Invalidate);
  }

  lemma RunKeepsOneHere(events: seq<Event>)
    requires forall e | e in events :: !Disturbs(e)
    ensures forall c | c in RunFrom(FRESH, events).calls && IsAction(RunFrom(FRESH, events).calls[c]) ::
      IsLatest(RunFrom(FRESH, events), RunFrom(FRESH, events).calls[c])
  {
    OneActionInFlight(events);
  }

  lemma SecondActionStarts() returns (events: seq<Event>, first: CallId, second: CallId)
    ensures var s := RunFrom(FRESH, events);
      && s.view.acting && !s.closed && s.view.snapshot == Some(SHOWN) && first < second < s.nextCall
      && first in s.calls && s.calls[first].Querying? && second in s.calls && s.calls[second].Acting?
      && s.calls[first].generation < s.generation == s.calls[second].generation
  {
    var invalidated;
    invalidated, first := QueryOutlivesInvalidation();
    ReadShows(invalidated);
    var shown := invalidated + [BeginRead(false, false)] + [EndRead(RunFrom(FRESH, invalidated).nextCall, Success("", SHOWN), false)];
    PerformStarts(shown);
    second := RunFrom(FRESH, shown).nextCall;
    events := shown + [BeginPerform(GO)];
    hide RunFrom;
  }

  /** The late failure of the first action's query ends the second action for the session. */
  lemma LateFailureEndsSecond() returns (before: seq<Event>, failure: Event, second: CallId)
    ensures Unguarded(RunFrom(FRESH, before), failure)
    ensures var s := RunFrom(FRESH, before + [failure]);
      Ready(s) && second < s.nextCall && second in s.calls && s.calls[second].Acting? && s.calls[second].generation == s.generation
  {
    var first;
    before, first, second := SecondActionStarts();
    failure := EndQuery(first, Failure);
    RunSnoc(before, failure);
    hide RunFrom;
  }

  /**
   A late failed query of an outdated call, met while an action is in flight, lets
   another action of the same generation start beside it, with no disturbance between.
   */
  lemma TwoActionsWitness()
    ensures exists before, failure, after ::
      && Unguarded(RunFrom(FRESH, before), failure) && (forall e | e in after :: !Disturbs(e))
      && TwoCurrent(RunFrom(FRESH, before + [failure] + after))
  {
    var before, failure, second := LateFailureEndsSecond();
    var late := before + [failure];
    ReadShows(late);
    var read, shown := BeginRead(false, false), EndRead(RunFrom(FRESH, late).nextCall, Success("", SHOWN), false);
    PerformStarts(late + [read] + [shown]);
    var third := RunFrom(FRESH, late + [read] + [shown]).nextCall;
    var after := [read, shown, BeginPerform(GO)];
    assert late + [read] + [shown] + [BeginPerform(GO)] == late + after;
    hide RunFrom;
    var s := RunFrom(FRESH, late + after);
    assert IsCurrentAction(s, second) && IsCurrentAction(s, third) && second != third;
    assert TwoCurrent(s);
  }
}

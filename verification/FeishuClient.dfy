/**
 The session as the object that it is: each method is the code between two awaits,
 and leaves the state that the step of the same name describes.
 */
module FeishuClient {
  import opened Prelude
  import opened FeishuSession

  class ConfigurationSession {
    var view: View
    var generation: nat
    var localRequestRevision: nat
    var closed: bool
    var calls: map<CallId, Call>
    var nextCall: CallId
    var nextRequest: RequestId
    var sent: seq<Message>

    ghost function Abs(): Session
      reads this
    {
      Session(view, generation, localRequestRevision, closed, calls, nextCall, nextRequest, sent)
    }

    constructor ()
      ensures Abs() == FRESH
    {
      view, generation, localRequestRevision, closed := BLANK, 0, 0, false;
      calls, nextCall, nextRequest, sent := map[], 0, 0, [];
    }

    method ApplySnapshot(snapshot: Snapshot)
      modifies this`view, this`generation
      ensures Abs() == Apply(old(Abs()), snapshot)
    {
      if view.snapshot.Some? && view.snapshot.value.epoch != snapshot.epoch { generation := generation + 1; }
      if view.outcome == Some("pending") && view.snapshot.Some? && view.snapshot.value.flow.Some?
         && view.snapshot.value.flow.value.kind == "user" && snapshot.flow.None? && snapshot.identityValid {
        view := view.(outcome := Some("completed"));
      }
      view := view.(snapshot := Some(snapshot), phase := Current, refreshError := false);
    }

    method Wait(call: Call) returns (id: CallId)
      modifies this`calls, this`nextCall
      ensures id == old(nextCall) && Abs() == old(Abs()).(calls := old(calls)[id := call], nextCall := id + 1)
    {
      id := nextCall;
      calls, nextCall := calls[id := call], id + 1;
    }

    method Resume(id: CallId) returns (call: Call)
      requires id in calls
      modifies this`calls
      ensures call == old(calls[id]) && Abs() == Done(old(Abs()), id)
    {
      call := calls[id];
      calls := map c: CallId | c in calls && c != id :: calls[c];
    }

    method BeginRead(refresh: bool, cancelled: bool)
      modifies this
      ensures Abs() == Step(old(Abs()), Event.BeginRead(refresh, cancelled))
    {
      if closed || view.acting || cancelled { return; }
      localRequestRevision := localRequestRevision + 1;
      if refresh || view.snapshot.None? { view := view.(reading := true); }
      var id := Wait(Reading(localRequestRevision, generation));
    }

    method EndRead(id: CallId, reply: Reply, cancelled: bool)
      requires id in calls && calls[id].Reading?
      modifies this
      ensures Abs() == Step(old(Abs()), Event.EndRead(id, reply, cancelled))
    {
      var call := Resume(id);
      if cancelled || call.revision != localRequestRevision || call.generation != generation { return; }
      if reply.Success? && IsValid(view, reply.snapshot) {
        ApplySnapshot(reply.snapshot);
      } else {
        if view.snapshot.None? { view := view.(phase := Unknown); }
        view := view.(refreshError := true);
      }
      view := view.(reading := view.reading && !view.refreshError && view.snapshot.Some? && view.snapshot.value.refreshing);
    }

    method BeginPerform(request: Request)
      modifies this
      ensures Abs() == Step(old(Abs()), Event.BeginPerform(request))
    {
      if closed || view.phase != Current || view.acting || view.snapshot.None? { return; }
      var snapshot := view.snapshot.value;
      if request.action !in snapshot.actions || !snapshot.actions[request.action].enabled { return; }
      if !request.canSubmit { return; }
      if request.expected.Some? && (snapshot.epoch != request.expected.value.0 || snapshot.context != request.expected.value.1) { return; }
      var confirmation := snapshot.actions[request.action].confirmation;
      if request.action !in {"finish_app", "finish_auth"} || confirmation != "" {
        if confirmation == "" || (request.action == "test_message" && request.target == "") { return; }
        if !request.confirm { return; }
      }
      if request.action == "test_message" {
        if request.target == "" || request.target !in snapshot.targets { return; }
      }
      if request.action in {"finish_app", "finish_auth", "cancel_flow"} {
        var flow := ActionFlow(view, request.now);
        if request.flowId == "" || flow.None? || flow.value.id != request.flowId { return; }
        if request.action == "cancel_flow" && flow.value.state != "pending" { return; }
      }
      localRequestRevision := localRequestRevision + 1;
      view := view.(lastAction := Some(request.action), acting := true, reading := false, outcome := None);
      sent := sent + [Mutation(nextRequest)];
      var id := Wait(Acting(localRequestRevision, generation, nextRequest));
      nextRequest := nextRequest + 1;
    }

    method EndAction(id: CallId, reply: Reply)
      requires id in calls && calls[id].Acting?
      modifies this
      ensures Abs() == Step(old(Abs()), Event.EndAction(id, reply))
    {
      var call := calls[id];
      if call.revision != localRequestRevision || call.generation != generation {
        var outdated := Resume(id);
        return;
      }
      if reply.Success? && IsValid(view, reply.snapshot) && reply.outcome in OUTCOMES {
        var ended := Resume(id);
        ApplySnapshot(reply.snapshot);
        view := view.(outcome := Some(reply.outcome));
        view := view.(acting := false);
      } else {
        sent := sent + [Query(call.request)];
        calls := calls[id := Querying(call.revision, call.generation, call.request)];
      }
    }

    method EndQuery(id: CallId, reply: Reply)
      requires id in calls && calls[id].Querying?
      modifies this
      ensures Abs() == Step(old(Abs()), Event.EndQuery(id, reply))
    {
      var call := Resume(id);
      if reply.Success? {
        if call.revision != localRequestRevision || call.generation != generation { return; }
        if IsValid(view, reply.snapshot) {
          ApplySnapshot(reply.snapshot);
          view := view.(outcome := Some(reply.outcome), acting := false);
          return;
        }
      }
      view := view.(phase := Unknown, outcome := Some("unknown"));
      view := view.(acting := false);
    }

    method StopPolling()
      modifies this`view, this`localRequestRevision
      ensures Abs() == Step(old(Abs()), Event.StopPolling)
    {
      if !view.acting {
        localRequestRevision := localRequestRevision + 1;
        view := view.(reading := false);
      }
    }

    method Invalidate()
      modifies this`view, this`generation, this`localRequestRevision
      ensures Abs() == Step(old(Abs()), Event.Invalidate)
    {
      StopPolling();
      generation, localRequestRevision := generation + 1, localRequestRevision + 1;
      view := BLANK;
    }

    method Shutdown()
      modifies this
      ensures Abs() == Step(old(Abs()), Event.Shutdown)
    {
      closed := true;
      Invalidate();
      view := view.(phase := Unknown);
    }

    method Restore(snapshot: Snapshot) returns (ok: bool)
      modifies this
      ensures ok == IsValid(old(view), snapshot) && Abs() == Step(old(Abs()), Event.Restore(snapshot))
    {
      ok := IsValid(view, snapshot);
      if !ok { return; }
      generation, localRequestRevision := generation + 1, localRequestRevision + 1;
      view := BLANK;
      ApplySnapshot(snapshot);
    }
  }
}

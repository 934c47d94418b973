/**
 The Codex client as the object that it is. Each method is one critical section, or
 one channel send, and leaves the state that the step of the same name describes.
 A channel may only be sent to when it is empty, so the loop that tells every
 caller of a stop carries the proof that it does not block.
 */
module CodexClientModel {
  import opened Prelude
  import opened CodexSession
  import P = CodexSessionProofs

  class CodexClient {
    var process: Option<nat>
    var started: nat
    var closed: bool
    var starting: set<nat>
    var reading: set<nat>
    var nextID: nat
    var pending: set<nat>
    var slots: map<nat, seq<Message>>
    var sends: seq<Message>
    ghost var place: map<nat, Place>
    var desk: Desk

    ghost function AbsCalls(): Calls
      reads this
    {
      Calls(nextID, pending, slots, sends, false, place)
    }

    ghost function Abs(): Client
      reads this
    {
      Client(process, started, closed, starting, reading, AbsCalls(), desk)
    }

    /** Holds in every run. */
    ghost predicate Ok()
      reads this
    {
      P.CallsOk(AbsCalls())
    }

    constructor ()
      ensures Ok() && Abs() == NEW
    {
      process, started, closed, starting, reading := None, 0, false, {}, {};
      nextID, pending, slots, sends, place := 0, {}, map[], [], map[];
      desk := Desk(map[], 0, map[], 0, []);
    }

    // ----- Calls ---------------------------------------------------------------------

    method SendTo(m: Message)
      requires m.id in slots && slots[m.id] == []
      modifies this`slots, this`place
      ensures slots == old(slots)[m.id := [m]] && place == old(place)[m.id := Buffered(m)]
    {
      slots, place := slots[m.id := [m]], place[m.id := Buffered(m)];
    }

    /** There is no table before the first start. */
    method Register() returns (id: nat)
      requires Ok() && started > 0
      modifies this`nextID, this`pending, this`slots, this`place
      ensures Ok() && Abs() == Step(old(Abs()), Event.Register)
      ensures id !in old(pending) && id in pending && slots[id] == []
    {
      P.RegisterKeepsCalls(AbsCalls());
      ghost var before := AbsCalls();
      P.NextIsFresh(before);
      nextID := nextID + 1;
      id := nextID;
      pending, slots, place := pending + {id}, slots[id := []], place[id := Waiting];
      assert AbsCalls() == RegisterCall(before);
    }

    method RemovePending(id: nat)
      requires Ok()
      modifies this`pending, this`place
      ensures Ok() && Abs() == Step(old(Abs()), Remove(id))
    {
      P.RemoveKeepsCalls(AbsCalls(), id);
      ghost var t := CodexSession.RemovePending(AbsCalls(), id);
      pending := pending - {id};
      place := t.place;
      assert AbsCalls() == t;
    }

    /** The read loop hands a response to its caller: off the table first, the send later. */
    method HandleResponse(from: nat, id: nat, payload: string)
      requires Ok() && from in reading
      modifies this`pending, this`sends, this`place
      ensures Ok() && Abs() == Step(old(Abs()), Respond(from, id, payload))
    {
      P.TakeKeepsCalls(AbsCalls(), id, payload);
      ghost var t := TakeResponse(AbsCalls(), id, payload);
      if id in pending {
        var m := Response(id, payload);
        pending, sends, place := pending - {id}, sends + [m], place[id := Sending(m)];
      }
      assert AbsCalls() == t;
    }

    method EmitNext(index: nat)
      requires Ok() && index < |sends|
      modifies this`sends, this`slots, this`place
      ensures Ok() && Abs() == Step(old(Abs()), Emit(index))
    {
      P.EmitKeepsCalls(AbsCalls(), index);
      ghost var t := EmitResponse(AbsCalls(), index);
      var m := sends[index];
      assert P.CallerOk(AbsCalls(), m.id);
      sends := sends[..index] + sends[index + 1..];
      SendTo(m);
      assert AbsCalls() == t;
    }

    /** Tells every pending caller, each through a channel that must be empty. */
    method TellPending()
      requires CanTell(AbsCalls())
      modifies this`pending, this`slots, this`place
      ensures AbsCalls() == TellAll(old(AbsCalls()))
    {
      ghost var before := AbsCalls();
      while pending != {}
        invariant pending <= before.pending && CanTell(AbsCalls())
        invariant slots.Keys == before.slots.Keys && place.Keys == before.place.Keys
        invariant forall id | id in slots :: slots[id] == if id in before.pending - pending then [Stopped(id)] else before.slots[id]
        invariant forall id | id in place :: place[id] == if id in before.pending - pending then Buffered(Stopped(id)) else before.place[id]
        decreases pending
      {
        var id :| id in pending;
        pending := pending - {id};
        SendTo(Stopped(id));
      }
    }

    method StopLocked()
      requires Ok()
      modifies this`process, this`pending, this`slots, this`place, this`desk
      ensures Ok() && Abs() == CodexSession.StopLocked(old(Abs()))
    {
      P.TellKeepsCalls(AbsCalls());
      assert CanTell(AbsCalls()) by {
        forall id | id in pending ensures id in slots && slots[id] == [] && id in place { assert P.CallerOk(AbsCalls(), id); }
      }
      TellPending();
      process := None;
      desk := desk.(requests := map[]);
    }

    // ----- Processes --------------------------------------------------------------------

    /** `ok` says whether the executable could be started. */
    method Start(ok: bool)
      requires Ok()
      modifies this
      ensures Ok() && Abs() == Step(old(Abs()), Event.Start(ok))
    {
      P.DropKeepsCalls(AbsCalls());
      if process.Some? || closed || !ok { return; }
      ghost var t := DropAll(AbsCalls());
      process := Some(started);
      starting, reading, started := starting + {started}, reading + {started}, started + 1;
      pending := {};
      desk := desk.(requests := map[]);
      place := t.place;
      assert AbsCalls() == t;
    }

    method InitDone(own: nat, ok: bool)
      requires Ok() && own in starting
      modifies this
      ensures Ok() && Abs() == Step(old(Abs()), Event.InitDone(own, ok))
    {
      starting := starting - {own};
      if !ok { StopLocked(); }
    }

    method ReadLoopEnded(own: nat)
      requires Ok() && own in reading
      modifies this
      ensures Ok() && Abs() == Step(old(Abs()), Event.ReadLoopEnded(own))
    {
      reading := reading - {own};
      if process == Some(own) { StopLocked(); }
    }

    method Close()
      requires Ok()
      modifies this
      ensures Ok() && Abs() == Step(old(Abs()), Event.Close)
    {
      closed := true;
      StopLocked();
    }

    // ----- Requests of the server ---------------------------------------------------------

    method HandleRequest(from: nat, thread: ThreadId, id: string, kind: string, turn: string)
      requires from in reading
      modifies this`desk
      ensures Abs() == Step(old(Abs()), RequestArrived(from, thread, id, kind, turn))
    {
      if thread != "" {
        desk := desk.(requests := desk.requests[thread := Request(id, kind, turn, desk.arrivals)], arrivals := desk.arrivals + 1);
      }
    }

    /** The server withdraws a request; without a thread every request of this id goes. */
    method HandleResolved(from: nat, thread: ThreadId, id: Option<string>)
      requires from in reading
      modifies this`desk
      ensures Abs() == Step(old(Abs()), RequestResolved(from, thread, id))
    {
      if thread != "" {
        if thread in desk.requests && (id.None? || desk.requests[thread].id == id.value) {
          desk := desk.(requests := desk.requests - {thread});
        }
      } else if id.Some? {
        ghost var before := desk;
        var left := desk.requests.Keys;
        while left != {}
          invariant left <= before.requests.Keys && left <= desk.requests.Keys <= before.requests.Keys
          invariant desk == before.(requests := desk.requests)
          invariant forall t | t in desk.requests :: desk.requests[t] == before.requests[t]
          invariant forall t | t in before.requests && t !in left :: t in desk.requests <==> before.requests[t].id != id.value
          decreases left
        {
          var key :| key in left;
          left := left - {key};
          if desk.requests[key].id == id.value { desk := desk.(requests := desk.requests - {key}); }
        }
      }
    }

    /** `answerable` is false when there is no request, or one that is not for user input. */
    method BeginAnswer(thread: ThreadId) returns (answerable: bool)
      modifies this`desk
      ensures Abs() == Step(old(Abs()), Answer(thread))
      ensures answerable <==> thread in old(desk).requests && old(desk).requests[thread].kind == USER_INPUT
      ensures answerable ==> thread !in desk.requests
    {
      answerable := thread in desk.requests && desk.requests[thread].kind == USER_INPUT;
      if answerable {
        var request := desk.requests[thread];
        desk := desk.(requests := desk.requests - {thread}, nextReply := desk.nextReply + 1,
                      replies := desk.replies[desk.nextReply := Answering(thread, request)]);
      }
    }

    method BeginCancel(thread: ThreadId, turn: string, expected: string, kind: string) returns (pendingStill: bool)
      modifies this`desk
      ensures Abs() == Step(old(Abs()), Cancel(thread, turn, expected, kind))
      ensures pendingStill <==>
        && IsApproval(kind) && thread in old(desk).requests
        && var request := old(desk).requests[thread];
          request.kind == kind && request.id == expected && request.turn in {"", turn}
      ensures desk.requests == old(desk).requests
    {
      pendingStill := false;
      if !IsApproval(kind) || thread !in desk.requests { return; }
      var request := desk.requests[thread];
      if request.kind != kind || (request.turn != "" && request.turn != turn) || request.id != expected { return; }
      desk := desk.(nextReply := desk.nextReply + 1, replies := desk.replies[desk.nextReply := Cancelling(thread, request)]);
      pendingStill := true;
    }

    /** After the cancellation was written, the request goes, unless another id has taken its place. */
    method EndCancel(c: nat)
      requires c in desk.replies && desk.replies[c].Cleaning?
      modifies this`desk
      ensures Abs() == Step(old(Abs()), Clean(c))
      ensures var reply := old(desk).replies[c];
        reply.thread in desk.requests ==> desk.requests[reply.thread].id != reply.request.id
    {
      var thread, id := desk.replies[c].thread, desk.replies[c].request.id;
      var found := thread in desk.requests && desk.requests[thread].id == id;
      desk := desk.(replies := desk.replies - {c});
      if found { desk := desk.(requests := desk.requests - {thread}); }
    }
  }
}

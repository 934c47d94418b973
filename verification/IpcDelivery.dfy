/** Who gets what, in every run: the effect of each message on the registered callers. */
module IpcDelivery {
  import opened Prelude
  import opened Tasks
  import opened IpcWaiters
  import P = IpcWaitersProofs

  lemma RunOneMore(acts: seq<Act>, a: Act)
    ensures Run(acts + [a]) == Step(Run(acts), a)
  {
    assert (acts + [a])[..|acts|] == acts;
  }

  // ----- Replies ----------------------------------------------------------------------

  /** The call leaves its table, and nothing else that is registered changes. */
  ghost predicate CallLeaves(s: Net, t: Net, call: Call) {
    && t.tables.Keys == s.tables.Keys - {call} && (forall other | other in t.tables :: t.tables[other] == s.tables[other])
    && t.lists == s.lists && t.slots == s.slots && t.sequence == s.sequence && t.nextChannel == s.nextChannel
  }

  /**
   A reply to a registered call, in whichever table it is, takes that call off and is
   sent to its caller; a reply to any other id changes nothing.
   */
  lemma ReplyIsDelivered(acts: seq<Act>, id: nat, payload: string)
    ensures var s, t := Run(acts), Run(acts + [Respond(id, payload)]);
      && (forall call | call in s.tables && call.id == id ::
            CallLeaves(s, t, call) && t.sends == s.sends + [Send(s.tables[call], Reply(id, payload))])
      && ((forall call | call in s.tables :: call.id != id) ==> t == s)
  {
    var s := Run(acts);
    P.RunIsValid(acts);
    RunOneMore(acts, Respond(id, payload));
    hide Run, Valid, RespondStep, CallLeaves;
    forall call | call in s.tables && call.id == id
      ensures CallLeaves(s, RespondStep(s, id, payload), call)
      ensures RespondStep(s, id, payload).sends == s.sends + [Send(s.tables[call], Reply(id, payload))]
    {
      RespondsTo(s, call, payload);
    }
    if forall call | call in s.tables :: call.id != id { RespondsToNobody(s, id, payload); }
  }

  lemma RespondsTo(s: Net, call: Call, payload: string)
    requires Valid(s) && call in s.tables
    ensures var t := RespondStep(s, call.id, payload);
      CallLeaves(s, t, call) && t.sends == s.sends + [Send(s.tables[call], Reply(call.id, payload))]
  {
    assert forall a, b | a in s.tables && b in s.tables && a.id == b.id :: a == b;
    hide Valid;
    FindsTheCall(s, call);
    hide Find;
  }

  lemma RespondsToNobody(s: Net, id: nat, payload: string)
    requires forall call | call in s.tables :: call.id != id
    ensures RespondStep(s, id, payload) == s
  {
    assert Call(Response, id).id == Call(OwnerDiscovery, id).id == Call(Request, id).id == id;
  }

  lemma FindsTheCall(s: Net, call: Call)
    requires call in s.tables && forall a, b | a in s.tables && b in s.tables && a.id == b.id :: a == b
    ensures Find(s, call.id) == Some(call)
  {
    match call.kind
    case Response =>
    case OwnerDiscovery =>
    case Request =>
  }

  /** A send that is under way puts exactly its message into its channel, and leaves all other channels and sends. */
  lemma SendArrives(acts: seq<Act>, index: nat)
    requires index < |Run(acts).sends|
    ensures var s, t := Run(acts), Run(acts + [Emit(index)]);
      var send := s.sends[index];
      && t.slots.Keys == s.slots.Keys && send.channel in t.slots && t.slots[send.channel] == [send.message]
      && (forall c | c in s.slots && c != send.channel :: t.slots[c] == s.slots[c])
      && t.sends == s.sends[..index] + s.sends[index + 1..] && t.tables == s.tables && t.lists == s.lists
  {
    P.NoSendBlocks(acts);
    RunOneMore(acts, Emit(index));
    hide Run, AllFree;
  }

  /** A caller that takes its message empties its channel. */
  lemma MessageIsTaken(acts: seq<Act>, channel: nat)
    requires channel in Run(acts).slots && Run(acts).slots[channel] != []
    ensures var s, t := Run(acts), Run(acts + [Take(channel)]);
      && t.slots == s.slots[channel := []] && t.sends == s.sends && t.tables == s.tables && t.lists == s.lists
      && channel in t.place && t.place[channel] == Received(s.slots[channel][0])
  {
    P.RepliesReachTheirCaller(acts, channel);
    RunOneMore(acts, Take(channel));
    assert Run(acts).slots[channel][1..] == [];
    hide Run, Answers;
  }

  // ----- Registering and giving up ------------------------------------------------------

  lemma NextIsFree(s: Net)
    requires Valid(s)
    ensures s.nextChannel !in s.slots
  {
    assert s.nextChannel in s.place ==> ChannelOk(s, s.nextChannel);
  }

  /** A caller gets an id and a channel that nobody has. */
  lemma CallIsRegistered(acts: seq<Act>, kind: Kind)
    ensures var s, t := Run(acts), Run(acts + [Register(kind)]);
      && (forall call | call in s.tables :: call.id < t.sequence && s.tables[call] != s.nextChannel && call in t.tables && t.tables[call] == s.tables[call])
      && s.nextChannel !in s.slots && t.slots == s.slots[s.nextChannel := []]
      && t.tables.Keys == s.tables.Keys + {Call(kind, t.sequence)} && t.tables[Call(kind, t.sequence)] == s.nextChannel
      && t.lists == s.lists && t.sends == s.sends && t.nextChannel == s.nextChannel + 1
  {
    var s := Run(acts);
    P.RunIsValid(acts);
    RunOneMore(acts, Register(kind));
    forall call | call in s.tables ensures call.id <= s.sequence && s.tables[call] != s.nextChannel {
      assert TableOk(s, call) && ChannelOk(s, s.tables[call]);
    }
    NextIsFree(s);
    hide Run, Valid;
  }

  lemma WaiterIsRegistered(acts: seq<Act>, key: SnapshotKey, accept: (string, string) -> bool)
    ensures var s, t := Run(acts), Run(acts + [Await(key, accept)]);
      && s.nextChannel !in s.slots && t.slots == s.slots[s.nextChannel := []] && t.nextChannel == s.nextChannel + 1
      && WaitersAt(t, key) == WaitersAt(s, key) + [Waiter(s.nextChannel, accept)]
      && (forall k | k != key :: WaitersAt(t, k) == WaitersAt(s, k)) && t.tables == s.tables && t.sends == s.sends
  {
    var s := Run(acts);
    P.RunIsValid(acts);
    RunOneMore(acts, Await(key, accept));
    NextIsFree(s);
    hide Run, Valid;
  }

  /** Giving up takes back one's own registration, and nobody else's. */
  lemma CallIsWithdrawn(acts: seq<Act>, call: Call)
    ensures var s, t := Run(acts), Run(acts + [Withdraw(call)]);
      CallLeaves(s, t, call) && t.sends == s.sends
  {
    RunOneMore(acts, Withdraw(call));
    hide Run;
  }

  lemma WaiterIsWithdrawn(acts: seq<Act>, key: SnapshotKey, channel: nat)
    ensures var s, t := Run(acts), Run(acts + [WithdrawSnapshot(key, channel)]);
      && (forall k: SnapshotKey, w: Waiter :: w in WaitersAt(t, k) <==> w in WaitersAt(s, k) && !(k == key && w.channel == channel))
      && t.tables == s.tables && t.slots == s.slots && t.sends == s.sends
  {
    var s := Run(acts);
    P.RunIsValid(acts);
    if key in s.lists { assert ListOk(s, key); }
    RunOneMore(acts, WithdrawSnapshot(key, channel));
    hide Run, Valid;
    P.WithoutLemma(WaitersAt(s, key), channel);
    hide Without, Lists;
    forall k { WaitersAfter(s, WithdrawSnapshotStep(s, key, channel), key, Without(WaitersAt(s, key), channel), k); }
  }

  lemma WaitersAfter(s: Net, t: Net, key: SnapshotKey, ws: seq<Waiter>, k: SnapshotKey)
    requires t.lists == SetList(s.lists, key, ws)
    ensures WaitersAt(t, k) == if k == key then ws else WaitersAt(s, k)
  {
  }

  /** Between its registration and its reply a call stays where it is, if it is not withdrawn and the connection lasts. */
  ghost predicate Spares(a: Act, call: Call) {
    !a.Disconnect? && a != Withdraw(call) && !(a.Respond? && a.id == call.id)
  }

  ghost predicate SparesAll(more: seq<Act>, call: Call) {
    forall a | a in more :: Spares(a, call)
  }

  lemma CallStays(s: Net, a: Act, call: Call)
    requires Valid(s) && call in s.tables && Spares(a, call)
    ensures call in Step(s, a).tables && Step(s, a).tables[call] == s.tables[call]
  {
    assert TableOk(s, call);
    hide Valid, AllFree, SendsOk;
  }

  lemma {:induction false} CallWaits(acts: seq<Act>, kind: Kind, more: seq<Act>)
    requires SparesAll(more, Call(kind, Run(acts).sequence + 1))
    ensures var call, t := Call(kind, Run(acts).sequence + 1), Run(acts + [Register(kind)] + more);
      call in t.tables && t.tables[call] == Run(acts).nextChannel
  {
    var begun, call := acts + [Register(kind)], Call(kind, Run(acts).sequence + 1);
    if more == [] {
      assert begun + more == begun;
      RunOneMore(acts, Register(kind));
    } else {
      var init, last := more[..|more| - 1], more[|more| - 1];
      assert SparesAll(init, call) && Spares(last, call) by { assert last in more; }
      assert begun + more == begun + init + [last];
      hide Run, Valid, Step, Spares, SparesAll;
      CallWaits(acts, kind, init);
      RunOneMore(begun + init, last);
      P.RunIsValid(begun + init);
      CallStays(Run(begun + init), last, call);
    }
  }

  /** So whatever happens in between, the reply to a call is sent to the channel that its caller made. */
  lemma CallIsAnswered(acts: seq<Act>, kind: Kind, more: seq<Act>, payload: string)
    requires SparesAll(more, Call(kind, Run(acts).sequence + 1))
    ensures var id, before := Run(acts).sequence + 1, acts + [Register(kind)] + more;
      Run(before + [Respond(id, payload)]).sends == Run(before).sends + [Send(Run(acts).nextChannel, Reply(id, payload))]
  {
    hide Run, SparesAll, CallLeaves;
    var id := Run(acts).sequence + 1;
    CallWaits(acts, kind, more);
    ReplyIsDelivered(acts + [Register(kind)] + more, id, payload);
    assert Call(kind, id).id == id;
  }

  // ----- Snapshots ----------------------------------------------------------------------------

  /** The waiters under this key wait for snapshots like this one. */
  predicate Concerns(key: SnapshotKey, m: Message)
    requires m.Snapshot?
  {
    key.task == m.task && (key.owner == "" || key.owner == m.source)
  }

  /** The waiter's test takes this snapshot. */
  predicate Wants(w: Waiter, m: Message)
    requires m.Snapshot?
  {
    w.accept(m.state, m.revision)
  }

  ghost predicate IsSentTo(s: Net, key: SnapshotKey, m: Message, x: Send)
    requires m.Snapshot?
  {
    exists i | 0 <= i < |WaitersAt(s, key)| :: Wants(WaitersAt(s, key)[i], m) && x == Send(WaitersAt(s, key)[i].channel, m)
  }

  /** Under this key exactly the waiters that want the snapshot are gone, if it concerns them. */
  ghost predicate TakenFrom(s: Net, t: Net, key: SnapshotKey, concerned: bool, m: Message)
    requires m.Snapshot?
  {
    && (forall i | 0 <= i < |WaitersAt(s, key)| ::
          WaitersAt(s, key)[i] in WaitersAt(t, key) <==> !(concerned && Wants(WaitersAt(s, key)[i], m)))
    && forall i | 0 <= i < |WaitersAt(t, key)| :: WaitersAt(t, key)[i] in WaitersAt(s, key)
  }

  /** Under one key: the accepting waiters leave and are sent the snapshot. */
  ghost predicate ArrivedAt(s: Net, t: Net, key: SnapshotKey, m: Message)
    requires m.Snapshot?
  {
    && TakenFrom(s, t, key, true, m) && (forall k: SnapshotKey | k != key :: WaitersAt(t, k) == WaitersAt(s, k))
    && s.sends <= t.sends && (forall x: Send :: x in t.sends <==> x in s.sends || IsSentTo(s, key, m, x))
    && t.tables == s.tables && t.slots == s.slots
  }

  lemma SentTo(ws: seq<Waiter>, m: Message, x: Send)
    ensures x in Sends(ws, m) <==> exists i | 0 <= i < |ws| :: x == Send(ws[i].channel, m)
  {
    if x in Sends(ws, m) {
      var i :| 0 <= i < |ws| && Sends(ws, m)[i] == x;
      assert x == Send(ws[i].channel, m);
    }
    if i :| 0 <= i < |ws| && x == Send(ws[i].channel, m) { assert Sends(ws, m)[i] == x; }
  }

  lemma WaitersAreDistinct(s: Net, key: SnapshotKey)
    requires Valid(s)
    ensures Distinct(WaitersAt(s, key))
  {
    if key in s.lists { assert ListOk(s, key); }
  }

  lemma MatchedAreWanted(ws: seq<Waiter>, m: Message, x: Send)
    requires Distinct(ws) && m.Snapshot?
    ensures (exists i | 0 <= i < |Matching(ws, m.state, m.revision)| :: x == Send(Matching(ws, m.state, m.revision)[i].channel, m))
      <==> exists i | 0 <= i < |ws| :: Wants(ws[i], m) && x == Send(ws[i].channel, m)
  {
    var matched := Matching(ws, m.state, m.revision);
    P.SelectionLemma(ws, m.state, m.revision);
    hide Matching, Remaining, Distinct;
    if i :| 0 <= i < |matched| && x == Send(matched[i].channel, m) {
      assert matched[i] in matched;
      var j :| 0 <= j < |ws| && ws[j] == matched[i];
      assert Wants(ws[j], m) && x == Send(ws[j].channel, m);
    }
    if i :| 0 <= i < |ws| && Wants(ws[i], m) && x == Send(ws[i].channel, m) {
      assert ws[i] in matched;
      var j :| 0 <= j < |matched| && matched[j] == ws[i];
    }
  }

  lemma MatchedAreSent(s: Net, key: SnapshotKey, m: Message, x: Send)
    requires Valid(s) && m.Snapshot?
    ensures x in Sends(Matching(WaitersAt(s, key), m.state, m.revision), m) <==> IsSentTo(s, key, m, x)
  {
    WaitersAreDistinct(s, key);
    MatchedAreWanted(WaitersAt(s, key), m, x);
    SentTo(Matching(WaitersAt(s, key), m.state, m.revision), m, x);
    hide Valid, Matching, Sends, WaitersAt, Distinct, Wants;
  }

  lemma RemainingAreUnwanted(ws: seq<Waiter>, m: Message)
    requires Distinct(ws) && m.Snapshot?
    ensures var rest := Remaining(ws, m.state, m.revision);
      (forall i | 0 <= i < |ws| :: ws[i] in rest <==> !Wants(ws[i], m)) && forall i | 0 <= i < |rest| :: rest[i] in ws
  {
    P.SelectionLemma(ws, m.state, m.revision);
    hide Matching, Remaining, Distinct;
    var rest := Remaining(ws, m.state, m.revision);
    assert forall i | 0 <= i < |rest| :: rest[i] in rest;
  }

  lemma RemainingAreLeft(s: Net, key: SnapshotKey, m: Message)
    requires Valid(s) && m.Snapshot?
    ensures TakenFrom(s, ArriveAt(s, key, m), key, true, m)
  {
    WaitersAreDistinct(s, key);
    RemainingAreUnwanted(WaitersAt(s, key), m);
    WaitersAfter(s, ArriveAt(s, key, m), key, Remaining(WaitersAt(s, key), m.state, m.revision), key);
    hide Valid, Matching, Remaining, WaitersAt, Wants, Distinct;
  }

  lemma ArrivesAt(s: Net, key: SnapshotKey, m: Message)
    requires Valid(s) && m.Snapshot?
    ensures ArrivedAt(s, ArriveAt(s, key, m), key, m)
  {
    var ws, t := WaitersAt(s, key), ArriveAt(s, key, m);
    RemainingAreLeft(s, key, m);
    forall x: Send ensures x in Sends(Matching(ws, m.state, m.revision), m) <==> IsSentTo(s, key, m, x) { MatchedAreSent(s, key, m, x); }
    hide Valid, Matching, Remaining, Sends, TakenFrom, IsSentTo;
    forall k | k != key ensures WaitersAt(t, k) == WaitersAt(s, k) { WaitersAfter(s, t, key, Remaining(ws, m.state, m.revision), k); }
  }

  /**
   A snapshot goes to exactly the waiters whose test accepts it, among those for its
   task and any source and those for its task and source; each gets one send and
   leaves its list, and all others stay.
   */
  ghost predicate Arrived(s: Net, t: Net, m: Message)
    requires m.Snapshot?
  {
    && (forall key: SnapshotKey :: TakenFrom(s, t, key, Concerns(key, m), m))
    && s.sends <= t.sends
    && (forall x: Send :: x in t.sends <==> x in s.sends || exists key: SnapshotKey :: Concerns(key, m) && IsSentTo(s, key, m, x))
    && t.tables == s.tables && t.slots == s.slots
  }

  lemma SameWaiters(s: Net, u: Net, key: SnapshotKey, m: Message)
    requires m.Snapshot? && WaitersAt(u, key) == WaitersAt(s, key)
    ensures forall x: Send :: IsSentTo(u, key, m, x) <==> IsSentTo(s, key, m, x)
    ensures TakenFrom(s, u, key, false, m)
    ensures forall t: Net :: TakenFrom(u, t, key, true, m) <==> TakenFrom(s, t, key, true, m)
    ensures forall t: Net :: WaitersAt(t, key) == WaitersAt(u, key) ==> TakenFrom(s, t, key, false, m)
  {
    hide WaitersAt;
  }

  lemma TakenStays(s: Net, u: Net, t: Net, key: SnapshotKey, m: Message)
    requires m.Snapshot? && WaitersAt(t, key) == WaitersAt(u, key) && TakenFrom(s, u, key, true, m)
    ensures TakenFrom(s, t, key, true, m)
  {
    hide WaitersAt;
  }

  lemma BothTake(s: Net, u: Net, t: Net, m: Message, key: SnapshotKey)
    requires m.Snapshot? && ArrivedAt(s, u, SnapshotKey(m.task, ""), m)
    requires if m.source == "" then t == u else ArrivedAt(u, t, SnapshotKey(m.task, m.source), m)
    ensures TakenFrom(s, t, key, Concerns(key, m), m)
  {
    var any, one := SnapshotKey(m.task, ""), SnapshotKey(m.task, m.source);
    hide TakenFrom, WaitersAt, IsSentTo;
    assert Concerns(key, m) <==> key == any || key == one;
    if key == any {
      if m.source != "" { TakenStays(s, u, t, key, m); }
    } else {
      SameWaiters(s, u, key, m);
    }
  }

  lemma BothArrive(s: Net, u: Net, t: Net, m: Message)
    requires m.Snapshot? && ArrivedAt(s, u, SnapshotKey(m.task, ""), m)
    requires if m.source == "" then t == u else ArrivedAt(u, t, SnapshotKey(m.task, m.source), m)
    ensures Arrived(s, t, m)
  {
    var any, one := SnapshotKey(m.task, ""), SnapshotKey(m.task, m.source);
    hide TakenFrom, WaitersAt, IsSentTo;
    forall key ensures TakenFrom(s, t, key, Concerns(key, m), m) { BothTake(s, u, t, m, key); }
    if m.source != "" { SameWaiters(s, u, one, m); }
    assert forall key: SnapshotKey :: Concerns(key, m) <==> key == any || key == one;
    hide Concerns;
    forall x: Send ensures x in t.sends <==> x in s.sends || exists key: SnapshotKey :: Concerns(key, m) && IsSentTo(s, key, m, x) {
      assert x in t.sends <==> x in s.sends || IsSentTo(s, any, m, x) || (m.source != "" && IsSentTo(s, one, m, x));
      if m.source == "" { assert any == one; }
    }
  }

  lemma ArrivesAtBoth(s: Net, task: TaskKey, source: string, state: string, revision: string)
    requires Valid(s)
    ensures Arrived(s, ArriveStep(s, task, source, state, revision), Snapshot(task, source, state, revision))
  {
    hide Valid, ArriveAt, ArrivedAt, Arrived;
    var m := Snapshot(task, source, state, revision);
    var u := ArriveAt(s, SnapshotKey(task, ""), m);
    ArrivesAt(s, SnapshotKey(task, ""), m);
    P.ArriveAtKeepsValid(s, SnapshotKey(task, ""), m);
    ArrivesAt(u, SnapshotKey(task, source), m);
    BothArrive(s, u, ArriveStep(s, task, source, state, revision), m);
  }

  lemma SendsDiffer(acts: seq<Act>)
    ensures forall i, j | 0 <= i < j < |Run(acts).sends| :: Run(acts).sends[i].channel != Run(acts).sends[j].channel
  {
    P.RunIsValid(acts);
    assert SendsOk(Run(acts));
    hide Run;
  }

  lemma SnapshotIsDelivered(acts: seq<Act>, task: TaskKey, source: string, state: string, revision: string)
    ensures Arrived(Run(acts), Run(acts + [Arrive(task, source, state, revision)]), Snapshot(task, source, state, revision))
    ensures var t := Run(acts + [Arrive(task, source, state, revision)]);
      forall i, j | 0 <= i < j < |t.sends| :: t.sends[i].channel != t.sends[j].channel
  {
    var a := Arrive(task, source, state, revision);
    hide Run, Valid, Arrived, ArriveStep;
    P.RunIsValid(acts);
    SendsDiffer(acts + [a]);
    RunOneMore(acts, a);
    ArrivesAtBoth(Run(acts), task, source, state, revision);
  }

  /** Both halves of a list keep its order. */
  lemma {:induction false} HalvesInOrder(a: seq<Waiter>, b: seq<Waiter>, state: string, revision: string)
    ensures Matching(a + b, state, revision) == Matching(a, state, revision) + Matching(b, state, revision)
    ensures Remaining(a + b, state, revision) == Remaining(a, state, revision) + Remaining(b, state, revision)
  {
    if a == [] {
      assert a + b == b;
    } else {
      assert (a + b)[0] == a[0] && (a + b)[1..] == a[1..] + b;
      HalvesInOrder(a[1..], b, state, revision);
    }
  }

  // ----- The end of the connection -----------------------------------------------------------------

  /** Who is registered is told, everybody else keeps what he has, and no registration is left. */
  lemma EveryoneIsTold(acts: seq<Act>)
    ensures var s, t := Run(acts), Run(acts + [Disconnect]);
      && t.tables == map[] && t.lists == map[] && t.sends == s.sends && t.slots.Keys == s.slots.Keys
      && (forall call | call in s.tables :: s.tables[call] in t.slots && t.slots[s.tables[call]] == [Disconnected])
      && (forall key, i | key in s.lists && 0 <= i < |s.lists[key]| ::
            s.lists[key][i].channel in t.slots && t.slots[s.lists[key][i].channel] == [Disconnected])
      && (forall c | c in s.slots && !Registered(s, c) :: t.slots[c] == s.slots[c])
  {
    var s := Run(acts);
    P.NoSendBlocks(acts);
    RunOneMore(acts, Disconnect);
    hide Run;
    forall key, i | key in s.lists && 0 <= i < |s.lists[key]| ensures Lists(s.lists[key], s.lists[key][i].channel) {}
  }
}

/**
 Waiting for replies. Every caller makes a channel with room for one message and
 registers it: under its request id in one of three tables, or in the list of a
 snapshot key. Whoever takes it off sends one message, outside the lock after a
 reply, inside it when the connection ends. A send into a full channel would block.

 The machine has one event per critical section and per send. `place` and
 `origin` are bookkeeping for the specification.
 */
module IpcWaiters {
  import opened Prelude
  import opened Tasks

  /** The tables, in the order in which a reply looks its id up. */
  datatype Kind = Response | OwnerDiscovery | Request
  datatype Call = Call(kind: Kind, id: nat)
  datatype SnapshotKey = SnapshotKey(task: TaskKey, owner: string)
  datatype Waiter = Waiter(channel: nat, accept: (string, string) -> bool)

  datatype Message =
    | Reply(id: nat, payload: string)
    | Snapshot(task: TaskKey, source: string, state: string, revision: string)
    | Disconnected

  datatype Send = Send(channel: nat, message: Message)

  /** Where a caller's channel stands. */
  datatype Place =
    | InTable(call: Call)
    | InList(key: SnapshotKey)
    | Sending(message: Message)
    | Buffered(message: Message)
    | Received(message: Message)
    | Withdrawn

  datatype Origin = ByCall(call: Call) | ByKey(key: SnapshotKey, accept: (string, string) -> bool)

  datatype Net = Net(
    sequence: nat,
    nextChannel: nat,
    tables: map<Call, nat>,
    lists: map<SnapshotKey, seq<Waiter>>,
    sends: seq<Send>,
    slots: map<nat, seq<Message>>,
    blocked: bool,
    place: map<nat, Place>,
    origin: map<nat, Origin>)

  ghost const QUIET := Net(0, 0, map[], map[], [], map[], false, map[], map[])

  datatype Act =
    | Register(kind: Kind)
    | Await(key: SnapshotKey, accept: (string, string) -> bool)
    | Respond(id: nat, payload: string)
    | Arrive(task: TaskKey, source: string, state: string, revision: string)
    | Emit(index: nat)
    | Disconnect
    | Withdraw(call: Call)
    | WithdrawSnapshot(key: SnapshotKey, channel: nat)
    | Take(channel: nat)

  // ----- Lists of waiters -----------------------------------------------------

  function Matching(ws: seq<Waiter>, state: string, revision: string): seq<Waiter> {
    if ws == [] then []
    else (if ws[0].accept(state, revision) then [ws[0]] else []) + Matching(ws[1..], state, revision)
  }

  function Remaining(ws: seq<Waiter>, state: string, revision: string): seq<Waiter> {
    if ws == [] then []
    else (if ws[0].accept(state, revision) then [] else [ws[0]]) + Remaining(ws[1..], state, revision)
  }

  function Without(ws: seq<Waiter>, channel: nat): seq<Waiter> {
    if ws == [] then []
    else (if ws[0].channel == channel then [] else [ws[0]]) + Without(ws[1..], channel)
  }

  function Sends(ws: seq<Waiter>, m: Message): (r: seq<Send>)
    ensures |r| == |ws| && forall i | 0 <= i < |ws| :: r[i] == Send(ws[i].channel, m)
  {
    if ws == [] then [] else [Send(ws[0].channel, m)] + Sends(ws[1..], m)
  }

  predicate Distinct(ws: seq<Waiter>) {
    forall i, j | 0 <= i < j < |ws| :: ws[i].channel != ws[j].channel
  }

  predicate Lists(ws: seq<Waiter>, channel: nat) {
    exists i | 0 <= i < |ws| :: ws[i].channel == channel
  }

  // ----- Steps ------------------------------------------------------------------

  function WaitersAt(s: Net, key: SnapshotKey): seq<Waiter> {
    if key in s.lists then s.lists[key] else []
  }

  /** An empty list is deleted from the map. */
  function SetList(lists: map<SnapshotKey, seq<Waiter>>, key: SnapshotKey, ws: seq<Waiter>): map<SnapshotKey, seq<Waiter>> {
    if ws == [] then lists - {key} else lists[key := ws]
  }

  function RegisterStep(s: Net, kind: Kind): Net {
    var call := Call(kind, s.sequence + 1);
    s.(sequence := s.sequence + 1, nextChannel := s.nextChannel + 1,
       tables := s.tables[call := s.nextChannel], slots := s.slots[s.nextChannel := []],
       place := s.place[s.nextChannel := InTable(call)], origin := s.origin[s.nextChannel := ByCall(call)])
  }

  function AwaitStep(s: Net, key: SnapshotKey, accept: (string, string) -> bool): Net {
    s.(nextChannel := s.nextChannel + 1,
       lists := s.lists[key := WaitersAt(s, key) + [Waiter(s.nextChannel, accept)]], slots := s.slots[s.nextChannel := []],
       place := s.place[s.nextChannel := InList(key)], origin := s.origin[s.nextChannel := ByKey(key, accept)])
  }

  /** The table a reply finds its id in. */
  function Find(s: Net, id: nat): Option<Call> {
    if Call(Response, id) in s.tables then Some(Call(Response, id))
    else if Call(OwnerDiscovery, id) in s.tables then Some(Call(OwnerDiscovery, id))
    else if Call(Request, id) in s.tables then Some(Call(Request, id))
    else None
  }

  /** The waiter is taken off its table; the send comes later, without the lock. */
  function RespondStep(s: Net, id: nat, payload: string): Net {
    match Find(s, id)
    case None => s
    case Some(call) =>
      var m := Reply(id, payload);
      s.(tables := s.tables - {call}, sends := s.sends + [Send(s.tables[call], m)],
         place := s.place[s.tables[call] := Sending(m)])
  }

  function ArriveAt(s: Net, key: SnapshotKey, m: Message): Net
    requires m.Snapshot?
  {
    var ws := WaitersAt(s, key);
    var matched := Matching(ws, m.state, m.revision);
    s.(lists := SetList(s.lists, key, Remaining(ws, m.state, m.revision)),
       sends := s.sends + Sends(matched, m),
       place := map c | c in s.place :: if Lists(matched, c) then Sending(m) else s.place[c])
  }

  /** A snapshot goes to the waiters for any source and to those for its source. */
  function ArriveStep(s: Net, task: TaskKey, source: string, state: string, revision: string): Net {
    var m := Snapshot(task, source, state, revision);
    var t := ArriveAt(s, SnapshotKey(task, ""), m);
    if source == "" then t else ArriveAt(t, SnapshotKey(task, source), m)
  }

  function Put(s: Net, channel: nat, m: Message): Net {
    if channel !in s.slots || s.slots[channel] != [] then s.(blocked := true)
    else s.(slots := s.slots[channel := [m]], place := s.place[channel := Buffered(m)])
  }

  function EmitStep(s: Net, index: nat): Net {
    if index >= |s.sends| then s
    else Put(s.(sends := s.sends[..index] + s.sends[index + 1..]), s.sends[index].channel, s.sends[index].message)
  }

  ghost predicate Registered(s: Net, channel: nat) {
    || (exists call | call in s.tables :: s.tables[call] == channel)
    || (exists key | key in s.lists :: Lists(s.lists[key], channel))
  }

  /** Each registered channel can take one message, and is registered once. */
  ghost predicate AllFree(s: Net) {
    && (forall call | call in s.tables :: s.tables[call] in s.slots && s.slots[s.tables[call]] == [])
    && (forall key, i | key in s.lists && 0 <= i < |s.lists[key]| ::
          s.lists[key][i].channel in s.slots && s.slots[s.lists[key][i].channel] == [])
    && (forall a, b | a in s.tables && b in s.tables && a != b :: s.tables[a] != s.tables[b])
    && (forall key | key in s.lists :: Distinct(s.lists[key]))
    && (forall key, other | key in s.lists && other in s.lists && key != other ::
          forall i | 0 <= i < |s.lists[key]| :: !Lists(s.lists[other], s.lists[key][i].channel))
    && (forall call, key | call in s.tables && key in s.lists :: !Lists(s.lists[key], s.tables[call]))
  }

  /** The connection ends: every waiter is told, while the lock is held. */
  ghost function DisconnectStep(s: Net): Net {
    s.(tables := map[], lists := map[], blocked := s.blocked || !AllFree(s),
       slots := map c | c in s.slots :: if Registered(s, c) then [Disconnected] else s.slots[c],
       place := map c | c in s.place :: if Registered(s, c) then Buffered(Disconnected) else s.place[c])
  }

  /** A caller that gives up takes its own registration back, if it is still there. */
  function WithdrawStep(s: Net, call: Call): Net {
    if call !in s.tables then s
    else s.(tables := s.tables - {call}, place := s.place[s.tables[call] := Withdrawn])
  }

  function WithdrawSnapshotStep(s: Net, key: SnapshotKey, channel: nat): Net {
    var ws := WaitersAt(s, key);
    s.(lists := SetList(s.lists, key, Without(ws, channel)),
       place := if Lists(ws, channel) then s.place[channel := Withdrawn] else s.place)
  }

  function TakeStep(s: Net, channel: nat): Net {
    if channel !in s.slots || s.slots[channel] == [] then s
    else s.(slots := s.slots[channel := s.slots[channel][1..]],
            place := s.place[channel := Received(s.slots[channel][0])])
  }

  ghost function Step(s: Net, a: Act): Net {
    match a
    case Register(kind) => RegisterStep(s, kind)
    case Await(key, accept) => AwaitStep(s, key, accept)
    case Respond(id, payload) => RespondStep(s, id, payload)
    case Arrive(task, source, state, revision) => ArriveStep(s, task, source, state, revision)
    case Emit(index) => EmitStep(s, index)
    case Disconnect => DisconnectStep(s)
    case Withdraw(call) => WithdrawStep(s, call)
    case WithdrawSnapshot(key, channel) => WithdrawSnapshotStep(s, key, channel)
    case Take(channel) => TakeStep(s, channel)
  }

  ghost function Run(acts: seq<Act>): Net {
    if acts == [] then QUIET else Step(Run(acts[..|acts| - 1]), acts[|acts| - 1])
  }

  // ----- Invariant ---------------------------------------------------------------

  /** Is this a message the caller asked for? */
  ghost predicate Answers(o: Origin, m: Message) {
    match o
    case ByCall(call) => m == Disconnected || (m.Reply? && m.id == call.id)
    case ByKey(key, accept) =>
      m == Disconnected
      || (m.Snapshot? && m.task == key.task && (key.owner == "" || m.source == key.owner) && accept(m.state, m.revision))
  }

  /** One channel: its slot and its origin fit its place. */
  ghost predicate ChannelOk(s: Net, c: nat)
    requires c in s.place
  {
    && c < s.nextChannel && c in s.slots && c in s.origin
    && s.slots[c] == (if s.place[c].Buffered? then [s.place[c].message] else [])
    && match s.place[c]
       case InTable(call) => call in s.tables && s.tables[call] == c && s.origin[c] == ByCall(call)
       case InList(key) => key in s.lists && s.origin[c].ByKey? && s.origin[c].key == key && Waiter(c, s.origin[c].accept) in s.lists[key]
       case Sending(m) => Send(c, m) in s.sends && Answers(s.origin[c], m)
       case Buffered(m) => Answers(s.origin[c], m)
       case Received(m) => Answers(s.origin[c], m)
       case Withdrawn => true
  }

  ghost predicate TableOk(s: Net, call: Call)
    requires call in s.tables
  {
    s.tables[call] in s.place && s.place[s.tables[call]] == InTable(call) && call.id <= s.sequence
  }

  ghost predicate ListOk(s: Net, key: SnapshotKey)
    requires key in s.lists
  {
    && s.lists[key] != [] && Distinct(s.lists[key])
    && forall i | 0 <= i < |s.lists[key]| ::
         var w := s.lists[key][i];
         w.channel in s.place && s.place[w.channel] == InList(key) && w.channel in s.origin && s.origin[w.channel] == ByKey(key, w.accept)
  }

  ghost predicate SendsOk(s: Net) {
    && (forall i | 0 <= i < |s.sends| ::
          s.sends[i].channel in s.place && s.place[s.sends[i].channel] == Sending(s.sends[i].message))
    && (forall i, j | 0 <= i < j < |s.sends| :: s.sends[i].channel != s.sends[j].channel)
  }

  /** Every channel is in exactly one place, ids are unique across the tables, and
      no send has ever met a full channel. */
  ghost predicate Valid(s: Net) {
    && !s.blocked
    && s.place.Keys == s.slots.Keys
    && (forall c | c in s.place :: ChannelOk(s, c))
    && (forall call | call in s.tables :: TableOk(s, call))
    && (forall key | key in s.lists :: ListOk(s, key))
    && SendsOk(s)
    && (forall a, b | a in s.tables && b in s.tables && a.id == b.id :: a == b)
  }
}

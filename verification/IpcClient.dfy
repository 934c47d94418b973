/**
 The waiter tables as the code updates them. A channel may only be sent to when
 it is empty, so each send below carries the proof that it does not block.
 */
module IpcClientModel {
  import opened Prelude
  import opened Tasks
  import opened IpcWaiters
  import P = IpcWaitersProofs

  /** Filters a list of waiters inside its own storage: those that do not accept
      the snapshot slide to the front, those that do are collected. */
  method FilterInPlace(waiters: array<Waiter>, state: string, revision: string) returns (kept: nat, matched: seq<Waiter>)
    modifies waiters
    ensures kept <= waiters.Length
    ensures waiters[..kept] == Remaining(old(waiters[..]), state, revision)
    ensures matched == Matching(old(waiters[..]), state, revision)
  {
    ghost var before := waiters[..];
    kept, matched := 0, [];
    for i := 0 to waiters.Length
      invariant kept <= i
      invariant waiters[i..] == before[i..]
      invariant waiters[..kept] + Remaining(before[i..], state, revision) == Remaining(before, state, revision)
      invariant matched + Matching(before[i..], state, revision) == Matching(before, state, revision)
    {
      var waiter := waiters[i];
      assert waiter == waiters[i..][0] == before[i];
      assert before[i..][1..] == before[i + 1..];
      Assoc(matched, [waiter], Matching(before[i + 1..], state, revision));
      Assoc(waiters[..kept], [waiter], Remaining(before[i + 1..], state, revision));
      assert [] + Matching(before[i + 1..], state, revision) == Matching(before[i + 1..], state, revision);
      assert [] + Remaining(before[i + 1..], state, revision) == Remaining(before[i + 1..], state, revision);
      hide Matching, Remaining;
      if waiter.accept(state, revision) {
        matched := matched + [waiter];
      } else {
        assert waiters[..kept] + [waiter] + Remaining(before[i + 1..], state, revision) == Remaining(before, state, revision);
        waiters[kept] := waiter;
        kept := kept + 1;
        assert waiters[..kept] == waiters[..kept - 1] + [waiter];
      }
      assert waiters[i + 1..] == before[i..][1..];
    }
    assert waiters[..kept] + [] == waiters[..kept];
  }

  class IpcClient {
    var sequence: nat
    var nextChannel: nat
    var tables: map<Call, nat>
    var snapshotWaiters: map<SnapshotKey, seq<Waiter>>
    var sends: seq<Send>
    var slots: map<nat, seq<Message>>
    ghost var place: map<nat, Place>
    ghost var origin: map<nat, Origin>

    ghost function Abs(): Net
      reads this
    {
      Net(sequence, nextChannel, tables, snapshotWaiters, sends, slots, false, place, origin)
    }

    ghost predicate Ok()
      reads this
    {
      Valid(Abs())
    }

    constructor ()
      ensures Ok() && Abs() == QUIET
    {
      sequence, nextChannel, tables, snapshotWaiters, sends, slots := 0, 0, map[], map[], [], map[];
      place, origin := map[], map[];
    }

    method AddCall(call: Call) returns (channel: nat)
      modifies this
      ensures channel == old(nextChannel)
      ensures Abs() == old(Abs()).(nextChannel := channel + 1, tables := old(tables)[call := channel], slots := old(slots)[channel := []],
                                   place := old(place)[channel := InTable(call)], origin := old(origin)[channel := ByCall(call)])
    {
      channel := nextChannel;
      nextChannel := nextChannel + 1;
      tables := tables[call := channel];
      slots := slots[channel := []];
      place := place[channel := InTable(call)];
      origin := origin[channel := ByCall(call)];
    }

    /** A caller makes its channel and registers it under a fresh request id. */
    method Register(kind: Kind) returns (call: Call, channel: nat)
      requires Ok()
      modifies this
      ensures Ok() && Abs() == RegisterStep(old(Abs()), kind)
      ensures call == Call(kind, sequence) && call !in old(tables) && call in tables && tables[call] == channel
    {
      P.RegisterKeepsValid(Abs(), kind);
      P.FreshId(Abs(), kind);
      hide Valid;
      sequence := sequence + 1;
      call := Call(kind, sequence);
      channel := AddCall(call);
    }

    /** Puts a message into a channel that has room for it. */
    method Deliver(channel: nat, m: Message)
      requires channel in slots && slots[channel] == []
      modifies this`slots, this`place
      ensures slots == old(slots)[channel := [m]] && place == old(place)[channel := Buffered(m)]
    {
      slots := slots[channel := [m]];
      place := place[channel := Buffered(m)];
    }

    method TakeOff(call: Call, m: Message)
      requires call in tables
      modifies this`tables, this`sends, this`place
      ensures Abs() == old(Abs()).(tables := old(tables) - {call}, sends := old(sends) + [Send(old(tables[call]), m)],
                                   place := old(place)[old(tables[call]) := Sending(m)])
    {
      var channel := tables[call];
      tables := tables - {call};
      sends := sends + [Send(channel, m)];
      place := place[channel := Sending(m)];
    }

    /** A reply takes its waiter off the first table that knows the id. */
    method HandleResponse(id: nat, payload: string)
      requires Ok()
      modifies this`tables, this`sends, this`place
      ensures Ok() && Abs() == RespondStep(old(Abs()), id, payload)
    {
      P.RespondKeepsValid(Abs(), id, payload);
      hide Valid;
      if Call(Response, id) in tables {
        TakeOff(Call(Response, id), Reply(id, payload));
      } else if Call(OwnerDiscovery, id) in tables {
        TakeOff(Call(OwnerDiscovery, id), Reply(id, payload));
      } else if Call(Request, id) in tables {
        TakeOff(Call(Request, id), Reply(id, payload));
      }
    }

    /** One of the sends under way happens; its channel is empty. */
    method EmitNext(index: nat)
      requires Ok() && index < |sends|
      modifies this`sends, this`slots, this`place
      ensures Ok() && Abs() == EmitStep(old(Abs()), index)
    {
      P.EmitKeepsValid(Abs(), index);
      assert ChannelOk(Abs(), sends[index].channel);
      hide Valid, ChannelOk;
      var send := sends[index];
      sends := sends[..index] + sends[index + 1..];
      Deliver(send.channel, send.message);
    }

    /** Takes the matching waiters off one snapshot key. */
    method MatchSnapshot(key: SnapshotKey, m: Message)
      requires m.Snapshot?
      modifies this`snapshotWaiters, this`sends, this`place
      ensures Abs() == ArriveAt(old(Abs()), key, m)
    {
      var ws := if key in snapshotWaiters then snapshotWaiters[key] else [];
      var storage := new Waiter[|ws|](i requires 0 <= i < |ws| => ws[i]);
      assert storage[..] == ws;
      var kept, matched := FilterInPlace(storage, m.state, m.revision);
      if kept == 0 {
        snapshotWaiters := snapshotWaiters - {key};
      } else {
        snapshotWaiters := snapshotWaiters[key := storage[..kept]];
      }
      sends := sends + Sends(matched, m);
      place := map c | c in place :: if Lists(matched, c) then Sending(m) else place[c];
    }

    method HandleSnapshot(task: TaskKey, source: string, state: string, revision: string)
      requires Ok()
      modifies this`snapshotWaiters, this`sends, this`place
      ensures Ok() && Abs() == ArriveStep(old(Abs()), task, source, state, revision)
    {
      P.ArriveKeepsValid(Abs(), task, source, state, revision);
      hide Valid, ArriveAt;
      var m := Snapshot(task, source, state, revision);
      MatchSnapshot(SnapshotKey(task, ""), m);
      if source != "" {
        MatchSnapshot(SnapshotKey(task, source), m);
      }
    }

    /** A caller takes its registration back; nothing happens if it is gone. */
    method RemoveCall(call: Call)
      requires Ok()
      modifies this`tables, this`place
      ensures Ok() && Abs() == WithdrawStep(old(Abs()), call)
    {
      P.WithdrawKeepsValid(Abs(), call);
      hide Valid;
      if call in tables {
        place := place[tables[call] := Withdrawn];
        tables := tables - {call};
      }
    }

    method RemoveSnapshotWaiter(key: SnapshotKey, target: nat)
      requires Ok()
      modifies this`snapshotWaiters, this`place
      ensures Ok() && Abs() == WithdrawSnapshotStep(old(Abs()), key, target)
    {
      P.WithdrawSnapshotKeepsValid(Abs(), key, target);
      hide Valid;
      var ws := if key in snapshotWaiters then snapshotWaiters[key] else [];
      var kept := Drop(ws, target);
      if kept == [] {
        snapshotWaiters := snapshotWaiters - {key};
      } else {
        snapshotWaiters := snapshotWaiters[key := kept];
      }
      if Lists(ws, target) { place := place[target := Withdrawn]; }
    }

    // ----- The end of the connection, under the lock ---------------------------------

    /** Tells every waiter of the id tables; each channel is free when its turn comes. */
    method EndCalls()
      requires Injective(tables) && forall c | c in tables.Values :: CanTake(c)
      modifies this`tables, this`slots, this`place
      ensures tables == map[]
      ensures slots == Told(old(slots), old(tables.Values), [Disconnected])
      ensures place == Told(old(place), old(tables.Values), Buffered(Disconnected))
    {
      ghost var told := {};
      ToldNobody(slots, [Disconnected]);
      ToldNobody(place, Buffered(Disconnected));
      hide Told, Injective;
      while tables != map[]
        invariant told + tables.Values == old(tables.Values) && told !! tables.Values && Injective(tables)
        invariant forall c | c in old(tables.Values) && c !in told :: CanTake(c)
        invariant slots == Told(old(slots), told, [Disconnected])
        invariant place == Told(old(place), told, Buffered(Disconnected))
        decreases |tables|
      {
        var call :| call in tables;
        var channel := tables[call];
        assert channel in tables.Values;
        WithoutOne(tables, call);
        tables := tables - {call};
        Deliver(channel, Disconnected);
        ToldOneMore(old(slots), told, channel, [Disconnected]);
        ToldOneMore(old(place), told, channel, Buffered(Disconnected));
        told := told + {channel};
      }
    }

    /** Tells the waiters of one list. */
    method TellList(ws: seq<Waiter>)
      requires Distinct(ws) && forall c | c in Channels(ws) :: CanTake(c)
      modifies this`slots, this`place
      ensures slots == Told(old(slots), Channels(ws), [Disconnected])
      ensures place == Told(old(place), Channels(ws), Buffered(Disconnected))
    {
      ToldNobody(slots, [Disconnected]);
      ToldNobody(place, Buffered(Disconnected));
      assert Channels(ws[..0]) == {};
      hide Told;
      for i := 0 to |ws|
        invariant forall c | c in Channels(ws) && c !in Channels(ws[..i]) :: CanTake(c)
        invariant slots == Told(old(slots), Channels(ws[..i]), [Disconnected])
        invariant place == Told(old(place), Channels(ws[..i]), Buffered(Disconnected))
      {
        var channel := ws[i].channel;
        NextChannel(ws, i);
        Deliver(channel, Disconnected);
        ToldOneMore(old(slots), Channels(ws[..i]), channel, [Disconnected]);
        ToldOneMore(old(place), Channels(ws[..i]), channel, Buffered(Disconnected));
      }
      assert ws[..|ws|] == ws;
    }

    /** Midway: `told` are the channels of the lists already gone. */
    ghost predicate Telling(told: set<nat>, slots0: map<nat, seq<Message>>, place0: map<nat, Place>)
      reads this
    {
      && Separate(snapshotWaiters) && (forall c | c in AllChannels(snapshotWaiters) :: CanTake(c))
      && slots == Told(slots0, told, [Disconnected]) && place == Told(place0, told, Buffered(Disconnected))
    }

    /** Takes one snapshot key off the map and tells its waiters. */
    method TellKey(key: SnapshotKey, ghost told: set<nat>, ghost slots0: map<nat, seq<Message>>, ghost place0: map<nat, Place>)
      requires key in snapshotWaiters && Telling(told, slots0, place0)
      modifies this`snapshotWaiters, this`slots, this`place
      ensures snapshotWaiters == old(snapshotWaiters) - {key}
      ensures Telling(told + Channels(old(snapshotWaiters)[key]), slots0, place0)
      ensures AllChannels(old(snapshotWaiters)) == AllChannels(snapshotWaiters) + Channels(old(snapshotWaiters)[key])
    {
      hide Told, Separate, Distinct, Channels, AllChannels;
      var ws := snapshotWaiters[key];
      WithoutList(snapshotWaiters, key);
      snapshotWaiters := snapshotWaiters - {key};
      ToldOthers(slots, Channels(ws), [Disconnected]);
      ToldOthers(place, Channels(ws), Buffered(Disconnected));
      TellList(ws);
      ToldTwice(slots0, told, Channels(ws), [Disconnected]);
      ToldTwice(place0, told, Channels(ws), Buffered(Disconnected));
    }

    /** Tells every waiter of the snapshot lists. */
    method EndLists()
      requires Separate(snapshotWaiters) && forall c | c in AllChannels(snapshotWaiters) :: CanTake(c)
      modifies this`snapshotWaiters, this`slots, this`place
      ensures snapshotWaiters == map[]
      ensures slots == Told(old(slots), AllChannels(old(snapshotWaiters)), [Disconnected])
      ensures place == Told(old(place), AllChannels(old(snapshotWaiters)), Buffered(Disconnected))
    {
      ghost var told := {};
      ToldNobody(slots, [Disconnected]);
      ToldNobody(place, Buffered(Disconnected));
      assert AllChannels(map[]) == {};
      assert Telling(told, old(slots), old(place));
      hide Told, Telling, Separate, Channels, AllChannels, Distinct;
      while snapshotWaiters != map[]
        invariant told + AllChannels(snapshotWaiters) == AllChannels(old(snapshotWaiters))
        invariant Telling(told, old(slots), old(place))
        decreases snapshotWaiters.Keys
      {
        var key :| key in snapshotWaiters;
        ghost var now := Channels(snapshotWaiters[key]);
        TellKey(key, told, old(slots), old(place));
        told := told + now;
      }
      ToldAll(told, old(slots), old(place));
    }

    lemma ToldAll(told: set<nat>, slots0: map<nat, seq<Message>>, place0: map<nat, Place>)
      requires Telling(told, slots0, place0)
      ensures slots == Told(slots0, told, [Disconnected]) && place == Told(place0, told, Buffered(Disconnected))
    {
    }

    /** The connection ended: all waiters are told before the lock is released. */
    method ConnectionEnded()
      requires Ok()
      modifies this`tables, this`snapshotWaiters, this`slots, this`place
      ensures Ok() && Abs() == DisconnectStep(old(Abs()))
    {
      ghost var before := Abs();
      P.DisconnectKeepsValid(before);
      WaitersCanBeTold();
      RegisteredChannels(before);
      ghost var calls, lists := tables.Values, AllChannels(snapshotWaiters);
      P.EveryWaiterIsFree(before);
      DisconnectTells(before, calls + lists);
      hide Valid, AllFree, Separate, Injective, AllChannels, Told, Registered, DisconnectStep;
      EndWaiters();
    }

    /** Tells all calls, and then all snapshot waiters. */
    method EndWaiters()
      requires Injective(tables) && Separate(snapshotWaiters) && tables.Values !! AllChannels(snapshotWaiters)
      requires forall c | c in tables.Values + AllChannels(snapshotWaiters) :: CanTake(c)
      modifies this`tables, this`snapshotWaiters, this`slots, this`place
      ensures tables == map[] && snapshotWaiters == map[]
      ensures slots == Told(old(slots), old(tables.Values + AllChannels(snapshotWaiters)), [Disconnected])
      ensures place == Told(old(place), old(tables.Values + AllChannels(snapshotWaiters)), Buffered(Disconnected))
    {
      hide Separate, Injective, AllChannels, Told;
      ghost var calls, lists := tables.Values, AllChannels(snapshotWaiters);
      ghost var slots0, place0 := slots, place;
      forall c | c in lists ensures c in slots0 && slots0[c] == [] && c in place0 && c !in calls { assert CanTake(c); }
      EndCalls();
      ToldOthers(old(slots), calls, [Disconnected]);
      ToldOthers(old(place), calls, Buffered(Disconnected));
      assert slots.Keys == slots0.Keys && place.Keys == place0.Keys;
      forall c | c in lists ensures CanTake(c) { assert slots[c] == slots0[c]; }
      EndLists();
      ToldTwice(old(slots), calls, lists, [Disconnected]);
      ToldTwice(old(place), calls, lists, Buffered(Disconnected));
    }

    /** Before the connection ends, every registered channel can take a message. */
    lemma WaitersCanBeTold()
      requires Ok()
      ensures Injective(tables) && Separate(snapshotWaiters) && tables.Values !! AllChannels(snapshotWaiters)
      ensures forall c | c in tables.Values + AllChannels(snapshotWaiters) :: CanTake(c)
    {
      P.EveryWaiterIsFree(Abs());
      FreeWaiters(Abs());
    }

    /** The channel has room for a message. */
    ghost predicate CanTake(channel: nat)
      reads this
    {
      channel in slots && slots[channel] == [] && channel in place
    }
  }

  ghost function Channels(ws: seq<Waiter>): set<nat> {
    set i | 0 <= i < |ws| :: ws[i].channel
  }

  ghost function AllChannels(m: map<SnapshotKey, seq<Waiter>>): set<nat> {
    set key, i | key in m && 0 <= i < |m[key]| :: m[key][i].channel
  }

  /** No channel is listed twice, in one list or in two. */
  ghost predicate Separate(m: map<SnapshotKey, seq<Waiter>>) {
    && (forall key | key in m :: Distinct(m[key]))
    && (forall a, b | a in m && b in m && a != b :: Channels(m[a]) !! Channels(m[b]))
  }

  lemma NextChannel(ws: seq<Waiter>, i: nat)
    requires i < |ws| && Distinct(ws)
    ensures Channels(ws[..i + 1]) == Channels(ws[..i]) + {ws[i].channel}
    ensures ws[i].channel in Channels(ws) && ws[i].channel !in Channels(ws[..i])
  {
    assert ws[..i + 1] == ws[..i] + [ws[i]];
    forall c | c in Channels(ws[..i]) ensures c in Channels(ws[..i + 1]) {
      var j :| 0 <= j < i && ws[..i][j].channel == c;
      assert ws[..i + 1][j].channel == c;
    }
    assert ws[..i + 1][i] == ws[i];
  }

  lemma WithoutList(m: map<SnapshotKey, seq<Waiter>>, key: SnapshotKey)
    requires key in m && Separate(m)
    ensures Separate(m - {key}) && Distinct(m[key])
    ensures AllChannels(m) == AllChannels(m - {key}) + Channels(m[key]) && Channels(m[key]) !! AllChannels(m - {key})
  {
    var rest := m - {key};
    forall c | c in AllChannels(m) ensures c in AllChannels(rest) + Channels(m[key]) {
      var k, i :| k in m && 0 <= i < |m[k]| && m[k][i].channel == c;
      if k != key { assert rest[k][i].channel == c; }
    }
    forall c | c in AllChannels(rest) ensures c !in Channels(m[key]) {
      var k, i :| k in rest && 0 <= i < |rest[k]| && rest[k][i].channel == c;
      assert c in Channels(m[k]);
    }
  }

  lemma ToldOthers<T>(m: map<nat, T>, channels: set<nat>, value: T)
    ensures Told(m, channels, value).Keys == m.Keys
    ensures forall c | c in m && c !in channels :: Told(m, channels, value)[c] == m[c]
  {
  }

  lemma ToldTwice<T>(m: map<nat, T>, a: set<nat>, b: set<nat>, value: T)
    ensures Told(Told(m, a, value), b, value) == Told(m, a + b, value)
  {
  }

  lemma FreeWaiters(s: Net)
    requires Valid(s) && AllFree(s)
    ensures Injective(s.tables) && Separate(s.lists) && s.tables.Values !! AllChannels(s.lists)
    ensures forall c | c in s.tables.Values + AllChannels(s.lists) :: c in s.slots && s.slots[c] == [] && c in s.place
  {
    forall a, b | a in s.lists && b in s.lists && a != b ensures Channels(s.lists[a]) !! Channels(s.lists[b]) {
      forall c | c in Channels(s.lists[a]) ensures c !in Channels(s.lists[b]) {
        var i :| 0 <= i < |s.lists[a]| && s.lists[a][i].channel == c;
        assert !Lists(s.lists[b], c);
      }
    }
    forall c | c in s.tables.Values ensures c !in AllChannels(s.lists) {
      var call :| call in s.tables && s.tables[call] == c;
      forall key | key in s.lists ensures !Lists(s.lists[key], c) {}
    }
  }

  lemma RegisteredChannels(s: Net)
    ensures forall c: nat :: Registered(s, c) <==> c in s.tables.Values + AllChannels(s.lists)
  {
    forall c: nat | Registered(s, c) ensures c in s.tables.Values + AllChannels(s.lists) {
      if key :| key in s.lists && Lists(s.lists[key], c) {
        var i :| 0 <= i < |s.lists[key]| && s.lists[key][i].channel == c;
      }
    }
    forall c: nat | c in AllChannels(s.lists) ensures Registered(s, c) {
      var key, i :| key in s.lists && 0 <= i < |s.lists[key]| && s.lists[key][i].channel == c;
      assert Lists(s.lists[key], c);
    }
  }

  /** The step at the end of a connection, when it tells these channels. */
  lemma DisconnectTells(s: Net, channels: set<nat>)
    requires !s.blocked && AllFree(s) && forall c: nat :: Registered(s, c) <==> c in channels
    ensures DisconnectStep(s) == s.(tables := map[], lists := map[], slots := Told(s.slots, channels, [Disconnected]),
                                    place := Told(s.place, channels, Buffered(Disconnected)))
  {
    hide AllFree, Registered;
  }

  /** The map with every one of these keys it has set to one value. */
  function Told<T>(m: map<nat, T>, channels: set<nat>, value: T): map<nat, T> {
    map c | c in m :: if c in channels then value else m[c]
  }

  lemma ToldNobody<T>(m: map<nat, T>, value: T)
    ensures Told(m, {}, value) == m
  {
  }

  lemma ToldOneMore<T>(m: map<nat, T>, channels: set<nat>, c: nat, value: T)
    ensures Told(m, channels, value).Keys == m.Keys
    ensures c in m ==> Told(m, channels, value)[c := value] == Told(m, channels + {c}, value)
  {
  }

  ghost predicate Injective(m: map<Call, nat>) {
    forall a, b | a in m && b in m && a != b :: m[a] != m[b]
  }

  lemma WithoutOne(m: map<Call, nat>, call: Call)
    requires call in m && Injective(m)
    ensures m.Values == (m - {call}).Values + {m[call]} && m[call] !in (m - {call}).Values && Injective(m - {call})
    ensures forall other | other in m - {call} :: m[other] != m[call]
  {
    forall v | v in m.Values && v != m[call] ensures v in (m - {call}).Values {
      var other :| other in m && m[other] == v;
      assert other in m - {call};
    }
  }

  method Drop(ws: seq<Waiter>, target: nat) returns (kept: seq<Waiter>)
    ensures kept == Without(ws, target)
  {
    kept := [];
    for i := 0 to |ws|
      invariant kept + Without(ws[i..], target) == Without(ws, target)
    {
      assert ws[i..][1..] == ws[i + 1..] && ws[i..][0] == ws[i];
      Assoc(kept, [ws[i]], Without(ws[i + 1..], target));
      assert [] + Without(ws[i + 1..], target) == Without(ws[i + 1..], target);
      hide Without;
      if ws[i].channel != target {
        kept := kept + [ws[i]];
      }
    }
    assert kept + [] == kept;
  }
}

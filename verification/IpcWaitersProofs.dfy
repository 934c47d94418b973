/** What holds of waiters in every run. */
module IpcWaitersProofs {
  import opened Prelude
  import opened Tasks
  import opened IpcWaiters

  // ----- Registering and giving up ---------------------------------------------

  lemma RegisterKeepsChannel(s: Net, kind: Kind, c: nat)
    requires Valid(s) && c in RegisterStep(s, kind).place
    ensures ChannelOk(RegisterStep(s, kind), c)
  {
    hide SendsOk;
    assert s.nextChannel in s.place ==> ChannelOk(s, s.nextChannel);
    assert c in s.place ==> ChannelOk(s, c);
    FreshId(s, kind);
  }

  lemma RegisterKeepsEntries(s: Net, kind: Kind, call: Call, key: SnapshotKey)
    requires Valid(s)
    ensures var t := RegisterStep(s, kind);
      (call in t.tables ==> TableOk(t, call)) && (key in t.lists ==> ListOk(t, key))
  {
    assert s.nextChannel in s.place ==> ChannelOk(s, s.nextChannel);
    hide SendsOk, ChannelOk;
    assert call in s.tables ==> TableOk(s, call);
    assert key in s.lists ==> ListOk(s, key);
  }

  lemma RegisterKeepsSends(s: Net, kind: Kind)
    requires Valid(s)
    ensures SendsOk(RegisterStep(s, kind))
  {
    assert s.nextChannel in s.place ==> ChannelOk(s, s.nextChannel);
    hide ChannelOk;
  }

  lemma RegisterKeepsValid(s: Net, kind: Kind)
    requires Valid(s)
    ensures Valid(RegisterStep(s, kind))
  {
    var t := RegisterStep(s, kind);
    FreshId(s, kind);
    RegisterKeepsSends(s, kind);
    forall other | other in s.tables ensures other.id <= s.sequence { assert TableOk(s, other); }
    hide ChannelOk, TableOk, ListOk, SendsOk;
    forall c | c in t.place ensures ChannelOk(t, c) { RegisterKeepsChannel(s, kind, c); }
    forall call | call in t.tables ensures TableOk(t, call) { RegisterKeepsEntries(s, kind, call, SnapshotKey(TaskKey("", ""), "")); }
    forall key | key in t.lists ensures ListOk(t, key) { RegisterKeepsEntries(s, kind, Call(kind, 0), key); }
  }

  lemma FreshId(s: Net, kind: Kind)
    requires Valid(s)
    ensures Call(kind, s.sequence + 1) !in s.tables
  {
    var call := Call(kind, s.sequence + 1);
    assert call in s.tables ==> TableOk(s, call);
  }

  lemma AwaitKeepsChannel(s: Net, key: SnapshotKey, accept: (string, string) -> bool, c: nat)
    requires Valid(s) && c in AwaitStep(s, key, accept).place
    ensures ChannelOk(AwaitStep(s, key, accept), c)
  {
    hide SendsOk;
    var t := AwaitStep(s, key, accept);
    assert s.nextChannel in s.place ==> ChannelOk(s, s.nextChannel);
    assert c in s.place ==> ChannelOk(s, c);
    assert t.lists[key][|WaitersAt(s, key)|] == Waiter(s.nextChannel, accept);
  }

  lemma AwaitKeepsTable(s: Net, key: SnapshotKey, accept: (string, string) -> bool, call: Call)
    requires Valid(s) && call in s.tables
    ensures TableOk(AwaitStep(s, key, accept), call)
  {
    assert s.nextChannel in s.place ==> ChannelOk(s, s.nextChannel);
    hide SendsOk, ChannelOk, ListOk;
    assert TableOk(s, call);
  }

  lemma AwaitKeepsList(s: Net, key: SnapshotKey, accept: (string, string) -> bool, k: SnapshotKey)
    requires Valid(s) && k in AwaitStep(s, key, accept).lists
    ensures ListOk(AwaitStep(s, key, accept), k)
  {
    assert s.nextChannel in s.place ==> ChannelOk(s, s.nextChannel);
    hide SendsOk, ChannelOk, TableOk;
    assert k in s.lists ==> ListOk(s, k);
  }

  lemma AwaitKeepsSends(s: Net, key: SnapshotKey, accept: (string, string) -> bool)
    requires Valid(s)
    ensures SendsOk(AwaitStep(s, key, accept))
  {
    assert s.nextChannel in s.place ==> ChannelOk(s, s.nextChannel);
    hide ChannelOk;
  }

  lemma AwaitKeepsValid(s: Net, key: SnapshotKey, accept: (string, string) -> bool)
    requires Valid(s)
    ensures Valid(AwaitStep(s, key, accept))
  {
    var t := AwaitStep(s, key, accept);
    AwaitKeepsSends(s, key, accept);
    hide ChannelOk, TableOk, ListOk, SendsOk;
    forall c | c in t.place ensures ChannelOk(t, c) { AwaitKeepsChannel(s, key, accept, c); }
    forall call | call in t.tables ensures TableOk(t, call) { AwaitKeepsTable(s, key, accept, call); }
    forall k | k in t.lists ensures ListOk(t, k) { AwaitKeepsList(s, key, accept, k); }
  }

  lemma WithdrawKeepsValid(s: Net, call: Call)
    requires Valid(s)
    ensures Valid(WithdrawStep(s, call))
  {
    if call in s.tables {
      var t := WithdrawStep(s, call);
      assert TableOk(s, call);
      forall c | c in t.place ensures ChannelOk(t, c) { assert ChannelOk(s, c); }
      forall other | other in t.tables ensures TableOk(t, other) { assert TableOk(s, other); }
      forall key | key in t.lists ensures ListOk(t, key) { assert ListOk(s, key); }
    }
  }

  lemma TakeKeepsValid(s: Net, channel: nat)
    requires Valid(s)
    ensures Valid(TakeStep(s, channel))
  {
    if channel in s.slots && s.slots[channel] != [] {
      var t := TakeStep(s, channel);
      assert ChannelOk(s, channel);
      forall c | c in t.place ensures ChannelOk(t, c) { assert ChannelOk(s, c); }
      forall call | call in t.tables ensures TableOk(t, call) { assert TableOk(s, call); }
      forall key | key in t.lists ensures ListOk(t, key) { assert ListOk(s, key); }
    }
  }

  // ----- Replies ------------------------------------------------------------------

  lemma RespondKeepsSends(s: Net, id: nat, payload: string)
    requires Valid(s)
    ensures SendsOk(RespondStep(s, id, payload))
  {
    if Find(s, id).Some? {
      var call := Find(s, id).value;
      assert TableOk(s, call) && ChannelOk(s, s.tables[call]);
    }
  }

  lemma RespondKeepsChannel(s: Net, id: nat, payload: string, c: nat)
    requires Valid(s) && c in s.place
    ensures c in RespondStep(s, id, payload).place && ChannelOk(RespondStep(s, id, payload), c)
  {
    hide SendsOk;
    assert ChannelOk(s, c);
    if Find(s, id).Some? {
      var call := Find(s, id).value;
      var t := RespondStep(s, id, payload);
      assert TableOk(s, call);
      assert t.sends[|s.sends|] == Send(s.tables[call], Reply(id, payload));
      assert forall x | x in s.sends :: x in t.sends;
    }
  }

  lemma RespondKeepsValid(s: Net, id: nat, payload: string)
    requires Valid(s)
    ensures Valid(RespondStep(s, id, payload))
  {
    if Find(s, id).Some? {
      var call := Find(s, id).value;
      var t := RespondStep(s, id, payload);
      RespondKeepsSends(s, id, payload);
      assert TableOk(s, call) && ChannelOk(s, s.tables[call]);
      hide SendsOk, ChannelOk;
      forall c | c in t.place ensures ChannelOk(t, c) { RespondKeepsChannel(s, id, payload, c); }
      forall other | other in t.tables ensures TableOk(t, other) { assert TableOk(s, other); }
      forall key | key in t.lists ensures ListOk(t, key) { assert ListOk(s, key); }
    }
  }

  lemma EmitKeepsSends(s: Net, index: nat)
    requires Valid(s)
    ensures SendsOk(EmitStep(s, index))
  {
    if index < |s.sends| { assert ChannelOk(s, s.sends[index].channel); }
  }

  lemma EmitKeepsChannel(s: Net, index: nat, c: nat)
    requires Valid(s) && c in s.place
    ensures c in EmitStep(s, index).place && ChannelOk(EmitStep(s, index), c)
  {
    assert ChannelOk(s, c);
    if index < |s.sends| {
      var t := EmitStep(s, index);
      var send := s.sends[index];
      assert ChannelOk(s, send.channel);
      if s.place[c].Sending? && c != send.channel {
        var i :| 0 <= i < |s.sends| && s.sends[i] == Send(c, s.place[c].message);
        assert t.sends[if i < index then i else i - 1] == s.sends[i];
      }
    }
  }

  lemma EmitKeepsValid(s: Net, index: nat)
    requires Valid(s)
    ensures Valid(EmitStep(s, index))
  {
    if index < |s.sends| {
      var t := EmitStep(s, index);
      EmitKeepsSends(s, index);
      assert ChannelOk(s, s.sends[index].channel) && !t.blocked;
      hide SendsOk, ChannelOk;
      forall c | c in t.place ensures ChannelOk(t, c) { EmitKeepsChannel(s, index, c); }
      forall call | call in t.tables ensures TableOk(t, call) { assert TableOk(s, call); }
      forall key | key in t.lists ensures ListOk(t, key) { assert ListOk(s, key); }
    }
  }

  // ----- Snapshots -----------------------------------------------------------------

  /** Selecting waiters keeps exactly those selected, each once. */
  lemma {:induction false} SelectionLemma(ws: seq<Waiter>, state: string, revision: string)
    requires Distinct(ws)
    ensures var ms, rs := Matching(ws, state, revision), Remaining(ws, state, revision);
            && Distinct(ms) && Distinct(rs)
            && (forall w :: w in ms <==> w in ws && w.accept(state, revision))
            && (forall w :: w in rs <==> w in ws && !w.accept(state, revision))
  {
    if ws != [] {
      var rest := ws[1..];
      SelectionLemma(rest, state, revision);
      assert ws == [ws[0]] + rest;
      forall w | w in rest ensures w.channel != ws[0].channel {
        var i :| 0 <= i < |rest| && rest[i] == w;
        assert ws[i + 1] == w;
      }
    }
  }

  lemma {:induction false} WithoutLemma(ws: seq<Waiter>, channel: nat)
    requires Distinct(ws)
    ensures Distinct(Without(ws, channel))
    ensures forall w :: w in Without(ws, channel) <==> w in ws && w.channel != channel
  {
    if ws != [] {
      var rest := ws[1..];
      WithoutLemma(rest, channel);
      assert ws == [ws[0]] + rest;
      forall w | w in rest ensures w.channel != ws[0].channel {
        var i :| 0 <= i < |rest| && rest[i] == w;
        assert ws[i + 1] == w;
      }
    }
  }

  lemma ListsMember(ws: seq<Waiter>, w: Waiter)
    requires w in ws
    ensures Lists(ws, w.channel)
  {
    var i :| 0 <= i < |ws| && ws[i] == w;
    assert ws[i].channel == w.channel;
  }

  lemma ListsWitness(ws: seq<Waiter>, channel: nat) returns (w: Waiter)
    requires Lists(ws, channel)
    ensures w in ws && w.channel == channel
  {
    var i :| 0 <= i < |ws| && ws[i].channel == channel;
    w := ws[i];
  }

  /** A waiter listed under a key is in that place, with its own origin. */
  lemma ListedPlace(s: Net, key: SnapshotKey, w: Waiter)
    requires Valid(s) && w in WaitersAt(s, key)
    ensures w.channel in s.place && s.place[w.channel] == InList(key)
    ensures w.channel in s.origin && s.origin[w.channel] == ByKey(key, w.accept)
  {
    assert ListOk(s, key);
    var i :| 0 <= i < |s.lists[key]| && s.lists[key][i] == w;
  }

  lemma PlaceAfterArrival(s: Net, key: SnapshotKey, m: Message, c: nat)
    requires Valid(s) && m.Snapshot? && c in s.place
    ensures var t := ArriveAt(s, key, m);
            && c in t.place
            && (t.place[c] != s.place[c] ==>
                  && s.place[c] == InList(key) && t.place[c] == Sending(m)
                  && s.origin[c].ByKey? && s.origin[c].accept(m.state, m.revision) && Send(c, m) in t.sends)
            && (t.place[c] == s.place[c] == InList(key) ==>
                  && s.origin[c].ByKey?
                  && Waiter(c, s.origin[c].accept) in Remaining(WaitersAt(s, key), m.state, m.revision))
  {
    hide SendsOk;
    var ws := WaitersAt(s, key);
    if key in s.lists { assert ListOk(s, key); }
    SelectionLemma(ws, m.state, m.revision);
    var matched := Matching(ws, m.state, m.revision);
    assert ChannelOk(s, c);
    if Lists(matched, c) {
      var i :| 0 <= i < |matched| && matched[i].channel == c;
      assert matched[i] in matched;
      ListedPlace(s, key, matched[i]);
      assert (s.sends + Sends(matched, m))[|s.sends| + i] == Send(c, m);
    } else if s.place[c] == InList(key) {
      var w := Waiter(c, s.origin[c].accept);
      assert w in ws;
      if w in matched { ListsMember(matched, w); }
    }
  }

  /** A send that was under way is not touched. */
  lemma OldSendStays(s: Net, key: SnapshotKey, m: Message, i: nat)
    requires Valid(s) && m.Snapshot? && i < |s.sends|
    ensures var t := ArriveAt(s, key, m);
      && !Lists(Matching(WaitersAt(s, key), m.state, m.revision), s.sends[i].channel)
      && t.sends[i] == s.sends[i] && s.sends[i].channel in t.place && t.place[s.sends[i].channel] == Sending(s.sends[i].message)
  {
    var matched := Matching(WaitersAt(s, key), m.state, m.revision);
    if Lists(matched, s.sends[i].channel) {
      var w := ListsWitness(matched, s.sends[i].channel);
      MatchedIsListed(s, key, m, w);
    }
  }

  lemma MatchedIsListed(s: Net, key: SnapshotKey, m: Message, w: Waiter)
    requires Valid(s) && m.Snapshot? && w in Matching(WaitersAt(s, key), m.state, m.revision)
    ensures w.channel in s.place && s.place[w.channel] == InList(key)
  {
    if key in s.lists { assert ListOk(s, key); }
    SelectionLemma(WaitersAt(s, key), m.state, m.revision);
    ListedPlace(s, key, w);
  }

  /** Each waiter that takes the snapshot gets one send. */
  lemma NewSendIsOk(s: Net, key: SnapshotKey, m: Message, i: nat)
    requires Valid(s) && m.Snapshot? && i < |Matching(WaitersAt(s, key), m.state, m.revision)|
    ensures var t, w := ArriveAt(s, key, m), Matching(WaitersAt(s, key), m.state, m.revision)[i];
      && t.sends[|s.sends| + i] == Send(w.channel, m) && w.channel in t.place && t.place[w.channel] == Sending(m)
      && Lists(Matching(WaitersAt(s, key), m.state, m.revision), w.channel)
  {
    var matched := Matching(WaitersAt(s, key), m.state, m.revision);
    assert matched[i] in matched;
    MatchedIsListed(s, key, m, matched[i]);
    ListsMember(matched, matched[i]);
    hide Valid;
  }

  lemma ArrivalGrows(s: Net, key: SnapshotKey, m: Message)
    requires Valid(s) && m.Snapshot?
    ensures SendsOk(s) && Distinct(Matching(WaitersAt(s, key), m.state, m.revision))
    ensures |ArriveAt(s, key, m).sends| == |s.sends| + |Matching(WaitersAt(s, key), m.state, m.revision)|
  {
    if key in s.lists { assert ListOk(s, key); }
    SelectionLemma(WaitersAt(s, key), m.state, m.revision);
  }

  lemma SendsAfterArrival(s: Net, key: SnapshotKey, m: Message)
    requires Valid(s) && m.Snapshot?
    ensures SendsOk(ArriveAt(s, key, m))
  {
    var t := ArriveAt(s, key, m);
    var matched, n := Matching(WaitersAt(s, key), m.state, m.revision), |s.sends|;
    ArrivalGrows(s, key, m);
    hide Valid, ArriveAt, Matching, Lists, Distinct, WaitersAt;
    forall i | 0 <= i < n
      ensures !Lists(matched, s.sends[i].channel) && t.sends[i] == s.sends[i]
      ensures t.sends[i].channel in t.place && t.place[t.sends[i].channel] == Sending(t.sends[i].message)
    {
      OldSendStays(s, key, m, i);
    }
    forall i | n <= i < n + |matched|
      ensures t.sends[i] == Send(matched[i - n].channel, m) && Lists(matched, t.sends[i].channel)
      ensures t.sends[i].channel in t.place && t.place[t.sends[i].channel] == Sending(t.sends[i].message)
    {
      NewSendIsOk(s, key, m, i - n);
    }
    TwoBlocksDiffer(t.sends, n, matched);
  }

  lemma TwoBlocksDiffer(sends: seq<Send>, n: nat, matched: seq<Waiter>)
    requires |sends| == n + |matched| && Distinct(matched)
    requires forall i, j | 0 <= i < j < n :: sends[i].channel != sends[j].channel
    requires forall i | 0 <= i < n :: !Lists(matched, sends[i].channel)
    requires forall i | n <= i < |sends| :: sends[i].channel == matched[i - n].channel && Lists(matched, sends[i].channel)
    ensures forall i, j | 0 <= i < j < |sends| :: sends[i].channel != sends[j].channel
  {
    hide Lists;
    forall i, j | n <= i < j < |sends| ensures sends[i].channel != sends[j].channel {
      assert matched[i - n].channel != matched[j - n].channel;
    }
  }

  lemma ChannelsAfterArrival(s: Net, key: SnapshotKey, m: Message, c: nat)
    requires Valid(s) && m.Snapshot? && m.task == key.task && (key.owner == "" || m.source == key.owner) && c in s.place
    ensures c in ArriveAt(s, key, m).place && ChannelOk(ArriveAt(s, key, m), c)
  {
    hide SendsOk;
    var t := ArriveAt(s, key, m);
    assert ChannelOk(s, c);
    PlaceAfterArrival(s, key, m, c);
    assert forall x | x in s.sends :: x in t.sends;
  }

  lemma RemainingIsDistinct(s: Net, key: SnapshotKey, m: Message, k: SnapshotKey)
    requires Valid(s) && m.Snapshot? && k in ArriveAt(s, key, m).lists
    ensures ArriveAt(s, key, m).lists[k] != [] && Distinct(ArriveAt(s, key, m).lists[k])
  {
    hide SendsOk, ChannelOk;
    if key in s.lists {
      assert ListOk(s, key);
      SelectionLemma(s.lists[key], m.state, m.revision);
    }
    assert k in s.lists ==> ListOk(s, k);
  }

  lemma ListsAfterArrival(s: Net, key: SnapshotKey, m: Message, k: SnapshotKey)
    requires Valid(s) && m.Snapshot? && k in ArriveAt(s, key, m).lists
    ensures ListOk(ArriveAt(s, key, m), k)
  {
    RemainingIsDistinct(s, key, m, k);
    var t := ArriveAt(s, key, m);
    assert t.origin == s.origin;
    hide SendsOk, ChannelOk, Distinct, ArriveAt, Valid;
    forall i | 0 <= i < |t.lists[k]|
      ensures var w := t.lists[k][i];
              && w.channel in t.place && t.place[w.channel] == InList(k)
              && w.channel in t.origin && t.origin[w.channel] == ByKey(k, w.accept)
    {
      StaysListed(s, key, m, k, t.lists[k][i]);
      ListedPlace(s, k, t.lists[k][i]);
    }
  }

  lemma ArriveAtKeepsValid(s: Net, key: SnapshotKey, m: Message)
    requires Valid(s) && m.Snapshot? && m.task == key.task && (key.owner == "" || m.source == key.owner)
    ensures Valid(ArriveAt(s, key, m))
  {
    var t := ArriveAt(s, key, m);
    SendsAfterArrival(s, key, m);
    hide SendsOk, ChannelOk, ListOk;
    forall c | c in t.place ensures ChannelOk(t, c) { ChannelsAfterArrival(s, key, m, c); }
    forall call | call in t.tables ensures TableOk(t, call) {
      assert TableOk(s, call);
      PlaceAfterArrival(s, key, m, s.tables[call]);
    }
    forall k | k in t.lists ensures ListOk(t, k) { ListsAfterArrival(s, key, m, k); }
  }

  lemma StaysListed(s: Net, key: SnapshotKey, m: Message, k: SnapshotKey, w: Waiter)
    requires Valid(s) && m.Snapshot? && k in ArriveAt(s, key, m).lists && w in ArriveAt(s, key, m).lists[k]
    ensures w in WaitersAt(s, k) && w.channel in s.place && w.channel in ArriveAt(s, key, m).place
    ensures ArriveAt(s, key, m).place[w.channel] == InList(k)
  {
    var ws := WaitersAt(s, key);
    if key in s.lists { assert ListOk(s, key); }
    SelectionLemma(ws, m.state, m.revision);
    ListedPlace(s, k, w);
    PlaceAfterArrival(s, key, m, w.channel);
  }

  lemma ArriveKeepsValid(s: Net, task: TaskKey, source: string, state: string, revision: string)
    requires Valid(s)
    ensures Valid(ArriveStep(s, task, source, state, revision))
  {
    var m := Snapshot(task, source, state, revision);
    ArriveAtKeepsValid(s, SnapshotKey(task, ""), m);
    if source != "" {
      ArriveAtKeepsValid(ArriveAt(s, SnapshotKey(task, ""), m), SnapshotKey(task, source), m);
    }
  }

  lemma WithdrawSnapshotKeepsChannel(s: Net, key: SnapshotKey, channel: nat, c: nat)
    requires Valid(s) && c in WithdrawSnapshotStep(s, key, channel).place
    ensures ChannelOk(WithdrawSnapshotStep(s, key, channel), c)
  {
    hide SendsOk;
    var ws := WaitersAt(s, key);
    if key in s.lists { assert ListOk(s, key); }
    WithoutLemma(ws, channel);
    if Lists(ws, channel) {
      var w := ListsWitness(ws, channel);
      ListedPlace(s, key, w);
    }
    assert ChannelOk(s, c);
    if s.place[c] == InList(key) && c == channel { ListsMember(ws, Waiter(c, s.origin[c].accept)); }
  }

  lemma WithdrawSnapshotKeepsList(s: Net, key: SnapshotKey, channel: nat, k: SnapshotKey)
    requires Valid(s) && k in WithdrawSnapshotStep(s, key, channel).lists
    ensures ListOk(WithdrawSnapshotStep(s, key, channel), k)
  {
    hide SendsOk, ChannelOk;
    var t := WithdrawSnapshotStep(s, key, channel);
    if key in s.lists { assert ListOk(s, key); }
    WithoutLemma(WaitersAt(s, key), channel);
    assert ListOk(s, k);
    forall i | 0 <= i < |t.lists[k]| ensures t.lists[k][i] in WaitersAt(s, k) && (k == key ==> t.lists[k][i].channel != channel) {
      assert t.lists[k][i] in t.lists[k];
    }
    forall i | 0 <= i < |t.lists[k]| ensures t.lists[k][i].channel in t.place && t.place[t.lists[k][i].channel] == InList(k) {
      ListedPlace(s, k, t.lists[k][i]);
    }
  }

  lemma WithdrawSnapshotKeepsValid(s: Net, key: SnapshotKey, channel: nat)
    requires Valid(s)
    ensures Valid(WithdrawSnapshotStep(s, key, channel))
  {
    var t := WithdrawSnapshotStep(s, key, channel);
    var ws := WaitersAt(s, key);
    if Lists(ws, channel) {
      var w := ListsWitness(ws, channel);
      ListedPlace(s, key, w);
    }
    hide ChannelOk, ListOk, Without, Lists;
    forall c | c in t.place ensures ChannelOk(t, c) { WithdrawSnapshotKeepsChannel(s, key, channel, c); }
    forall call | call in t.tables ensures TableOk(t, call) { assert TableOk(s, call); }
    forall k | k in t.lists ensures ListOk(t, k) { WithdrawSnapshotKeepsList(s, key, channel, k); }
  }

  // ----- The end of the connection ---------------------------------------------------

  /** Registered channels are exactly those in a table or list, all with empty slots. */
  lemma RegisteredPlaces(s: Net, c: nat)
    requires Valid(s)
    ensures Registered(s, c) <==> c in s.place && (s.place[c].InTable? || s.place[c].InList?)
    ensures Registered(s, c) ==> c in s.slots && s.slots[c] == [] && c in s.origin
  {
    if c in s.place { assert ChannelOk(s, c); }
    if c in s.place && s.place[c].InList? { ListsMember(s.lists[s.place[c].key], Waiter(c, s.origin[c].accept)); }
    forall call | call in s.tables && s.tables[call] == c ensures c in s.place && s.place[c].InTable? { assert TableOk(s, call); }
    forall key | key in s.lists && Lists(s.lists[key], c) ensures c in s.place && s.place[c].InList? { assert ListOk(s, key); }
  }

  /** No send made under the lock when the connection ends can block. */
  lemma EveryWaiterIsFree(s: Net)
    requires Valid(s)
    ensures AllFree(s)
  {
    forall call | call in s.tables ensures s.tables[call] in s.slots && s.slots[s.tables[call]] == [] {
      assert TableOk(s, call);
      assert ChannelOk(s, s.tables[call]);
    }
    forall key, i | key in s.lists && 0 <= i < |s.lists[key]|
      ensures s.lists[key][i].channel in s.slots && s.slots[s.lists[key][i].channel] == []
    {
      assert ListOk(s, key);
      assert ChannelOk(s, s.lists[key][i].channel);
    }
    forall a, b | a in s.tables && b in s.tables && a != b ensures s.tables[a] != s.tables[b] {
      assert TableOk(s, a) && TableOk(s, b);
    }
    forall key | key in s.lists ensures Distinct(s.lists[key]) { assert ListOk(s, key); }
    forall key, other | key in s.lists && other in s.lists && key != other
      ensures forall i | 0 <= i < |s.lists[key]| :: !Lists(s.lists[other], s.lists[key][i].channel)
    {
      assert ListOk(s, key) && ListOk(s, other);
    }
    forall call, key | call in s.tables && key in s.lists ensures !Lists(s.lists[key], s.tables[call]) {
      assert TableOk(s, call) && ListOk(s, key);
    }
  }

  lemma DisconnectKeepsValid(s: Net)
    requires Valid(s)
    ensures Valid(DisconnectStep(s))
  {
    EveryWaiterIsFree(s);
    hide AllFree, Registered;
    var t := DisconnectStep(s);
    forall c | c in t.place ensures ChannelOk(t, c) {
      assert ChannelOk(s, c);
      RegisteredPlaces(s, c);
    }
    forall i | 0 <= i < |s.sends| ensures !Registered(s, s.sends[i].channel) { RegisteredPlaces(s, s.sends[i].channel); }
  }

  lemma StepKeepsValid(s: Net, a: Act)
    requires Valid(s)
    ensures Valid(Step(s, a))
  {
    hide Valid, RegisterStep, AwaitStep, RespondStep, ArriveStep, EmitStep, DisconnectStep, WithdrawStep, WithdrawSnapshotStep, TakeStep;
    match a
    case Register(kind) => RegisterKeepsValid(s, kind);
    case Await(key, accept) => AwaitKeepsValid(s, key, accept);
    case Respond(id, payload) => RespondKeepsValid(s, id, payload);
    case Arrive(task, source, state, revision) => ArriveKeepsValid(s, task, source, state, revision);
    case Emit(index) => EmitKeepsValid(s, index);
    case Disconnect => DisconnectKeepsValid(s);
    case Withdraw(call) => WithdrawKeepsValid(s, call);
    case WithdrawSnapshot(key, channel) => WithdrawSnapshotKeepsValid(s, key, channel);
    case Take(channel) => TakeKeepsValid(s, channel);
  }

  lemma {:induction false} RunIsValid(acts: seq<Act>)
    ensures Valid(Run(acts))
  {
    if acts != [] {
      RunIsValid(acts[..|acts| - 1]);
      StepKeepsValid(Run(acts[..|acts| - 1]), acts[|acts| - 1]);
    }
  }

  // ----- What holds in every run --------------------------------------------------

  /** In every run no send, with or without the lock, has met a full channel. */
  lemma NoSendBlocks(acts: seq<Act>)
    ensures !Run(acts).blocked && AllFree(Run(acts))
    ensures forall i | 0 <= i < |Run(acts).sends| ::
              Run(acts).sends[i].channel in Run(acts).slots && Run(acts).slots[Run(acts).sends[i].channel] == []
  {
    RunIsValid(acts);
    EveryWaiterIsFree(Run(acts));
    var s := Run(acts);
    forall i | 0 <= i < |s.sends| ensures s.sends[i].channel in s.slots && s.slots[s.sends[i].channel] == [] {
      assert ChannelOk(s, s.sends[i].channel);
    }
  }

  /** In every run a waiter is registered at one place only, ids differ across the
      tables, and a taken-off waiter has at most one send to its name. */
  lemma OneRegistration(acts: seq<Act>, a: Call, b: Call, key: SnapshotKey, w: Waiter)
    requires a in Run(acts).tables
    ensures var s := Run(acts);
            && (b in s.tables && (a.id == b.id || s.tables[a] == s.tables[b]) ==> a == b)
            && (w in WaitersAt(s, key) ==> w.channel != s.tables[a])
            && (forall i | 0 <= i < |s.sends| :: s.sends[i].channel != s.tables[a] && (w in WaitersAt(s, key) ==> s.sends[i].channel != w.channel))
            && (forall i, j | 0 <= i < j < |s.sends| :: s.sends[i].channel != s.sends[j].channel)
  {
    RunIsValid(acts);
    var s := Run(acts);
    assert TableOk(s, a);
    if b in s.tables { assert TableOk(s, b); }
    if w in WaitersAt(s, key) { ListedPlace(s, key, w); }
  }

  /** What a caller can take from its channel is an answer to its own request. */
  lemma RepliesReachTheirCaller(acts: seq<Act>, channel: nat)
    requires channel in Run(acts).slots && Run(acts).slots[channel] != []
    ensures var s := Run(acts);
            |s.slots[channel]| == 1 && channel in s.origin && Answers(s.origin[channel], s.slots[channel][0])
  {
    RunIsValid(acts);
    assert ChannelOk(Run(acts), channel);
  }

  /** A caller that neither withdrew nor took its message is still going to be
      served: its channel is registered, a send to it is under way, or it is full. */
  lemma NoCallerIsForgotten(acts: seq<Act>, channel: nat)
    requires channel < Run(acts).nextChannel && channel in Run(acts).place
    requires !Run(acts).place[channel].Withdrawn? && !Run(acts).place[channel].Received?
    ensures var s := Run(acts);
            || Registered(s, channel)
            || (exists i :: 0 <= i < |s.sends| && s.sends[i].channel == channel)
            || (channel in s.slots && |s.slots[channel]| == 1)
  {
    RunIsValid(acts);
    var s := Run(acts);
    assert ChannelOk(s, channel);
    RegisteredPlaces(s, channel);
  }

  /** Places change only forwards: a channel leaves a table or list for a send, a
      full slot or a withdrawal, and each later place for the next. */
  predicate Forward(a: Place, b: Place) {
    || a == b
    || ((a.InTable? || a.InList?) && (b.Sending? || b.Withdrawn? || b == Buffered(Disconnected)))
    || (a.Sending? && b == Buffered(a.message))
    || (a.Buffered? && b == Received(a.message))
  }

  lemma ArrivalMovesForward(s: Net, task: TaskKey, source: string, state: string, revision: string, channel: nat)
    requires Valid(s) && channel in s.place
    ensures var t := ArriveStep(s, task, source, state, revision);
      channel in t.place && Forward(s.place[channel], t.place[channel])
  {
    var m := Snapshot(task, source, state, revision);
    PlaceAfterArrival(s, SnapshotKey(task, ""), m, channel);
    ArriveAtKeepsValid(s, SnapshotKey(task, ""), m);
    PlaceAfterArrival(ArriveAt(s, SnapshotKey(task, ""), m), SnapshotKey(task, source), m, channel);
    hide Valid, ArriveAt;
  }

  lemma StepMovesForward(s: Net, a: Act, channel: nat)
    requires Valid(s) && channel in s.place
    ensures channel in Step(s, a).place && Forward(s.place[channel], Step(s, a).place[channel])
  {
    assert ChannelOk(s, channel);
    hide SendsOk, AllFree, Matching, Remaining, Without;
    match a
    case Arrive(task, source, state, revision) => ArrivalMovesForward(s, task, source, state, revision, channel);
    case Disconnect => RegisteredPlaces(s, channel);
    case Respond(id, _) => if Find(s, id).Some? { assert TableOk(s, Find(s, id).value); }
    case Withdraw(call) => if call in s.tables { assert TableOk(s, call); }
    case WithdrawSnapshot(key, c) =>
      if Lists(WaitersAt(s, key), c) {
        var w := ListsWitness(WaitersAt(s, key), c);
        ListedPlace(s, key, w);
      }
    case _ =>
  }

  lemma PlacesMoveForward(acts: seq<Act>, a: Act, channel: nat)
    requires channel in Run(acts).place
    ensures var s, t := Run(acts), Run(acts + [a]);
            channel in t.place && Forward(s.place[channel], t.place[channel])
  {
    RunIsValid(acts);
    assert (acts + [a])[..|acts|] == acts;
    StepMovesForward(Run(acts), a, channel);
    hide Valid, Step;
  }
}

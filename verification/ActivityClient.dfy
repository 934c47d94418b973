/**
 The client object itself: its fields as the code updates them, one method per
 critical section, each proved to be a step of the observation-cache machine.
 */
module ActivityClientModel {
  import opened Prelude
  import opened Tasks
  import opened ObservationCache
  import P = ObservationCacheProofs
  import R = Revisions

  class ActivityClient {
    var connection: Option<nat>
    var generation: nat
    var owners: map<TaskKey, string>
    var cache: map<TaskKey, nat>
    var entries: map<nat, Entry>
    var pending: map<nat, Read>
    var nextRef: nat
    var nextLatch: nat
    var now: nat
    var hits: nat
    var fullReads: nat
    var subscribers: map<TaskKey, map<nat, bool>>
    ghost var histories: map<nat, History>

    ghost function Heap(): map<nat, Slot>
      reads this`entries, this`histories
    {
      map ref: nat | ref in entries && ref in histories :: Slot(entries[ref], histories[ref])
    }

    ghost function Abs(): State
      reads this
    {
      State(connection, generation, owners, cache, Heap(), pending, nextRef, nextLatch, now, hits, fullReads, subscribers)
    }

    ghost predicate Ok()
      reads this
    {
      entries.Keys == histories.Keys && Valid(Abs())
    }

    constructor ()
      ensures Ok() && Abs() == INITIAL
    {
      connection, generation, owners := None, 0, map[];
      cache, entries, histories, pending := map[], map[], map[], map[];
      nextRef, nextLatch, now, hits, fullReads, subscribers := 0, 0, 0, 0, 0, map[];
    }

    method Close()
      requires Ok()
      modifies this
      ensures Ok() && Abs() == Step(old(Abs()), Event.Close).0
    {
      P.RestKeepsValid(Abs(), EndConnection(Abs()));
      assert Step(Abs(), Event.Close).0 == EndConnection(Abs());
      hide Valid, Step;
      connection := None;
      owners := map[];
      generation := generation + 1;
    }

    method ConnectionEnded(conn: nat)
      requires Ok()
      modifies this
      ensures Ok() && Abs() == Step(old(Abs()), Event.ConnectionEnded(conn)).0
    {
      P.RestKeepsValid(Abs(), EndConnection(Abs()));
      hide Valid;
      if connection == Some(conn) {
        connection := None;
        owners := map[];
        generation := generation + 1;
      }
    }

    function CurrentOwner(key: TaskKey): string
      reads this
    {
      if key in owners then owners[key] else ""
    }

    /** Puts a new entry object in the cache for the task. */
    method NewEntry(key: TaskKey, forGeneration: nat)
      requires entries.Keys == histories.Keys
      modifies this`cache, this`entries, this`histories, this`nextRef
      ensures entries.Keys == histories.Keys
      ensures Abs() == Install(old(Abs()), key, forGeneration)
    {
      entries := entries[nextRef := Entry(NO_TARGET, forGeneration, 0, 0, 0, None)];
      histories := histories[nextRef := History(key, [], Unset)];
      cache := cache[key := nextRef];
      nextRef := nextRef + 1;
      assert Heap() == old(Heap())[old(nextRef) := NewSlot(key, forGeneration)];
    }

    /** Offers a wake token to every subscriber; a full channel keeps its token. */
    method Notify(key: TaskKey)
      modifies this`subscribers
      ensures Abs() == Wake(old(Abs()), key)
    {
      if key !in subscribers { return; }
      var channels := subscribers[key];
      var waiting := channels.Keys;
      var woken := channels;
      while waiting != {}
        invariant waiting <= channels.Keys && woken.Keys == channels.Keys
        invariant forall c | c in channels.Keys :: woken[c] == (c !in waiting || channels[c])
        decreases waiting
      {
        var c :| c in waiting;
        woken := woken[c := true];
        waiting := waiting - {c};
      }
      subscribers := subscribers[key := woken];
      assert woken == map c: nat | c in channels :: true;
    }

    /** Writes one entry, with the history that goes with it. */
    method Store(ref: nat, e: Entry, ghost h: History)
      requires entries.Keys == histories.Keys && ref in entries
      modifies this`entries, this`histories
      ensures entries.Keys == histories.Keys
      ensures Abs() == Put(old(Abs()), ref, Slot(e, h)) && entries == old(entries)[ref := e]
    {
      entries := entries[ref := e];
      histories := histories[ref := h];
      assert Heap() == old(Heap())[ref := Slot(e, h)];
    }

    /** The task's entry, replaced by a new object when it cannot take this source. */
    method EntryFor(key: TaskKey, source: string) returns (ref: nat)
      requires Ok()
      modifies this`cache, this`entries, this`histories, this`nextRef
      ensures Ok() && Abs() == Serve(old(Abs()), key, source)
      ensures Cached(Abs(), key) && ref == cache[key] && ref in entries
      ensures entries[ref].generation == generation && histories[ref].key == key
    {
      P.ServeKeepsValid(Abs(), key, source);
      hide SlotOk;
      if key in cache { assert CacheOk(Abs(), key); }
      if key !in cache || entries[cache[key]].generation != generation
         || (entries[cache[key]].target.owner != "" && entries[cache[key]].target.owner != source)
      {
        NewEntry(key, generation);
      }
      ref := cache[key];
    }

    /** Offers a trusted snapshot to an entry: a numerically older one is refused. */
    method Offer(ref: nat, threadID: string, d: Delivery) returns (accepted: bool)
      requires entries.Keys == histories.Keys && ref in entries
      requires entries[ref].generation == generation && histories[ref].key.threadID == threadID
      modifies this`entries, this`histories
      ensures entries.Keys == histories.Keys
      ensures var slot := Slot(old(entries[ref]), old(histories[ref]));
              && accepted == !Superseded(slot.entry, d)
              && Abs() == Put(old(Abs()), ref, Pushed(slot, d, now))
    {
      hide Put;
      var e := entries[ref];
      ghost var h := Pushed(Slot(e, histories[ref]), d, now).history;
      var order := R.Compare(d.revision, e.target.revision);
      if order.Some? && order.value <= 0 {
        Store(ref, e, h);
        return false;
      }
      var target := Target(generation, threadID, d.owner, d.source, d.revision, d.state);
      Store(ref, e.(target := target, pushes := e.pushes + 1, nextRead := now + MAX_SILENCE), h);
      return true;
    }

    method CachePushedObservation(key: TaskKey, state: Option<string>, source: string, revision: string) returns (accepted: bool)
      requires Ok()
      modifies this
      ensures Ok()
      ensures var d := Delivery(source, source, revision, state);
              (Abs(), if accepted then Accepted else Refused) == PushStep(old(Abs()), key, d)
    {
      ghost var d := Delivery(source, source, revision, state);
      P.PushKeepsValid(Abs(), key, d);
      if source == "" || CurrentOwner(key) != source { return false; }
      hide Valid, Serve, HeapOk, Put, Wake, Superseded, Pushed;
      var ref := EntryFor(key, source);
      accepted := Offer(ref, key.threadID, Delivery(source, source, revision, state));
      if accepted {
        Notify(key);
      }
    }

    method LearnOwner(key: TaskKey, owner: string)
      requires Ok()
      modifies this
      ensures Ok() && Abs() == Step(old(Abs()), Event.LearnOwner(key, owner)).0
    {
      P.RestKeepsValid(Abs(), Step(Abs(), Event.LearnOwner(key, owner)).0);
      hide Valid;
      if owner != "" {
        owners := owners[key := owner];
      }
    }

    /** The task's entry for a display read: made if missing, emptied if outdated. */
    method EntryForReading(key: TaskKey) returns (ref: nat)
      requires Ok()
      modifies this`cache, this`entries, this`histories, this`nextRef
      ensures Ok() && Abs() == Prepare(old(Abs()), key)
      ensures Cached(Abs(), key) && ref == cache[key] && ref in entries
    {
      P.PrepareKeepsValid(Abs(), key);
      if key in cache { assert CacheOk(Abs(), key); }
      hide Valid, Put, HeapOk;
      if key !in cache {
        NewEntry(key, 0);
      }
      ref := cache[key];
      var e := entries[ref];
      var owner := CurrentOwner(key);
      if e.loading.None? && (e.generation != generation || (e.target.owner != "" && e.target.owner != owner)) {
        Store(ref, e.(target := NO_TARGET, nextRead := 0, generation := generation, failures := 0),
              History(histories[ref].key, [], Unset));
      }
    }

    /** Answers a display read from its entry, or starts a full read. */
    method AnswerFrom(key: TaskKey, ref: nat) returns (reply: Reply)
      requires entries.Keys == histories.Keys && Cached(Abs(), key) && ref == cache[key] && ref in entries
      modifies this`entries, this`histories, this`pending, this`nextLatch, this`fullReads, this`hits
      ensures entries.Keys == histories.Keys
      ensures (Abs(), reply) == Answer(old(Abs()), key)
    {
      hide BeginRead;
      var e := entries[ref];
      var owner := CurrentOwner(key);
      var valid := connection.Some? && owner != "" && e.generation == generation && e.target.owner == owner && e.target.state.Some?;
      if e.loading.Some? {
        return Waiting(e.loading.value);
      }
      if now < e.nextRead {
        if valid {
          hits := hits + 1;
          return Found(e.target);
        }
        return Refused;
      }
      LatchEntry(key, ref);
      reply := Started(nextLatch - 1);
    }

    /** The first critical section of a display read: a cached answer, a latch to
        wait on, a refusal during back-off, or the start of a full read. */
    method BeginObservation(threadID: string) returns (reply: Reply)
      requires Ok()
      modifies this
      ensures Ok() && (Abs(), reply) == ObserveStep(old(Abs()), threadID)
    {
      P.ObserveKeepsValid(Abs(), threadID);
      hide Valid, Prepare, Answer;
      var ref := EntryForReading(LocalKey(threadID));
      reply := AnswerFrom(LocalKey(threadID), ref);
    }

    /** Starts the full read that the caller goes on to perform without the lock. */
    method LatchEntry(key: TaskKey, ref: nat)
      requires entries.Keys == histories.Keys && Cached(Abs(), key) && ref == cache[key] && ref in entries
      modifies this`entries, this`histories, this`pending, this`nextLatch, this`fullReads
      ensures entries.Keys == histories.Keys
      ensures Abs() == BeginRead(old(Abs()), key) && nextLatch == old(nextLatch) + 1
    {
      hide Valid;
      Store(ref, entries[ref].(loading := Some(nextLatch)), histories[ref]);
      pending := pending[nextLatch := Read(key, ref, generation, entries[ref].pushes)];
      nextLatch := nextLatch + 1;
      fullReads := fullReads + 1;
    }

    /** Writes back a full read that still counts; the cached target may stand. */
    method Refresh(read: Read, d: Delivery) returns (target: Target)
      requires entries.Keys == histories.Keys && read.ref in entries
      modifies this`entries, this`histories
      ensures entries.Keys == histories.Keys
      ensures var slot := Refreshed(Slot(old(entries[read.ref]), old(histories[read.ref])), read, d, now);
              Abs() == Put(old(Abs()), read.ref, slot) && target == slot.entry.target
    {
      hide Put;
      var e := entries[read.ref];
      ghost var h := Refreshed(Slot(e, histories[read.ref]), read, d, now).history;
      target := Target(0, read.key.threadID, d.owner, d.source, d.revision, d.state);
      if e.target.owner == d.owner && e.target.state.Some? {
        var order := R.Compare(d.revision, e.target.revision);
        if order.Some? {
          if order.value <= 0 { target := e.target; }
        } else if e.pushes > read.pushes {
          target := e.target;
        }
      }
      target := target.(epoch := read.generation);
      Store(read.ref, Entry(target, read.generation, now + MAX_SILENCE, 0, e.pushes, None), h);
    }

    method BackOff(ref: nat, hash: nat)
      requires entries.Keys == histories.Keys && ref in entries
      modifies this`entries, this`histories
      ensures entries.Keys == histories.Keys
      ensures Abs() == Put(old(Abs()), ref, BackedOff(Slot(old(entries[ref]), old(histories[ref])), now, hash))
    {
      hide Put;
      var e := entries[ref];
      ghost var h := BackedOff(Slot(e, histories[ref]), now, hash).history;
      Store(ref, e.(failures := e.failures + 1, nextRead := now + RetryDelay(e.failures + 1, hash), loading := None), h);
    }

    /** The last critical section: the full read is back, and releases its latch. */
    method EndObservation(latch: nat, result: Option<Delivery>, hash: nat) returns (reply: Reply)
      requires Ok() && latch in pending
      modifies this
      ensures Ok() && (Abs(), reply) == FinishReadStep(old(Abs()), latch, result, hash)
    {
      P.FinishReadKeepsValid(Abs(), latch, result, hash);
      assert ReadOk(Abs(), latch);
      hide Valid, Put, Refreshed, BackedOff;
      var read := pending[latch];
      pending := pending - {latch};
      if result.Some? && result.value.owner != "" && read.generation == generation && connection.Some?
         && CurrentOwner(read.key) == result.value.owner
      {
        var target := Refresh(read, result.value);
        return Found(target);
      }
      BackOff(read.ref, hash);
      reply := Refused;
    }

    method AddChannel(key: TaskKey, channel: nat)
      modifies this`subscribers
      ensures Abs() == SubscribeStep(old(Abs()), key, channel)
    {
      if key !in subscribers {
        subscribers := subscribers[key := map[]];
      }
      var channels: map<nat, bool> := subscribers[key][channel := false];
      subscribers := subscribers[key := channels];
    }

    method RemoveChannel(key: TaskKey, channel: nat)
      modifies this`subscribers
      ensures Abs() == UnsubscribeStep(old(Abs()), key, channel)
    {
      if key !in subscribers { return; }
      subscribers := subscribers[key := subscribers[key] - {channel}];
      if subscribers[key] == map[] {
        subscribers := subscribers - {key};
        assert subscribers == old(subscribers) - {key};
      }
    }

    /** Subscribing hands the caller a one-slot channel with no token in it. */
    method SubscribeConversation(threadID: string, channel: nat)
      requires Ok()
      modifies this`subscribers
      ensures Ok() && Abs() == SubscribeStep(old(Abs()), LocalKey(threadID), channel)
    {
      P.RestKeepsValid(Abs(), SubscribeStep(Abs(), LocalKey(threadID), channel));
      hide Valid, SubscribeStep;
      AddChannel(LocalKey(threadID), channel);
    }

    method CancelSubscription(threadID: string, channel: nat)
      requires Ok()
      modifies this`subscribers
      ensures Ok() && Abs() == UnsubscribeStep(old(Abs()), LocalKey(threadID), channel)
    {
      P.RestKeepsValid(Abs(), UnsubscribeStep(Abs(), LocalKey(threadID), channel));
      hide Valid, UnsubscribeStep;
      RemoveChannel(LocalKey(threadID), channel);
    }
  }
}

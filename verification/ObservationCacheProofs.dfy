/**
 What holds of the observation cache in every run: entries stay sound, answers
 are current, slow reads never undo pushes, wake tokens are not lost; and, by
 concrete runs, where these guarantees end.
 */
module ObservationCacheProofs {
  import opened Prelude
  import opened Tasks
  import opened ObservationCache
  import R = Revisions

  // ----- Logs ---------------------------------------------------------------

  lemma NewestOfOne(d: Delivery)
    requires Orderable([d])
    ensures Newest([d], d)
  {
    assert [d][0] == d;
  }

  /** Appending a delivery moves the newest one exactly when its revision is higher. */
  lemma NewestAppend(log: seq<Delivery>, best: Delivery, d: Delivery)
    requires Orderable(log + [d])
    ensures Orderable(log) && R.IsDecimal(d.revision) && d.state.Some?
    ensures Newest(log, best) ==>
              && R.IsDecimal(best.revision) && best.state.Some?
              && Newest(log + [d], if R.Value(d.revision) > R.Value(best.revision) then d else best)
  {
    var longer := log + [d];
    assert forall i | 0 <= i < |log| :: longer[i] == log[i];
    assert longer[|log|] == d;
    if Newest(log, best) {
      var k :| 0 <= k < |log| && log[k] == best
        && (forall i | 0 <= i < |log| :: R.Value(log[i].revision) <= R.Value(best.revision))
        && (forall i | 0 <= i < k :: R.Value(log[i].revision) < R.Value(best.revision));
      if R.Value(d.revision) > R.Value(best.revision) {
        assert longer[|log|] == d;
      } else {
        assert longer[k] == best;
      }
    }
  }

  /** The same, through the text comparison that the code performs. */
  lemma LogGrows(slot: Slot, d: Delivery)
    requires SlotOk(slot) && slot.entry.target.owner == d.owner && d.owner != ""
    ensures Orderable(slot.history.log + [d]) ==>
              var order := R.Compare(d.revision, slot.entry.target.revision);
              && slot.entry.target.state.Some? && order.Some?
              && Newest(slot.history.log + [d], if order.value > 0 then d else AsDelivery(slot.entry.target))
  {
    if Orderable(slot.history.log + [d]) {
      NewestAppend(slot.history.log, AsDelivery(slot.entry.target), d);
      R.CompareIsNumeric(d.revision, slot.entry.target.revision);
    }
  }

  // ----- Entries stay sound -------------------------------------------------

  lemma PushedIsOk(slot: Slot, d: Delivery, now: nat)
    requires SlotOk(slot) && d.owner != "" && (slot.entry.target.owner == "" || slot.entry.target.owner == d.owner)
    ensures SlotOk(Pushed(slot, d, now))
  {
    R.CompareIsNumeric(d.revision, slot.entry.target.revision);
    if slot.entry.target.owner == "" {
      assert slot.history.log + [d] == [d];
      if Orderable([d]) { NewestOfOne(d); }
    } else {
      LogGrows(slot, d);
    }
  }

  lemma RefreshedIsOk(slot: Slot, read: Read, d: Delivery, now: nat)
    requires SlotOk(slot) && d.owner != "" && read.key == slot.history.key
    ensures SlotOk(Refreshed(slot, read, d, now))
  {
    if slot.entry.target.owner == d.owner {
      LogGrows(slot, d);
    } else if Orderable([d]) {
      NewestOfOne(d);
    }
  }

  lemma LatchedIsOk(slot: Slot, latch: nat)
    requires SlotOk(slot)
    ensures SlotOk(Latched(slot, latch))
  {
  }

  lemma BackedOffIsOk(slot: Slot, now: nat, hash: nat)
    requires SlotOk(slot)
    ensures SlotOk(BackedOff(slot, now, hash))
  {
  }

  // ----- Preservation -------------------------------------------------------

  /** Changing the content of one entry, not its latch. */
  lemma PutKeepsValid(s: State, ref: nat, slot: Slot)
    requires Valid(s) && ref in s.heap && SlotOk(slot) && slot.history.key == s.heap[ref].history.key
    requires slot.entry.loading == s.heap[ref].entry.loading && slot.entry.pushes >= s.heap[ref].entry.pushes
    requires slot.entry.generation <= s.generation
    requires slot.entry.loading.Some? ==> slot.entry.generation == s.heap[ref].entry.generation
    ensures Valid(Put(s, ref, slot))
  {
    hide SlotOk;
    var t := Put(s, ref, slot);
    assert HeapOk(s, ref);
    forall r | r in t.heap ensures HeapOk(t, r) { assert HeapOk(s, r); }
    forall latch | latch in t.pending ensures ReadOk(t, latch) { assert ReadOk(s, latch); }
  }

  lemma InstallKeepsValid(s: State, key: TaskKey, generation: nat)
    requires Valid(s) && generation <= s.generation
    ensures Valid(Install(s, key, generation))
  {
    assert SlotOk(NewSlot(key, generation));
    hide SlotOk;
    var t := Install(s, key, generation);
    assert s.nextRef in s.heap ==> HeapOk(s, s.nextRef);
    forall ref | ref in t.heap ensures HeapOk(t, ref) { assert ref in s.heap ==> HeapOk(s, ref); }
    forall latch | latch in t.pending ensures ReadOk(t, latch) { assert ReadOk(s, latch); }
    forall k | k in t.cache ensures CacheOk(t, k) { assert k in s.cache ==> CacheOk(s, k); }
  }

  /** Everything the invariant does not mention, and a growing generation. */
  lemma RestKeepsValid(s: State, t: State)
    requires Valid(s) && t.generation >= s.generation
    requires t.cache == s.cache && t.heap == s.heap && t.pending == s.pending && t.nextRef == s.nextRef && t.nextLatch == s.nextLatch
    ensures Valid(t)
  {
    hide SlotOk;
    forall ref | ref in t.heap ensures HeapOk(t, ref) { assert HeapOk(s, ref); }
    forall latch | latch in t.pending ensures ReadOk(t, latch) { assert ReadOk(s, latch); }
    forall k | k in t.cache ensures CacheOk(t, k) { assert CacheOk(s, k); }
  }

  lemma ServeKeepsValid(s: State, key: TaskKey, source: string)
    requires Valid(s)
    ensures var t := Serve(s, key, source);
            && Valid(t) && Serves(t, key, source) && SlotOf(t, key).history.key == key && HeapOk(t, t.cache[key])
            && t.generation == s.generation && t.now == s.now && t.subscribers == s.subscribers
  {
    hide SlotOk;
    if !Serves(s, key, source) { InstallKeepsValid(s, key, s.generation); }
    assert CacheOk(Serve(s, key, source), key);
  }

  lemma PushKeepsValid(s: State, key: TaskKey, d: Delivery)
    requires Valid(s)
    ensures Valid(PushStep(s, key, d).0)
  {
    if d.owner != "" && Owner(s, key) == d.owner {
      ServeKeepsValid(s, key, d.owner);
      var t := Serve(s, key, d.owner);
      var slot := Pushed(SlotOf(t, key), d, s.now);
      var u := Put(t, t.cache[key], slot);
      assert PushStep(s, key, d).0 == u || PushStep(s, key, d).0 == Wake(u, key);
      hide PushStep, Valid;
      PushedIsOk(SlotOf(t, key), d, s.now);
      hide SlotOk, Serve;
      PutKeepsValid(t, t.cache[key], slot);
      hide Put, Pushed;
      RestKeepsValid(u, Wake(u, key));
    }
  }

  lemma PrepareKeepsValid(s: State, key: TaskKey)
    requires Valid(s)
    ensures var t := Prepare(s, key);
            && Valid(t) && Cached(t, key) && SlotOf(t, key).history.key == key && HeapOk(t, t.cache[key])
            && (SlotOf(t, key).entry.loading.None? ==>
                  && SlotOf(t, key).entry.generation == s.generation
                  && (SlotOf(t, key).entry.target.owner == "" || SlotOf(t, key).entry.target.owner == Owner(s, key)))
  {
    var t := if Cached(s, key) then s else Install(s, key, 0);
    if !Cached(s, key) { InstallKeepsValid(s, key, 0); }
    assert CacheOk(t, key);
    if Outdated(SlotOf(t, key).entry, s.generation, Owner(s, key)) {
      assert SlotOk(Emptied(SlotOf(t, key), s.generation));
      hide SlotOk;
      PutKeepsValid(t, t.cache[key], Emptied(SlotOf(t, key), s.generation));
    }
  }

  /** An idle entry of the current generation takes the latch of a new full read. */
  lemma BeginReadKeepsValid(s: State, key: TaskKey)
    requires Valid(s) && Cached(s, key)
    requires SlotOf(s, key).entry.loading.None? && SlotOf(s, key).entry.generation == s.generation
    ensures Valid(BeginRead(s, key))
  {
    hide SlotOk;
    var ref := s.cache[key];
    var t := BeginRead(s, key);
    assert CacheOk(s, key) && HeapOk(s, ref);
    LatchedIsOk(s.heap[ref], s.nextLatch);
    assert s.nextLatch in s.pending ==> ReadOk(s, s.nextLatch);
    forall r | r in t.heap ensures HeapOk(t, r) { assert HeapOk(s, r); }
    forall latch | latch in t.pending ensures ReadOk(t, latch) { assert latch in s.pending ==> ReadOk(s, latch); }
    forall k | k in t.cache ensures CacheOk(t, k) { assert CacheOk(s, k); }
  }

  lemma ObserveKeepsValid(s: State, threadID: string)
    requires Valid(s)
    ensures Valid(ObserveStep(s, threadID).0)
  {
    hide SlotOk;
    var key := LocalKey(threadID);
    PrepareKeepsValid(s, key);
    var t := Prepare(s, key);
    var u := ObserveStep(s, threadID).0;
    if ObserveStep(s, threadID).1.Started? {
      BeginReadKeepsValid(t, key);
    } else {
      RestKeepsValid(t, u);
    }
  }

  /** The read holding the latch releases it and writes its entry. */
  lemma ReleaseKeepsValid(s: State, latch: nat, slot: Slot)
    requires Valid(s) && latch in s.pending && s.pending[latch].ref in s.heap && SlotOk(slot)
    requires slot.entry.loading.None? && slot.entry.generation == s.heap[s.pending[latch].ref].entry.generation
    requires slot.history.key == s.heap[s.pending[latch].ref].history.key
    ensures Valid(Put(s.(pending := s.pending - {latch}), s.pending[latch].ref, slot))
  {
    hide SlotOk;
    var t := Put(s.(pending := s.pending - {latch}), s.pending[latch].ref, slot);
    assert ReadOk(s, latch) && HeapOk(s, s.pending[latch].ref);
    forall r | r in t.heap ensures HeapOk(t, r) { assert HeapOk(s, r); }
    forall l | l in t.pending ensures ReadOk(t, l) { assert ReadOk(s, l); }
    forall k | k in t.cache ensures CacheOk(t, k) { assert CacheOk(s, k); }
  }

  lemma FinishReadKeepsValid(s: State, latch: nat, result: Option<Delivery>, hash: nat)
    requires Valid(s)
    ensures Valid(FinishReadStep(s, latch, result, hash).0)
  {
    if latch in s.pending {
      var read := s.pending[latch];
      assert ReadOk(s, latch);
      assert HeapOk(s, read.ref);
      var slot := s.heap[read.ref];
      if StillCounts(s, read, result) {
        RefreshedIsOk(slot, read, result.value, s.now);
        ReleaseKeepsValid(s, latch, Refreshed(slot, read, result.value, s.now));
      } else {
        BackedOffIsOk(slot, s.now, hash);
        ReleaseKeepsValid(s, latch, BackedOff(slot, s.now, hash));
      }
    }
  }

  lemma StepKeepsValid(s: State, e: Event)
    requires Valid(s)
    ensures Valid(Step(s, e).0)
  {
    hide Valid, PushStep, ObserveStep, FinishReadStep;
    match e
    case Push(key, state, source, revision) => PushKeepsValid(s, key, Delivery(source, source, revision, state));
    case Observe(threadID) => ObserveKeepsValid(s, threadID);
    case FinishRead(latch, result, hash) => FinishReadKeepsValid(s, latch, result, hash);
    case _ => RestKeepsValid(s, Step(s, e).0);
  }

  /** Every state that a run can reach is valid. */
  lemma {:induction false} RunIsValid(events: seq<Event>)
    ensures Valid(Run(events))
  {
    if events != [] {
      RunIsValid(events[..|events| - 1]);
      StepKeepsValid(Run(events[..|events| - 1]), events[|events| - 1]);
    }
  }

  // ----- How entries evolve ---------------------------------------------------

  /** The entry starts over: another generation, or another owner than it had. */
  predicate Restarted(a: Slot, b: Slot) {
    || a.entry.generation != b.entry.generation
    || (a.entry.target.owner != "" && a.entry.target.owner != b.entry.target.owner)
  }

  /** Two snapshots the cache can order. */
  predicate Ordered(a: Target, b: Target) {
    R.IsDecimal(a.revision) && R.IsDecimal(b.revision) && a.state.Some?
  }

  /** The log grows by exactly what arrived, restarting only with the entry, and
      until then no snapshot gives way to one of a lower or equal revision. */
  ghost predicate Evolves(a: Slot, b: Slot, arrived: Option<Delivery>) {
    && b.history.key == a.history.key
    && b.history.log == (if Restarted(a, b) then [] else a.history.log) + (if arrived.Some? then [arrived.value] else [])
    && (!Restarted(a, b) && Ordered(a.entry.target, b.entry.target) && a.entry.target != b.entry.target ==>
          R.Value(a.entry.target.revision) < R.Value(b.entry.target.revision))
  }

  lemma PushedEvolves(slot: Slot, d: Delivery, now: nat)
    requires SlotOk(slot) && d.owner != "" && (slot.entry.target.owner == "" || slot.entry.target.owner == d.owner)
    ensures Evolves(slot, Pushed(slot, d, now), Some(d))
  {
    R.CompareIsNumeric(d.revision, slot.entry.target.revision);
  }

  lemma RefreshedEvolves(slot: Slot, read: Read, d: Delivery, now: nat)
    requires SlotOk(slot) && d.owner != "" && read.generation == slot.entry.generation
    ensures Evolves(slot, Refreshed(slot, read, d, now), Some(d))
  {
    R.CompareIsNumeric(d.revision, slot.entry.target.revision);
  }

  /** The snapshot, if any, that an event delivers to an entry. */
  function Arrived(s: State, e: Event, ref: nat): Option<Delivery> {
    match e
    case Push(key, state, source, revision) =>
      if source != "" && Owner(s, key) == source && Serves(s, key, source) && s.cache[key] == ref
      then Some(Delivery(source, source, revision, state)) else None
    case FinishRead(latch, result, _) =>
      if latch in s.pending && s.pending[latch].ref == ref && StillCounts(s, s.pending[latch], result) then result else None
    case _ => None
  }

  /** Emptying an outdated entry and latching it deliver nothing. */
  lemma EmptiedEvolves(slot: Slot, generation: nat, owner: string, latch: nat)
    requires SlotOk(slot) && Outdated(slot.entry, generation, owner)
    ensures Evolves(slot, Emptied(slot, generation), None)
    ensures Evolves(slot, Latched(Emptied(slot, generation), latch), None)
  {
  }

  lemma UntouchedEvolves(slot: Slot, latch: nat)
    ensures Evolves(slot, slot, None) && Evolves(slot, Latched(slot, latch), None)
  {
  }

  lemma PushEvolves(s: State, key: TaskKey, d: Delivery, ref: nat)
    requires Valid(s) && ref in s.heap
    ensures var t := PushStep(s, key, d).0;
            && ref in t.heap
            && Evolves(s.heap[ref], t.heap[ref],
                       if d.owner != "" && Owner(s, key) == d.owner && Serves(s, key, d.owner) && s.cache[key] == ref
                       then Some(d) else None)
  {
    hide Evolves, SlotOk, Pushed;
    assert HeapOk(s, ref);
    UntouchedEvolves(s.heap[ref], 0);
    if d.owner != "" && Owner(s, key) == d.owner && Serves(s, key, d.owner) {
      assert HeapOk(s, s.cache[key]);
      PushedEvolves(SlotOf(s, key), d, s.now);
    }
  }

  lemma FinishReadEvolves(s: State, latch: nat, result: Option<Delivery>, hash: nat, ref: nat)
    requires Valid(s) && ref in s.heap
    ensures var t := FinishReadStep(s, latch, result, hash).0;
            && ref in t.heap
            && Evolves(s.heap[ref], t.heap[ref], Arrived(s, FinishRead(latch, result, hash), ref))
  {
    if latch in s.pending {
      assert ReadOk(s, latch);
      assert HeapOk(s, s.pending[latch].ref);
      if StillCounts(s, s.pending[latch], result) {
        RefreshedEvolves(s.heap[s.pending[latch].ref], s.pending[latch], result.value, s.now);
      }
    }
  }

  lemma PrepareTouches(s: State, key: TaskKey, ref: nat)
    requires Valid(s) && ref in s.heap
    ensures var t := Prepare(s, key);
            && ref in t.heap
            && (|| t.heap[ref] == s.heap[ref]
                || (Outdated(s.heap[ref].entry, s.generation, Owner(s, key)) && t.heap[ref] == Emptied(s.heap[ref], s.generation)))
  {
    hide SlotOk, Emptied, Outdated;
    assert HeapOk(s, ref);
  }

  lemma ObserveTouches(s: State, threadID: string, ref: nat)
    ensures var t, u := Prepare(s, LocalKey(threadID)), ObserveStep(s, threadID).0;
            ref in t.heap ==>
              && ref in u.heap
              && (u.heap[ref] == t.heap[ref] || u.heap[ref] == Latched(t.heap[ref], s.nextLatch))
  {
    PrepareKeepsRest(s, LocalKey(threadID));
    hide Latched;
  }

  lemma ObserveEvolves(s: State, threadID: string, ref: nat)
    requires Valid(s) && ref in s.heap
    ensures var t := ObserveStep(s, threadID).0;
            ref in t.heap && Evolves(s.heap[ref], t.heap[ref], None)
  {
    assert SlotOk(s.heap[ref]) by { assert HeapOk(s, ref); }
    var key := LocalKey(threadID);
    PrepareTouches(s, key, ref);
    ObserveTouches(s, threadID, ref);
    hide *;
    UntouchedEvolves(s.heap[ref], s.nextLatch);
    if Outdated(s.heap[ref].entry, s.generation, Owner(s, key)) {
      EmptiedEvolves(s.heap[ref], s.generation, Owner(s, key), s.nextLatch);
    }
  }

  // ----- What holds in every run ---------------------------------------------

  /** In every run, for every task: the cached target is the first snapshot of the
      highest revision among all those delivered to its entry since the entry's
      generation and owner last changed (if those were decimal and had a state). */
  lemma CacheHoldsNewest(events: seq<Event>, key: TaskKey)
    requires key in Run(events).cache
    ensures var s := Run(events);
            && Cached(s, key)
            && var e, h := SlotOf(s, key).entry, SlotOf(s, key).history;
            && h.key == key
            && (e.target == NO_TARGET <==> h.log == [])
            && (h.log != [] ==>
                  && e.target.epoch == e.generation && e.target.threadID == key.threadID
                  && (forall i | 0 <= i < |h.log| :: h.log[i].owner == e.target.owner)
                  && (Orderable(h.log) ==> Newest(h.log, AsDelivery(e.target))))
  {
    RunIsValid(events);
    assert CacheOk(Run(events), key);
    assert HeapOk(Run(events), Run(events).cache[key]);
  }

  /** In every run, each event grows each entry's log by exactly the snapshot it
      brings, and never lets an older snapshot replace a newer one: a slow full
      read cannot undo a push. */
  lemma EveryStepEvolves(events: seq<Event>, e: Event, ref: nat)
    requires ref in Run(events).heap
    ensures var s, t := Run(events), Run(events + [e]);
            ref in t.heap && Evolves(s.heap[ref], t.heap[ref], Arrived(s, e, ref))
  {
    RunIsValid(events);
    var s := Run(events);
    assert (events + [e])[..|events|] == events;
    hide Evolves, Valid;
    match e
    case Push(key, state, source, revision) => PushEvolves(s, key, Delivery(source, source, revision, state), ref);
    case FinishRead(latch, result, hash) => FinishReadEvolves(s, latch, result, hash, ref);
    case Observe(threadID) => ObserveEvolves(s, threadID, ref);
    case _ => UntouchedEvolves(s.heap[ref], 0);
  }

  ghost predicate Current(s: State, key: TaskKey, target: Target) {
    && s.connection.Some? && target.epoch == s.generation
    && target.owner != "" && target.owner == Owner(s, key) && target.threadID == key.threadID
  }

  lemma CachedAnswerIsCurrent(s: State, threadID: string)
    requires Valid(s) && ObserveStep(s, threadID).1.Found?
    ensures var key, t, target := LocalKey(threadID), ObserveStep(s, threadID).0, ObserveStep(s, threadID).1.target;
            Current(s, key, target) && Cached(t, key) && SlotOf(t, key).entry.target == target
  {
    var key := LocalKey(threadID);
    PrepareKeepsValid(s, key);
    PrepareKeepsRest(s, key);
    hide Prepare;
  }

  lemma ReadAnswerIsCurrent(s: State, latch: nat, result: Option<Delivery>, hash: nat)
    requires Valid(s) && FinishReadStep(s, latch, result, hash).1.Found?
    ensures latch in s.pending
    ensures var t, target := FinishReadStep(s, latch, result, hash).0, FinishReadStep(s, latch, result, hash).1.target;
            && Current(s, s.pending[latch].key, target)
            && s.pending[latch].ref in t.heap && t.heap[s.pending[latch].ref].entry.target == target
            && t.cache == s.cache
  {
    assert ReadOk(s, latch);
    assert HeapOk(s, s.pending[latch].ref);
  }

  /** Every observation handed out, from the cache or from a full read, is about
      the requested task and belongs to the live connection, the current
      generation and the task's current owner. It is the snapshot the cache now
      holds, unless a full read comes back to an entry that a push has replaced. */
  lemma ObservationIsCurrent(events: seq<Event>, e: Event)
    requires Step(Run(events), e).1.Found?
    ensures e.Observe? || (e.FinishRead? && e.latch in Run(events).pending)
    ensures var s, t, target := Run(events), Step(Run(events), e).0, Step(Run(events), e).1.target;
            var key := if e.Observe? then LocalKey(e.threadID) else s.pending[e.latch].key;
            && Current(s, key, target)
            && (e.Observe? || (Cached(s, key) && s.cache[key] == s.pending[e.latch].ref) ==>
                  Cached(t, key) && SlotOf(t, key).entry.target == target)
  {
    RunIsValid(events);
    hide Valid, PushStep, ObserveStep, FinishReadStep, Current;
    match e
    case Observe(threadID) => CachedAnswerIsCurrent(Run(events), threadID);
    case FinishRead(latch, result, hash) => ReadAnswerIsCurrent(Run(events), latch, result, hash);
    case Push(key, state, source, revision) => PushAnswersNobody(Run(events), key, Delivery(source, source, revision, state));
    case _ =>
  }

  // ----- Exactly when a snapshot gives way ---------------------------------------

  predicate Decimals(d: Delivery, t: Target) {
    R.IsDecimal(d.revision) && R.IsDecimal(t.revision)
  }

  /**
   A snapshot of the same owner that is not newer replaces a cached one exactly when a
   full read brings it and the cached one has no state. A push never does this.
   */
  lemma OlderReplaces(events: seq<Event>, e: Event, ref: nat)
    requires ref in Run(events).heap && Arrived(Run(events), e, ref).Some?
    requires var d, target := Arrived(Run(events), e, ref).value, Run(events).heap[ref].entry.target;
      target.owner == d.owner && Decimals(d, target) && R.Value(d.revision) <= R.Value(target.revision)
    ensures var d, target := Arrived(Run(events), e, ref).value, Run(events).heap[ref].entry.target;
      && ref in Step(Run(events), e).0.heap
      && AsDelivery(Step(Run(events), e).0.heap[ref].entry.target)
        == if e.FinishRead? && target.state.None? then d else AsDelivery(target)
  {
    var s := Run(events);
    var d, target := Arrived(s, e, ref).value, s.heap[ref].entry.target;
    RunIsValid(events);
    assert HeapOk(s, ref);
    R.CompareIsNumeric(d.revision, target.revision);
    hide Run, R.Compare, R.IsDecimal, R.Value;
  }

  /**
   A snapshot of the same owner that cannot be compared replaces the cached one when it
   is pushed, and from a full read unless a push with a state came while it was read.
   */
  lemma UnorderedReplaces(events: seq<Event>, e: Event, ref: nat)
    requires ref in Run(events).heap && Arrived(Run(events), e, ref).Some?
    requires var d, target := Arrived(Run(events), e, ref).value, Run(events).heap[ref].entry.target;
      target.owner == d.owner && !Decimals(d, target)
    ensures var s := Run(events);
      var d, entry := Arrived(s, e, ref).value, s.heap[ref].entry;
      && ref in Step(s, e).0.heap
      && AsDelivery(Step(s, e).0.heap[ref].entry.target)
        == if e.Push? || entry.target.state.None? || entry.pushes <= s.pending[e.latch].pushes then d else AsDelivery(entry.target)
  {
    var s := Run(events);
    var d, target := Arrived(s, e, ref).value, s.heap[ref].entry.target;
    RunIsValid(events);
    assert HeapOk(s, ref);
    R.CompareIsNumeric(d.revision, target.revision);
    hide Run, R.Compare, R.IsDecimal, R.Value;
  }

  /** Both can be compared, are of one owner, and the first is older. */
  predicate Older(a: Target, b: Target) {
    a.owner == b.owner && R.IsDecimal(a.revision) && R.IsDecimal(b.revision) && R.Value(a.revision) < R.Value(b.revision)
  }

  /** A snapshot that the read's own entry has, and that may stand against the one it brings. */
  predicate Stands(e: Entry, d: Delivery) {
    e.target.owner == d.owner && e.target.state.Some?
  }

  /**
   A full read answers with something older than the cache exactly when its entry was
   replaced, and both what it brings and what that entry still had are older.
   */
  lemma OlderAnswer(events: seq<Event>, latch: nat, d: Delivery, hash: nat)
    requires latch in Run(events).pending && StillCounts(Run(events), Run(events).pending[latch], Some(d))
    requires Cached(Run(events), Run(events).pending[latch].key)
    requires var s := Run(events);
      R.IsDecimal(d.revision) && (s.pending[latch].ref in s.heap && Stands(s.heap[s.pending[latch].ref].entry, d) ==>
        R.IsDecimal(s.heap[s.pending[latch].ref].entry.target.revision))
    ensures var s := Run(events);
      var read, t, reply := s.pending[latch], Step(s, FinishRead(latch, Some(d), hash)).0, Step(s, FinishRead(latch, Some(d), hash)).1;
      && read.ref in s.heap && Cached(t, read.key) && reply.Found?
      && var cached, own := SlotOf(t, read.key).entry.target, s.heap[read.ref].entry;
        Older(reply.target, cached) <==>
          && s.cache[read.key] != read.ref
          && cached.owner == d.owner && R.IsDecimal(cached.revision) && R.Value(d.revision) < R.Value(cached.revision)
          && (Stands(own, d) ==> R.Value(own.target.revision) < R.Value(cached.revision))
  {
    var s := Run(events);
    RunIsValid(events);
    assert ReadOk(s, latch);
    var read := s.pending[latch];
    R.CompareIsNumeric(d.revision, s.heap[read.ref].entry.target.revision);
    hide Run, R.Compare, R.IsDecimal, R.Value;
  }

  // ----- What an observation comes to -----------------------------------------------

  /** The task's entry, when there is one that somebody reads. */
  predicate IsLatched(s: State, key: TaskKey) {
    Cached(s, key) && SlotOf(s, key).entry.loading.Some?
  }

  /** The task has an entry of this generation and, if it holds anything, of this owner. */
  predicate IsCurrentEntry(s: State, key: TaskKey) {
    && Cached(s, key) && SlotOf(s, key).entry.generation == s.generation
    && SlotOf(s, key).entry.target.owner in {"", if key in s.owners then s.owners[key] else ""}
  }

  /** Nothing keeps a reader back: the task has no current entry, or its next read is due. */
  predicate IsDue(s: State, key: TaskKey) {
    IsCurrentEntry(s, key) ==> SlotOf(s, key).entry.nextRead <= s.now
  }

  /** The task's entry holds a snapshot with a state, from its owner on the live connection. */
  predicate HoldsSnapshot(s: State, key: TaskKey) {
    && s.connection.Some? && IsCurrentEntry(s, key) && key in s.owners && s.owners[key] != ""
    && SlotOf(s, key).entry.target.owner == s.owners[key] && SlotOf(s, key).entry.target.state != None
  }

  /**
   In every run an observation waits exactly when the task's entry is being read; of
   idle entries it reads exactly what is due, finds exactly a held snapshot that is not
   due, and is refused otherwise.
   */
  lemma ObserveDecides(events: seq<Event>, threadID: string)
    ensures var s, reply, key := Run(events), Step(Run(events), Observe(threadID)).1, LocalKey(threadID);
      && (reply.Waiting? <==> IsLatched(s, key))
      && (reply.Started? <==> !IsLatched(s, key) && IsDue(s, key))
      && (reply.Found? <==> !IsLatched(s, key) && !IsDue(s, key) && HoldsSnapshot(s, key))
      && (reply.Refused? <==> !IsLatched(s, key) && !IsDue(s, key) && !HoldsSnapshot(s, key))
      && (reply.Found? ==> reply.target == SlotOf(s, key).entry.target && reply.target.state.Some?)
  {
    var s, key := Run(events), LocalKey(threadID);
    hide Run;
  }

  /**
   After an accepted push with a state, as long as connection, generation, owner and
   entry stay and the silence limit has not passed, an observation finds exactly that
   snapshot and reads nothing.
   */
  lemma FreshSnapshotIsServed(before: seq<Event>, later: seq<Event>, threadID: string, state: string, source: string, revision: string)
    requires var s, push := Run(before), Push(LocalKey(threadID), Some(state), source, revision);
      Step(s, push).1.Accepted? && !IsLatched(Step(s, push).0, LocalKey(threadID))
    requires var s, key := Run(before), LocalKey(threadID);
      var p, t := Step(s, Push(key, Some(state), source, revision)).0, Run(before + [Push(key, Some(state), source, revision)] + later);
      && Cached(p, key) && Cached(t, key) && SlotOf(t, key).entry == SlotOf(p, key).entry
      && t.connection.Some? && t.generation == s.generation && Owner(t, key) == source && t.now < s.now + 5000
    ensures var t := Run(before + [Push(LocalKey(threadID), Some(state), source, revision)] + later);
      && Step(t, Observe(threadID)).1 == Found(Target(Run(before).generation, threadID, source, source, revision, Some(state)))
      && Step(t, Observe(threadID)).0.pending == t.pending && Step(t, Observe(threadID)).0.fullReads == t.fullReads
  {
    var key := LocalKey(threadID);
    var push := Push(key, Some(state), source, revision);
    PushedEntry(before, key, Some(state), source, revision);
    var t := Run(before + [push] + later);
    hide Run, PushStep;
    assert IsCurrentEntry(t, key);
  }

  /** What an accepted push leaves in the task's entry. */
  lemma PushedEntry(events: seq<Event>, key: TaskKey, state: Option<string>, source: string, revision: string)
    requires Step(Run(events), Push(key, state, source, revision)).1.Accepted?
    ensures var s, t := Run(events), Step(Run(events), Push(key, state, source, revision)).0;
      && source != "" && key in s.owners && s.owners[key] == source && t.owners == s.owners
      && Cached(t, key) && SlotOf(t, key).entry.generation == s.generation
      && SlotOf(t, key).entry.target == Target(s.generation, key.threadID, source, source, revision, state)
      && SlotOf(t, key).entry.nextRead == s.now + 5000
      && SlotOf(t, key).entry.pushes > 0
  {
    var s := Run(events);
    RunIsValid(events);
    ServeKeepsValid(s, key, source);
    var d, t := Delivery(source, source, revision, state), Serve(s, key, source);
    PushedSlot(SlotOf(t, key), d, s.now);
    PushStepIs(s, key, d);
    assert Step(s, Push(key, state, source, revision)) == PushStep(s, key, d);
    hide Run, Step, PushStep, SlotOk, HeapOk, Valid, Pushed, Serve, Serves;
  }

  lemma PushStepIs(s: State, key: TaskKey, d: Delivery)
    requires PushStep(s, key, d).1.Accepted?
    ensures var t, u := Serve(s, key, d.owner), PushStep(s, key, d).0;
      && d.owner != "" && key in s.owners && s.owners[key] == d.owner && u.owners == s.owners && Cached(t, key)
      && !Superseded(SlotOf(t, key).entry, d)
      && u.cache == t.cache && u.heap == t.heap[t.cache[key] := Pushed(SlotOf(t, key), d, s.now)]
  {
    hide Pushed, R.Compare;
  }

  lemma PushedSlot(slot: Slot, d: Delivery, now: nat)
    ensures var next := Pushed(slot, d, now).entry;
      !Superseded(slot.entry, d) ==>
        && next.target == Target(slot.entry.generation, slot.history.key.threadID, d.owner, d.source, d.revision, d.state)
        && next.nextRead == now + 5000 && next.pushes > 0 && next.generation == slot.entry.generation
  {
    hide R.Compare;
  }

  /** A read's outcome counts: it brought a snapshot, and connection, generation and owner are still those it was read for. */
  predicate Counts(s: State, read: Read, result: Option<Delivery>) {
    && result.Some? && result.value.owner != "" && s.connection.Some? && s.generation == read.generation
    && read.key in s.owners && s.owners[read.key] == result.value.owner
  }

  /** A read that counts is answered with what the entry then holds: what it brought, or what the entry had. */
  predicate IsRefreshed(prior: Entry, next: Entry, reply: Reply, d: Delivery, now: nat, threadID: string) {
    && reply == Found(next.target) && next.failures == 0 && next.nextRead == now + 5000
    && next.target.owner == d.owner && next.target.threadID == threadID && next.target.epoch == prior.generation
    && (AsDelivery(next.target) == d || AsDelivery(next.target) == AsDelivery(prior.target))
  }

  /** One that does not is refused, and put off for longer each time. */
  predicate IsPutOff(prior: Entry, next: Entry, reply: Reply, now: nat, hash: nat) {
    && reply == Refused && next.target == prior.target && next.failures == prior.failures + 1
    && next.nextRead == now + BackOffSeconds(next.failures) * (800 + 10 * (hash % 41))
  }

  /** What the end of a read leaves in the entry that it was made for. */
  lemma FinishedRead(events: seq<Event>, latch: nat, result: Option<Delivery>, hash: nat)
    requires latch in Run(events).pending
    ensures var s, t := Run(events), Step(Run(events), FinishRead(latch, result, hash)).0;
      var read, reply := s.pending[latch], Step(s, FinishRead(latch, result, hash)).1;
      && read.ref in s.heap && read.ref in t.heap && latch !in t.pending && t.cache == s.cache
      && var prior, next := s.heap[read.ref].entry, t.heap[read.ref].entry;
        && next.loading == None && next.generation == prior.generation && next.pushes == prior.pushes
        && if Counts(s, read, result) then IsRefreshed(prior, next, reply, result.value, s.now, read.key.threadID)
           else IsPutOff(prior, next, reply, s.now, hash)
  {
    var s, read := Run(events), Run(events).pending[latch];
    RunIsValid(events);
    assert ReadOk(s, latch);
    assert HeapOk(s, read.ref);
    var slot := s.heap[read.ref];
    if Counts(s, read, result) { RefreshedEntry(slot, read, result.value, s.now); }
    BackedOffEntry(slot, s.now, hash);
    FinishStepIs(s, latch, result, hash);
    hide *;
  }

  lemma RefreshedEntry(slot: Slot, read: Read, d: Delivery, now: nat)
    requires slot.entry.generation == read.generation && (slot.entry.target.owner != "" ==> slot.entry.target.threadID == read.key.threadID)
    requires d.owner != ""
    ensures var next := Refreshed(slot, read, d, now).entry;
      && next.loading == None && next.generation == slot.entry.generation && next.pushes == slot.entry.pushes
      && IsRefreshed(slot.entry, next, Found(next.target), d, now, read.key.threadID)
  {
    hide R.Compare;
  }

  lemma BackedOffEntry(slot: Slot, now: nat, hash: nat)
    ensures var next := BackedOff(slot, now, hash).entry;
      && next.loading == None && next.generation == slot.entry.generation && next.pushes == slot.entry.pushes
      && IsPutOff(slot.entry, next, Refused, now, hash)
  {
    var n := slot.entry.failures + 1;
    assert RetrySeconds(n) == BackOffSeconds(n);
    hide RetrySeconds, BackOffSeconds;
    assert RetrySeconds(n) * 10 * (80 + hash % 41) == RetrySeconds(n) * (10 * (80 + hash % 41));
  }

  lemma FinishStepIs(s: State, latch: nat, result: Option<Delivery>, hash: nat)
    requires latch in s.pending && s.pending[latch].ref in s.heap
    ensures var read, t, reply := s.pending[latch], Step(s, FinishRead(latch, result, hash)).0, Step(s, FinishRead(latch, result, hash)).1;
      var slot := if Counts(s, read, result) then Refreshed(s.heap[read.ref], read, result.value, s.now) else BackedOff(s.heap[read.ref], s.now, hash);
      && t.heap == s.heap[read.ref := slot] && t.cache == s.cache && t.pending == s.pending - {latch}
      && reply == if Counts(s, read, result) then Found(slot.entry.target) else Refused
  {
    hide Refreshed, BackedOff;
  }

  const BACK_OFF := [1, 5, 15, 30, 60]

  /** A second after the first failure, then 5, 15, 30 and 60, and from then on five minutes. */
  function BackOffSeconds(failures: nat): nat {
    if 1 <= failures <= 5 then BACK_OFF[failures - 1] else 300
  }

  lemma PushAnswersNobody(s: State, key: TaskKey, d: Delivery)
    ensures !PushStep(s, key, d).1.Found?
  {
  }

  /** Full reads are single-flight per entry object: two reads in flight hold two
      entries, each latched to its own read. */
  lemma SingleFlightPerEntry(events: seq<Event>, a: nat, b: nat)
    requires a in Run(events).pending && b in Run(events).pending && a != b
    ensures Run(events).pending[a].ref != Run(events).pending[b].ref
  {
    RunIsValid(events);
    assert ReadOk(Run(events), a) && ReadOk(Run(events), b);
  }

  /** Whoever waits, waits on the latch of a read in flight for the same task, and
      only that read's end releases it. */
  lemma WaitersAreReleased(events: seq<Event>, threadID: string)
    requires ObserveStep(Run(events), threadID).1.Waiting?
    ensures var s := Run(events);
            var latch := ObserveStep(s, threadID).1.latch;
            && latch in s.pending && s.pending[latch].key == LocalKey(threadID)
            && (forall e: Event | latch !in Step(s, e).0.pending :: e.FinishRead? && e.latch == latch)
  {
    hide SlotOk;
    RunIsValid(events);
    var s := Run(events);
    var key := LocalKey(threadID);
    PrepareKeepsValid(s, key);
    PrepareKeepsRest(s, key);
    var t := Prepare(s, key);
    var latch := ObserveStep(s, threadID).1.latch;
    assert HeapOk(t, t.cache[key]) && ReadOk(t, latch);
    hide ObserveStep;
    forall e: Event | latch !in Step(s, e).0.pending ensures e.FinishRead? && e.latch == latch {
      OnlyItsEndReleases(s, e, latch);
    }
  }

  lemma PrepareKeepsRest(s: State, key: TaskKey)
    ensures var t := Prepare(s, key);
            t == s.(cache := t.cache, heap := t.heap, nextRef := t.nextRef)
  {
  }

  lemma PushLeavesPending(s: State, key: TaskKey, d: Delivery)
    ensures PushStep(s, key, d).0.pending == s.pending
  {
  }

  lemma ObserveAddsPending(s: State, threadID: string)
    ensures s.pending.Keys <= ObserveStep(s, threadID).0.pending.Keys
  {
    PrepareKeepsRest(s, LocalKey(threadID));
    hide Prepare;
  }

  lemma FinishTakesPending(s: State, latch: nat, result: Option<Delivery>, hash: nat)
    ensures s.pending.Keys - {latch} <= FinishReadStep(s, latch, result, hash).0.pending.Keys
  {
    hide Refreshed, BackedOff;
  }

  lemma OnlyItsEndReleases(s: State, e: Event, latch: nat)
    requires latch in s.pending && latch !in Step(s, e).0.pending
    ensures e.FinishRead? && e.latch == latch
  {
    hide PushStep, ObserveStep, FinishReadStep;
    match e
    case Observe(threadID) => ObserveAddsPending(s, threadID);
    case Push(key, state, source, revision) => PushLeavesPending(s, key, Delivery(source, source, revision, state));
    case FinishRead(other, result, hash) => FinishTakesPending(s, other, result, hash);
    case _ =>
  }

  /** How old a cached answer can be: it was confirmed less than the silence limit
      ago, or the last full read failed and its back-off is still running. */
  lemma CachedAnswerAge(events: seq<Event>, threadID: string)
    requires ObserveStep(Run(events), threadID).1.Found?
    ensures var s := Run(events);
            Cached(s, LocalKey(threadID)) &&
            match SlotOf(s, LocalKey(threadID)).history.deadline
            case Unset => false
            case Fresh(at) => s.now < at + MAX_SILENCE
            case Failed(at, attempt) => s.now < at + RetrySeconds(attempt) * 1200
  {
    RunIsValid(events);
    PrepareKeepsValid(Run(events), LocalKey(threadID));
  }

  // ----- Wake tokens ---------------------------------------------------------

  predicate Holds(s: State, key: TaskKey, channel: nat) {
    key in s.subscribers && channel in s.subscribers[key] && s.subscribers[key][channel]
  }

  predicate Touches(e: Event, key: TaskKey, channel: nat) {
    (e.Subscribe? || e.Unsubscribe? || e.Receive?) && e.key == key && e.channel == channel
  }

  /** No invalidation is lost: once an owner's snapshot was accepted, every
      subscriber of the task holds a wake token through any run, until it
      receives, leaves or subscribes afresh. */
  lemma {:induction false} WakeIsNotLost(before: seq<Event>, push: Event, later: seq<Event>, channel: nat)
    requires push.Push? && Step(Run(before), push).1.Accepted?
    requires push.key in Run(before).subscribers && channel in Run(before).subscribers[push.key]
    requires forall i | 0 <= i < |later| :: !Touches(later[i], push.key, channel)
    ensures Holds(Run(before + [push] + later), push.key, channel)
  {
    var events := before + [push] + later;
    var prefix := events[..|events| - 1];
    if later == [] {
      assert prefix == before && events[|events| - 1] == push;
      AcceptedPushWakes(Run(before), push.key, Delivery(push.source, push.source, push.revision, push.state), channel);
    } else {
      assert prefix == before + [push] + later[..|later| - 1];
      assert events[|events| - 1] == later[|later| - 1];
      WakeIsNotLost(before, push, later[..|later| - 1], channel);
      TokenStays(Run(prefix), later[|later| - 1], push.key, channel);
    }
  }

  lemma AcceptedPushWakes(s: State, key: TaskKey, d: Delivery, channel: nat)
    requires PushStep(s, key, d).1.Accepted? && key in s.subscribers && channel in s.subscribers[key]
    ensures Holds(PushStep(s, key, d).0, key, channel)
  {
  }

  lemma FinishReadKeepsTokens(s: State, latch: nat, result: Option<Delivery>, hash: nat)
    ensures FinishReadStep(s, latch, result, hash).0.subscribers == s.subscribers
  {
    hide Refreshed, BackedOff;
  }

  lemma PushKeepsTokens(s: State, pushed: TaskKey, d: Delivery, key: TaskKey, channel: nat)
    requires Holds(s, key, channel)
    ensures Holds(PushStep(s, pushed, d).0, key, channel)
  {
    hide Pushed, Superseded;
  }

  lemma TokenStays(s: State, e: Event, key: TaskKey, channel: nat)
    requires Holds(s, key, channel) && !Touches(e, key, channel)
    ensures Holds(Step(s, e).0, key, channel)
  {
    hide PushStep, FinishReadStep;
    match e
    case Push(pushed, state, source, revision) => PushKeepsTokens(s, pushed, Delivery(source, source, revision, state), key, channel);
    case Observe(threadID) => PrepareKeepsRest(s, LocalKey(threadID)); hide Prepare;
    case FinishRead(latch, result, hash) => FinishReadKeepsTokens(s, latch, result, hash);
    case Unsubscribe(other, left) => assert other == key ==> channel in s.subscribers[key] - {left};
    case _ =>
  }

  // ----- Where the guarantees end ---------------------------------------------

  lemma RunAppend(events: seq<Event>, e: Event)
    ensures Run(events + [e]) == Step(Run(events), e).0
  {
    assert (events + [e])[..|events|] == events;
  }

  /** A run that starts a full read of a task nothing is known about yet. */
  lemma ReadStarted(key: TaskKey) returns (events: seq<Event>)
    requires key == LocalKey("t")
    ensures Run(events) == State(Some(1), 0, map[key := "A"], map[key := 0], map[0 := Latched(NewSlot(key, 0), 0)],
                                 map[0 := Read(key, 0, 0, 0)], 1, 1, 0, 0, 1, map[])
  {
    RunAppend([], Connect(1));
    RunAppend([Connect(1)], LearnOwner(key, "A"));
    RunAppend([Connect(1), LearnOwner(key, "A")], Observe("t"));
    events := [Connect(1), LearnOwner(key, "A")] + [Observe("t")];
    assert [Connect(1)] + [LearnOwner(key, "A")] == [Connect(1), LearnOwner(key, "A")];
    assert [] + [Connect(1)] == [Connect(1)];
  }

  /** A first push fills an entry that has none, whatever its revision. */
  lemma FirstPush(s: State, key: TaskKey, d: Delivery)
    requires d.owner != "" && Owner(s, key) == d.owner && Serves(s, key, d.owner) && SlotOf(s, key).entry.target == NO_TARGET
    ensures PushStep(s, key, d).0 == Wake(Put(s, s.cache[key], Pushed(SlotOf(s, key), d, s.now)), key)
    ensures Pushed(SlotOf(s, key), d, s.now).entry.target == Target(s.generation, key.threadID, d.owner, d.source, d.revision, d.state)
            || key.threadID != SlotOf(s, key).history.key.threadID
    ensures Pushed(SlotOf(s, key), d, s.now).history.log == SlotOf(s, key).history.log + [d]
    ensures Pushed(SlotOf(s, key), d, s.now).entry == SlotOf(s, key).entry.(
              target := Pushed(SlotOf(s, key), d, s.now).entry.target, pushes := SlotOf(s, key).entry.pushes + 1, nextRead := s.now + MAX_SILENCE)
  {
    R.CompareIsNumeric(d.revision, "");
    assert !R.IsDecimal("");
  }

  /** An orphaned read: its entry belongs to owner A, the task's new one to owner B. */
  predicate Orphaned(s: State, key: TaskKey, now: nat) {
    && s.connection == Some(1) && s.generation == 0 && Owner(s, key) == "B" && s.now == now && s.nextLatch == 1
    && s.pending == map[0 := Read(key, 0, 0, 0)] && 0 in s.heap && s.heap[0].entry.target.owner == "A"
    && key in s.cache && s.cache[key] == 1 && 1 in s.heap
    && s.heap[1].entry == Entry(Target(0, "t", "B", "B", "9", Some("y")), 0, MAX_SILENCE, 0, 1, None)
  }

  lemma OwnerTakesOver(s: State, key: TaskKey)
    requires key == LocalKey("t") && s.connection == Some(1) && s.generation == 0 && Owner(s, key) == "B" && s.now == 0
    requires s.cache == map[key := 0] && 0 in s.heap && s.heap[0].entry.target.owner == "A" && s.nextRef == 1
    requires s.pending == map[0 := Read(key, 0, 0, 0)] && s.nextLatch == 1
    ensures Orphaned(PushStep(s, key, Delivery("B", "B", "9", Some("y"))).0, key, 0)
  {
    FirstPush(Install(s, key, 0), key, Delivery("B", "B", "9", Some("y")));
  }

  lemma FirstOwnerPushes(s: State, key: TaskKey)
    requires key == LocalKey("t") && s.generation == 0 && Owner(s, key) == "A"
    requires s.cache == map[key := 0] && s.heap == map[0 := Latched(NewSlot(key, 0), 0)] && s.subscribers == map[]
    ensures var t := PushStep(s, key, Delivery("A", "A", "1", Some("x"))).0;
            t == s.(heap := t.heap) && 0 in t.heap && t.heap[0].entry.target.owner == "A"
  {
    FirstPush(s, key, Delivery("A", "A", "1", Some("x")));
  }

  lemma SecondReadStarts(s: State, key: TaskKey)
    requires key == LocalKey("t") && Orphaned(s, key, MAX_SILENCE)
    ensures var t := ObserveStep(s, "t").0;
            && t.pending == s.pending[1 := Read(key, 1, 0, 1)] && t.cache == s.cache && t.connection == s.connection
            && t.generation == 0 && Owner(t, key) == "B" && 0 in t.heap && t.heap[0] == s.heap[0]
            && 1 in t.heap && t.heap[1].entry.target == s.heap[1].entry.target
  {
  }

  lemma OrphanedRun(key: TaskKey) returns (events: seq<Event>)
    requires key == LocalKey("t")
    ensures Orphaned(Run(events), key, 0)
  {
    var start := ReadStarted(key);
    FirstOwnerPushes(Run(start), key);
    var s, d := Run(start), Delivery("A", "A", "1", Some("x"));
    var t := PushStep(s, key, d).0;
    assert t == s.(heap := t.heap);
    hide Run, PushStep;
    RunAppend(start, Push(key, Some("x"), "A", "1"));
    var after := start + [Push(key, Some("x"), "A", "1")];
    RunAppend(after, LearnOwner(key, "B"));
    OwnerTakesOver(Run(after + [LearnOwner(key, "B")]), key);
    events := after + [LearnOwner(key, "B")] + [Push(key, Some("y"), "B", "9")];
    RunAppend(after + [LearnOwner(key, "B")], Push(key, Some("y"), "B", "9"));
  }

  /** Replacing an entry while its full read is out has two consequences: a second
      read of the same task can start, and the first can return a snapshot older
      than the one the cache holds by then. */
  lemma ReplacedEntryWitness(key: TaskKey) returns (events: seq<Event>, late: Event)
    requires key == LocalKey("t")
    ensures var s := Run(events);
            && 0 in s.pending && 1 in s.pending && s.pending[0].key == s.pending[1].key == key
            && Step(s, late).1.Found? && Step(s, late).1.target.revision == "3"
            && Cached(Step(s, late).0, key) && SlotOf(Step(s, late).0, key).entry.target.revision == "9"
            && SlotOf(Step(s, late).0, key).entry.target.owner == Step(s, late).1.target.owner
  {
    var middle := OrphanedRun(key);
    late := FinishRead(0, Some(Delivery("B", "B", "3", Some("z"))), 0);
    hide Run, PushStep, ObserveStep, FinishReadStep;
    RunAppend(middle, Elapse(MAX_SILENCE));
    var waited := middle + [Elapse(MAX_SILENCE)];
    SecondReadStarts(Run(waited), key);
    RunAppend(waited, Observe("t"));
    events := waited + [Observe("t")];
    LateRead(Run(events), key);
  }

  lemma LateRead(s: State, key: TaskKey)
    requires 0 in s.pending && s.pending[0] == Read(key, 0, 0, 0) && 0 in s.heap && s.heap[0].entry.target.owner == "A"
    requires s.generation == 0 && s.connection.Some? && Owner(s, key) == "B"
    ensures FinishReadStep(s, 0, Some(Delivery("B", "B", "3", Some("z"))), 0).1.Found?
    ensures FinishReadStep(s, 0, Some(Delivery("B", "B", "3", Some("z"))), 0).1.target.revision == "3"
    ensures FinishReadStep(s, 0, Some(Delivery("B", "B", "3", Some("z"))), 0).1.target.owner == "B"
    ensures var t := FinishReadStep(s, 0, Some(Delivery("B", "B", "3", Some("z"))), 0).0;
            t.cache == s.cache && (1 in s.heap ==> 1 in t.heap && t.heap[1] == s.heap[1])
  {
  }

  /** Without a state, a higher revision does not protect the cached target. */
  lemma MissingStateWitness(key: TaskKey) returns (events: seq<Event>)
    requires key == LocalKey("t")
    ensures var s := Run(events);
            && Cached(s, key) && SlotOf(s, key).entry.target.revision == "5"
            && exists d :: d in SlotOf(s, key).history.log && d.revision == "9"
  {
    events := ReadStarted(key);
    var pushed := Delivery("A", "A", "9", None);
    FirstPush(Run(events), key, pushed);
    RunAppend(events, Push(key, None, "A", "9"));
    events := events + [Push(key, None, "A", "9")];
    var late := FinishRead(0, Some(Delivery("A", "A", "5", Some("z"))), 0);
    RunAppend(events, late);
    events := events + [late];
    assert SlotOf(Run(events), key).history.log[0] == pushed;
  }

  /** A revision that is not a numeral makes room for a lower numeral after it. */
  lemma UnorderedRevisionWitness(key: TaskKey) returns (events: seq<Event>)
    ensures var s := Run(events);
            && Cached(s, key) && SlotOf(s, key).entry.target.revision == "3"
            && exists d :: d in SlotOf(s, key).history.log && d.revision == "9" && d.state.Some?
  {
    events := [];
    var steps := [LearnOwner(key, "A"), Push(key, Some("x"), "A", "9"), Push(key, Some("y"), "A", "r"), Push(key, Some("z"), "A", "3")];
    var first := Delivery("A", "A", "9", Some("x"));
    RunAppend(events, steps[0]); events := events + [steps[0]];
    RunAppend(events, steps[1]); events := events + [steps[1]];
    assert SlotOf(Run(events), key).history.log == [first];
    RunAppend(events, steps[2]); events := events + [steps[2]];
    assert SlotOf(Run(events), key).entry.target.revision == "r";
    RunAppend(events, steps[3]); events := events + [steps[3]];
    assert SlotOf(Run(events), key).history.log[0] == first;
  }
}

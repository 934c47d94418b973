/**
 The desktop observation cache as a machine over its critical sections: every
 event below is one stretch of code that runs under the client's mutex, so every
 interleaving of callers, pushes and connection changes is a sequence of events.

 Cache entries are shared by pointer: a full read keeps the entry it started on
 even when a push installs a new one for the task. Pointers are references into
 `heap`. Each entry is kept together with its history, which is bookkeeping for
 the specification: the snapshots delivered to the entry since its generation
 and owner last changed.
 */
module ObservationCache {
  import opened Prelude
  import opened Tasks
  import R = Revisions

  /** An observed conversation. `state` is None for a missing state object. */
  datatype Target = Target(epoch: nat, threadID: string, owner: string, source: string,
                           revision: string, state: Option<string>)

  const NO_TARGET := Target(0, "", "", "", "", None)

  datatype Entry = Entry(target: Target, generation: nat, nextRead: nat, failures: nat,
                         pushes: nat, loading: Option<nat>)

  /** A full read in flight; its key in `pending` is the latch its waiters wait on. */
  datatype Read = Read(key: TaskKey, ref: nat, generation: nat, pushes: nat)

  datatype Delivery = Delivery(owner: string, source: string, revision: string, state: Option<string>)

  /** Why `nextRead` has its value: nothing yet, a fresh snapshot, or a failed read. */
  datatype Deadline = Unset | Fresh(at: nat) | Failed(at: nat, attempt: nat)

  datatype History = History(key: TaskKey, log: seq<Delivery>, deadline: Deadline)

  /** A cell of the heap: an entry and its history. */
  datatype Slot = Slot(entry: Entry, history: History)

  datatype State = State(
    connection: Option<nat>,
    generation: nat,
    owners: map<TaskKey, string>,
    cache: map<TaskKey, nat>,
    heap: map<nat, Slot>,
    pending: map<nat, Read>,
    nextRef: nat,
    nextLatch: nat,
    now: nat,
    hits: nat,
    fullReads: nat,
    subscribers: map<TaskKey, map<nat, bool>>)

  const INITIAL := State(None, 0, map[], map[], map[], map[], 0, 0, 0, 0, 0, map[])

  datatype Event =
    | Connect(conn: nat)
    | ConnectionEnded(conn: nat)
    | Close
    | LearnOwner(key: TaskKey, owner: string)
    | Push(key: TaskKey, state: Option<string>, source: string, revision: string)
    | Observe(threadID: string)
    | FinishRead(latch: nat, result: Option<Delivery>, hash: nat)
    | Elapse(milliseconds: nat)
    | Subscribe(key: TaskKey, channel: nat)
    | Unsubscribe(key: TaskKey, channel: nat)
    | Receive(key: TaskKey, channel: nat)

  datatype Reply = Silent | Waiting(latch: nat) | Started(latch: nat) | Found(target: Target) | Refused | Accepted

  // ----- Constants ----------------------------------------------------------

  /** Milliseconds a fresh snapshot may be served without another full read. */
  const MAX_SILENCE: nat := 5000

  function RetrySeconds(attempt: nat): nat {
    if attempt == 1 then 1 else if attempt == 2 then 5 else if attempt == 3 then 15
    else if attempt == 4 then 30 else if attempt == 5 then 60 else 300
  }

  /** Back-off in milliseconds: the base delay scaled by 80 to 120 per cent. */
  function RetryDelay(attempt: nat, hash: nat): nat {
    RetrySeconds(attempt) * 10 * (80 + hash % 41)
  }

  // ----- What happens to one entry ------------------------------------------

  function NewSlot(key: TaskKey, generation: nat): Slot {
    Slot(Entry(NO_TARGET, generation, 0, 0, 0, None), History(key, [], Unset))
  }

  /** An idle entry is emptied for a new generation or owner. */
  function Emptied(slot: Slot, generation: nat): Slot {
    Slot(slot.entry.(target := NO_TARGET, nextRead := 0, generation := generation, failures := 0),
         History(slot.history.key, [], Unset))
  }

  function Latched(slot: Slot, latch: nat): Slot {
    slot.(entry := slot.entry.(loading := Some(latch)))
  }

  /** A numerically ordered push that is not newer than the cached target. */
  predicate Superseded(e: Entry, d: Delivery) {
    R.Compare(d.revision, e.target.revision).Some? && R.Compare(d.revision, e.target.revision).value <= 0
  }

  /** A trusted push reaches the entry. */
  function Pushed(slot: Slot, d: Delivery, now: nat): Slot {
    var log := slot.history.log + [d];
    if Superseded(slot.entry, d) then slot.(history := slot.history.(log := log))
    else
      var target := Target(slot.entry.generation, slot.history.key.threadID, d.owner, d.source, d.revision, d.state);
      Slot(slot.entry.(target := target, pushes := slot.entry.pushes + 1, nextRead := now + MAX_SILENCE),
           slot.history.(log := log, deadline := Fresh(now)))
  }

  /** Does the cached target stand against a full read that just came back? */
  predicate CachedStands(e: Entry, d: Delivery, pushesBefore: nat) {
    && e.target.owner == d.owner && e.target.state.Some?
    && var order := R.Compare(d.revision, e.target.revision);
       if order.Some? then order.value <= 0 else e.pushes > pushesBefore
  }

  /** A full read ends with a snapshot that still counts. */
  function Refreshed(slot: Slot, read: Read, d: Delivery, now: nat): Slot {
    var e := slot.entry;
    var chosen := if CachedStands(e, d, read.pushes) then e.target
                  else Target(0, read.key.threadID, d.owner, d.source, d.revision, d.state);
    var log := if e.target.owner == d.owner then slot.history.log + [d] else [d];
    Slot(Entry(chosen.(epoch := read.generation), read.generation, now + MAX_SILENCE, 0, e.pushes, None),
         slot.history.(log := log, deadline := Fresh(now)))
  }

  /** A full read fails, or its snapshot no longer counts. */
  function BackedOff(slot: Slot, now: nat, hash: nat): Slot {
    var attempt := slot.entry.failures + 1;
    Slot(slot.entry.(failures := attempt, nextRead := now + RetryDelay(attempt, hash), loading := None),
         slot.history.(deadline := Failed(now, attempt)))
  }

  // ----- Critical sections --------------------------------------------------

  function Owner(s: State, key: TaskKey): string {
    if key in s.owners then s.owners[key] else ""
  }

  function EndConnection(s: State): State {
    s.(connection := None, owners := map[], generation := s.generation + 1)
  }

  predicate Cached(s: State, key: TaskKey) {
    key in s.cache && s.cache[key] in s.heap
  }

  function SlotOf(s: State, key: TaskKey): Slot
    requires Cached(s, key)
  {
    s.heap[s.cache[key]]
  }

  function Put(s: State, ref: nat, slot: Slot): State {
    s.(heap := s.heap[ref := slot])
  }

  /** Installs a new entry object for the task; reads keep the object they hold. */
  function Install(s: State, key: TaskKey, generation: nat): State {
    s.(cache := s.cache[key := s.nextRef], heap := s.heap[s.nextRef := NewSlot(key, generation)], nextRef := s.nextRef + 1)
  }

  predicate Serves(s: State, key: TaskKey, source: string) {
    && Cached(s, key)
    && SlotOf(s, key).entry.generation == s.generation
    && (SlotOf(s, key).entry.target.owner == "" || SlotOf(s, key).entry.target.owner == source)
  }

  /** The state in which the task's entry accepts snapshots of this source. */
  function Serve(s: State, key: TaskKey, source: string): (t: State) {
    if Serves(s, key, source) then s else Install(s, key, s.generation)
  }

  function Wake(s: State, key: TaskKey): State {
    if key in s.subscribers
    then s.(subscribers := s.subscribers[key := map c: nat | c in s.subscribers[key] :: true])
    else s
  }

  /** A source without established ownership of the task is not trusted. */
  function PushStep(s: State, key: TaskKey, d: Delivery): (State, Reply) {
    if d.owner == "" || Owner(s, key) != d.owner then (s, Refused)
    else
      var t := Serve(s, key, d.owner);
      var slot := SlotOf(t, key);
      var u := Put(t, t.cache[key], Pushed(slot, d, s.now));
      if Superseded(slot.entry, d) then (u, Refused) else (Wake(u, key), Accepted)
  }

  predicate Outdated(e: Entry, generation: nat, owner: string) {
    e.loading.None? && (e.generation != generation || (e.target.owner != "" && e.target.owner != owner))
  }

  /** The task's entry as a display read finds it: created or emptied if need be. */
  function Prepare(s: State, key: TaskKey): (t: State)
    ensures Cached(t, key)
  {
    var t := if Cached(s, key) then s else Install(s, key, 0);
    if Outdated(SlotOf(t, key).entry, s.generation, Owner(s, key))
    then Put(t, t.cache[key], Emptied(SlotOf(t, key), s.generation))
    else t
  }

  predicate Servable(s: State, e: Entry, owner: string) {
    s.connection.Some? && owner != "" && e.generation == s.generation && e.target.owner == owner && e.target.state.Some?
  }

  /** A full read of the task starts: it latches the entry and notes its push count. */
  function BeginRead(s: State, key: TaskKey): State
    requires Cached(s, key)
  {
    var read := Read(key, s.cache[key], s.generation, SlotOf(s, key).entry.pushes);
    Put(s, s.cache[key], Latched(SlotOf(s, key), s.nextLatch)).(
      pending := s.pending[s.nextLatch := read], nextLatch := s.nextLatch + 1, fullReads := s.fullReads + 1)
  }

  /** A display read on a prepared entry: wait, answer, refuse or start a full read. */
  function Answer(s: State, key: TaskKey): (State, Reply)
    requires Cached(s, key)
  {
    var e := SlotOf(s, key).entry;
    if e.loading.Some? then (s, Waiting(e.loading.value))
    else if s.now < e.nextRead then
      if Servable(s, e, Owner(s, key)) then (s.(hits := s.hits + 1), Found(e.target)) else (s, Refused)
    else (BeginRead(s, key), Started(s.nextLatch))
  }

  function ObserveStep(s: State, threadID: string): (State, Reply) {
    Answer(Prepare(s, LocalKey(threadID)), LocalKey(threadID))
  }

  /** Does the outcome of a full read still count when the read returns? */
  predicate StillCounts(s: State, read: Read, result: Option<Delivery>) {
    && result.Some? && result.value.owner != ""
    && read.generation == s.generation && s.connection.Some? && Owner(s, read.key) == result.value.owner
  }

  /** A full read ends. `result` is None when the read failed; a snapshot that
      came back names the non-empty owner it was read from. */
  function FinishReadStep(s: State, latch: nat, result: Option<Delivery>, hash: nat): (State, Reply) {
    if latch !in s.pending || s.pending[latch].ref !in s.heap then (s, Silent)
    else
      var read := s.pending[latch];
      var t := s.(pending := s.pending - {latch});
      if StillCounts(s, read, result) then
        var slot := Refreshed(s.heap[read.ref], read, result.value, s.now);
        (Put(t, read.ref, slot), Found(slot.entry.target))
      else
        (Put(t, read.ref, BackedOff(s.heap[read.ref], s.now, hash)), Refused)
  }

  /** A subscriber's channel holds at most one wake token: false is empty. */
  function SubscribeStep(s: State, key: TaskKey, channel: nat): State {
    var known: map<nat, bool> := if key in s.subscribers then s.subscribers[key] else map[];
    var channels: map<nat, bool> := known[channel := false];
    s.(subscribers := s.subscribers[key := channels])
  }

  function UnsubscribeStep(s: State, key: TaskKey, channel: nat): State {
    if key !in s.subscribers then s
    else
      var channels := s.subscribers[key] - {channel};
      s.(subscribers := if channels == map[] then s.subscribers - {key} else s.subscribers[key := channels])
  }

  function ReceiveStep(s: State, key: TaskKey, channel: nat): State {
    if key in s.subscribers && channel in s.subscribers[key] then
      var channels: map<nat, bool> := s.subscribers[key][channel := false];
      s.(subscribers := s.subscribers[key := channels])
    else s
  }

  // ----- The machine --------------------------------------------------------

  function Step(s: State, e: Event): (State, Reply) {
    match e
    case Connect(conn) => (s.(connection := Some(conn)), Silent)
    case ConnectionEnded(conn) => (if s.connection == Some(conn) then EndConnection(s) else s, Silent)
    case Close => (EndConnection(s), Silent)
    case LearnOwner(key, owner) => (if owner == "" then s else s.(owners := s.owners[key := owner]), Silent)
    case Push(key, state, source, revision) => PushStep(s, key, Delivery(source, source, revision, state))
    case Observe(threadID) => ObserveStep(s, threadID)
    case FinishRead(latch, result, hash) => FinishReadStep(s, latch, result, hash)
    case Elapse(milliseconds) => (s.(now := s.now + milliseconds), Silent)
    case Subscribe(key, channel) => (SubscribeStep(s, key, channel), Silent)
    case Unsubscribe(key, channel) => (UnsubscribeStep(s, key, channel), Silent)
    case Receive(key, channel) => (ReceiveStep(s, key, channel), Silent)
  }

  function Run(events: seq<Event>): State {
    if events == [] then INITIAL else Step(Run(events[..|events| - 1]), events[|events| - 1]).0
  }

  // ----- The invariant ------------------------------------------------------

  predicate Orderable(log: seq<Delivery>) {
    forall i | 0 <= i < |log| :: R.IsDecimal(log[i].revision) && log[i].state.Some?
  }

  /** `d` is the first delivery in the log with the highest revision. */
  ghost predicate Newest(log: seq<Delivery>, d: Delivery)
    requires Orderable(log)
  {
    exists k | 0 <= k < |log| ::
      && log[k] == d
      && (forall i | 0 <= i < |log| :: R.Value(log[i].revision) <= R.Value(d.revision))
      && (forall i | 0 <= i < k :: R.Value(log[i].revision) < R.Value(d.revision))
  }

  function AsDelivery(t: Target): Delivery {
    Delivery(t.owner, t.source, t.revision, t.state)
  }

  predicate DeadlineOk(nextRead: nat, deadline: Deadline) {
    match deadline
    case Unset => nextRead == 0
    case Fresh(at) => nextRead == at + MAX_SILENCE
    case Failed(at, attempt) =>
      at + RetrySeconds(attempt) * 800 <= nextRead <= at + RetrySeconds(attempt) * 1200
  }

  /** What holds of one entry and its history: the target is the newest snapshot
      delivered, all from one owner in the entry's generation. */
  ghost predicate SlotOk(slot: Slot) {
    var e, h := slot.entry, slot.history;
    && (e.target.owner == "" ==> e.target == NO_TARGET && h.log == [])
    && (e.target.owner != "" ==>
          && h.log != [] && e.target.epoch == e.generation && e.target.threadID == h.key.threadID
          && (forall i | 0 <= i < |h.log| :: h.log[i].owner == e.target.owner)
          && (Orderable(h.log) ==> Newest(h.log, AsDelivery(e.target))))
    && DeadlineOk(e.nextRead, h.deadline)
  }

  /** Every entry is sound, and a latched one belongs to a read in flight. */
  ghost predicate HeapOk(s: State, ref: nat)
    requires ref in s.heap
  {
    var e := s.heap[ref].entry;
    && ref < s.nextRef && e.generation <= s.generation && SlotOk(s.heap[ref])
    && (e.loading.Some? ==> e.loading.value in s.pending && s.pending[e.loading.value].ref == ref)
  }

  /** A read in flight holds the latch of its entry, whose generation stands still. */
  ghost predicate ReadOk(s: State, latch: nat)
    requires latch in s.pending
  {
    var read := s.pending[latch];
    && latch < s.nextLatch && read.ref in s.heap
    && s.heap[read.ref].entry.loading == Some(latch) && s.heap[read.ref].entry.generation == read.generation
    && s.heap[read.ref].history.key == read.key && read.pushes <= s.heap[read.ref].entry.pushes
  }

  ghost predicate CacheOk(s: State, key: TaskKey)
    requires key in s.cache
  {
    s.cache[key] in s.heap && s.heap[s.cache[key]].history.key == key
  }

  ghost predicate Valid(s: State) {
    && (forall key | key in s.cache :: CacheOk(s, key))
    && (forall ref | ref in s.heap :: HeapOk(s, ref))
    && (forall latch | latch in s.pending :: ReadOk(s, latch))
  }
}

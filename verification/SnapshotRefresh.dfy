/**
 Coalesced refreshes. An incremental broadcast is only an invalidation: it arms
 one timer per task and generation, and the timer asks the owner for a complete
 snapshot. Time is part of the machine; it never passes an armed timer's deadline.
 */
module SnapshotRefresh {
  import opened Prelude
  import opened Tasks

  /** `source` is the owner whose broadcast armed the timer. */
  datatype Timer = Timer(key: TaskKey, generation: nat, source: string, deadline: nat)

  /** A subscription request sent to a task's owner, which answers with a snapshot. */
  datatype Follow = Follow(key: TaskKey, owner: string, at: nat)

  datatype Clock = Clock(
    connected: bool,
    generation: nat,
    owners: map<TaskKey, string>,
    scheduled: map<TaskKey, nat>,
    timers: map<nat, Timer>,
    nextTimer: nat,
    time: nat,
    follows: seq<Follow>)

  const IDLE := Clock(false, 0, map[], map[], map[], 0, 0, [])

  /** Milliseconds between the first broadcast of a burst and its refresh. */
  const PERIOD: nat := 100

  datatype Signal =
    | Connected
    | Disconnected
    | OwnerKnown(key: TaskKey, owner: string)
    | Broadcast(key: TaskKey, source: string)
    | Fire(timer: nat)
    | Pass(milliseconds: nat)

  function OwnerOf(s: Clock, key: TaskKey): string {
    if key in s.owners then s.owners[key] else ""
  }

  predicate Trusted(s: Clock, key: TaskKey, source: string) {
    s.connected && source != "" && OwnerOf(s, key) == source
  }

  predicate Scheduled(s: Clock, key: TaskKey) {
    key in s.scheduled && s.scheduled[key] == s.generation
  }

  function Schedule(s: Clock, key: TaskKey, source: string): Clock {
    if !Trusted(s, key, source) || Scheduled(s, key) then s
    else s.(scheduled := s.scheduled[key := s.generation],
            timers := s.timers[s.nextTimer := Timer(key, s.generation, source, s.time + PERIOD)],
            nextTimer := s.nextTimer + 1)
  }

  function FireTimer(s: Clock, id: nat): Clock {
    if id !in s.timers || s.timers[id].deadline > s.time then s
    else
      var t := s.timers[id];
      var fired := s.(timers := s.timers - {id});
      if t.key !in s.scheduled || s.scheduled[t.key] != t.generation then fired
      else
        var due := fired.(scheduled := s.scheduled - {t.key});
        if s.connected && s.generation == t.generation && OwnerOf(s, t.key) == t.source
        then due.(follows := s.follows + [Follow(t.key, t.source, s.time)])
        else due
  }

  predicate MayPass(s: Clock, milliseconds: nat) {
    forall id | id in s.timers :: s.time + milliseconds <= s.timers[id].deadline
  }

  function Next(s: Clock, e: Signal): Clock {
    match e
    case Connected => s.(connected := true)
    case Disconnected => s.(connected := false, owners := map[], generation := s.generation + 1)
    case OwnerKnown(key, owner) => if owner == "" then s else s.(owners := s.owners[key := owner])
    case Broadcast(key, source) => Schedule(s, key, source)
    case Fire(timer) => FireTimer(s, timer)
    case Pass(milliseconds) => if MayPass(s, milliseconds) then s.(time := s.time + milliseconds) else s
  }

  function After(s: Clock, signals: seq<Signal>): Clock {
    if signals == [] then s else Next(After(s, signals[..|signals| - 1]), signals[|signals| - 1])
  }

  // ----- Invariant ------------------------------------------------------------

  ghost predicate TimerOk(s: Clock, id: nat)
    requires id in s.timers
  {
    var t := s.timers[id];
    && id < s.nextTimer && s.time <= t.deadline <= s.time + PERIOD && t.generation <= s.generation && t.source != ""
    && (t.generation == s.generation ==> Scheduled(s, t.key))
  }

  /** At most one timer is armed per task and generation, and a scheduled refresh
      has one. */
  ghost predicate Consistent(s: Clock) {
    && (forall id | id in s.timers :: TimerOk(s, id))
    && (forall a, b | a in s.timers && b in s.timers && a != b ::
          s.timers[a].key != s.timers[b].key || s.timers[a].generation != s.timers[b].generation)
    && (forall key | key in s.scheduled :: s.scheduled[key] <= s.generation && Armed(s, key))
  }

  ghost predicate Armed(s: Clock, key: TaskKey)
    requires key in s.scheduled
  {
    exists id | id in s.timers :: s.timers[id].key == key && s.timers[id].generation == s.scheduled[key]
  }

  lemma ScheduleKeepsConsistent(s: Clock, key: TaskKey, source: string)
    requires Consistent(s)
    ensures Consistent(Schedule(s, key, source))
  {
    var t := Schedule(s, key, source);
    if t != s {
      assert s.nextTimer !in s.timers;
      assert t.timers[s.nextTimer].key == key;
      forall k | k in t.scheduled ensures Armed(t, k) {
        if k != key {
          assert Armed(s, k);
          var id :| id in s.timers && s.timers[id].key == k && s.timers[id].generation == s.scheduled[k];
          assert TimerOk(s, id) && t.timers[id] == s.timers[id];
        }
      }
      forall id | id in t.timers ensures TimerOk(t, id) { assert id in s.timers ==> TimerOk(s, id); }
      forall a, b | a in t.timers && b in t.timers && a != b
        ensures t.timers[a].key != t.timers[b].key || t.timers[a].generation != t.timers[b].generation
      {
        assert a in s.timers ==> TimerOk(s, a);
        assert b in s.timers ==> TimerOk(s, b);
      }
    }
  }

  lemma FireKeepsTimer(s: Clock, id: nat, other: nat)
    requires Consistent(s) && other in FireTimer(s, id).timers
    ensures TimerOk(FireTimer(s, id), other)
  {
    hide Armed;
    assert TimerOk(s, other) && (id in s.timers ==> TimerOk(s, id));
  }

  lemma FireKeepsArmed(s: Clock, id: nat, k: TaskKey)
    requires Consistent(s) && k in FireTimer(s, id).scheduled
    ensures FireTimer(s, id).scheduled[k] <= FireTimer(s, id).generation && Armed(FireTimer(s, id), k)
  {
    hide TimerOk;
    var t := FireTimer(s, id);
    assert Armed(s, k);
    var other :| other in s.timers && s.timers[other].key == k && s.timers[other].generation == s.scheduled[k];
    assert t.timers[other] == s.timers[other];
  }

  lemma FireKeepsConsistent(s: Clock, id: nat)
    requires Consistent(s)
    ensures Consistent(FireTimer(s, id))
  {
    var t := FireTimer(s, id);
    assert forall other | other in t.timers :: other in s.timers && t.timers[other] == s.timers[other];
    hide TimerOk, Armed, FireTimer;
    forall k | k in t.scheduled ensures t.scheduled[k] <= t.generation && Armed(t, k) { FireKeepsArmed(s, id, k); }
    forall other | other in t.timers ensures TimerOk(t, other) { FireKeepsTimer(s, id, other); }
  }

  lemma NextKeepsConsistent(s: Clock, e: Signal)
    requires Consistent(s)
    ensures Consistent(Next(s, e))
  {
    match e
    case Broadcast(key, source) => ScheduleKeepsConsistent(s, key, source);
    case Fire(timer) => FireKeepsConsistent(s, timer);
    case _ =>
      var t := Next(s, e);
      forall id | id in t.timers ensures TimerOk(t, id) { assert TimerOk(s, id); }
      forall k | k in t.scheduled ensures Armed(t, k) {
        assert Armed(s, k);
        var id :| id in s.timers && s.timers[id].key == k && s.timers[id].generation == s.scheduled[k];
        assert t.timers[id] == s.timers[id];
      }
  }

  /** In every run at most one timer is armed per task and generation. */
  lemma {:induction false} RunIsConsistent(signals: seq<Signal>)
    ensures Consistent(After(IDLE, signals))
  {
    if signals != [] {
      RunIsConsistent(signals[..|signals| - 1]);
      NextKeepsConsistent(After(IDLE, signals[..|signals| - 1]), signals[|signals| - 1]);
    }
  }

  // ----- No starvation --------------------------------------------------------

  /** The connection is up, in the same generation, with the same owner. */
  predicate Steady(s: Clock, key: TaskKey, owner: string, generation: nat) {
    s.connected && s.generation == generation && OwnerOf(s, key) == owner
  }

  /** The owner was asked in time, and not among the first requests that were sent. */
  ghost predicate Served(s: Clock, key: TaskKey, owner: string, since: nat, sent: nat) {
    exists i | sent <= i < |s.follows| ::
      s.follows[i].key == key && s.follows[i].owner == owner && since <= s.follows[i].at <= since + PERIOD
  }

  /** A refresh by this owner is on its way and due within the period. */
  ghost predicate Due(s: Clock, key: TaskKey, owner: string, since: nat) {
    exists id | id in s.timers ::
      && s.timers[id].key == key && s.timers[id].source == owner
      && s.timers[id].generation == s.generation && s.timers[id].deadline <= since + PERIOD
  }

  /** What a pending refresh of an earlier broadcast must look like to serve this one. */
  predicate ArmedByOwner(s: Clock, key: TaskKey, owner: string) {
    forall id | id in s.timers && s.timers[id].key == key && s.timers[id].generation == s.generation :: s.timers[id].source == owner
  }

  lemma FollowsGrow(s: Clock, e: Signal)
    ensures s.follows <= Next(s, e).follows
  {
  }

  lemma ServedStays(s: Clock, e: Signal, key: TaskKey, owner: string, since: nat, sent: nat)
    requires Served(s, key, owner, since, sent)
    ensures Served(Next(s, e), key, owner, since, sent)
  {
    FollowsGrow(s, e);
    var i :| sent <= i < |s.follows| && s.follows[i].key == key && s.follows[i].owner == owner && since <= s.follows[i].at <= since + PERIOD;
    assert Next(s, e).follows[i] == s.follows[i];
  }

  lemma DueIsServed(s: Clock, e: Signal, key: TaskKey, owner: string, since: nat, sent: nat)
    requires Consistent(s) && Steady(s, key, owner, s.generation) && Steady(Next(s, e), key, owner, s.generation)
    requires since <= s.time && sent <= |s.follows| && Due(s, key, owner, since)
    ensures Served(Next(s, e), key, owner, since, sent) || Due(Next(s, e), key, owner, since)
  {
    var t := Next(s, e);
    var id :| id in s.timers && s.timers[id].key == key && s.timers[id].source == owner
      && s.timers[id].generation == s.generation && s.timers[id].deadline <= since + PERIOD;
    assert TimerOk(s, id);
    assert s.nextTimer in s.timers ==> TimerOk(s, s.nextTimer);
    hide TimerOk, Armed;
    if e.Fire? && e.timer == id && s.timers[id].deadline <= s.time {
      assert t.follows[|s.follows|] == Follow(key, owner, s.time);
    } else {
      assert id in t.timers && t.timers[id] == s.timers[id];
    }
  }

  lemma StepKeepsPromise(s: Clock, e: Signal, key: TaskKey, owner: string, since: nat, sent: nat)
    requires Consistent(s) && Steady(s, key, owner, s.generation) && Steady(Next(s, e), key, owner, s.generation)
    requires since <= s.time && sent <= |s.follows| && (Served(s, key, owner, since, sent) || Due(s, key, owner, since))
    ensures Served(Next(s, e), key, owner, since, sent) || Due(Next(s, e), key, owner, since)
  {
    if Served(s, key, owner, since, sent) { ServedStays(s, e, key, owner, since, sent); } else { DueIsServed(s, e, key, owner, since, sent); }
    hide *;
  }

  /** A trusted broadcast is promised a refresh exactly when no timer of another owner is pending. */
  lemma BroadcastMakesPromise(s: Clock, key: TaskKey, owner: string)
    requires Consistent(s) && Trusted(s, key, owner)
    ensures Due(Next(s, Broadcast(key, owner)), key, owner, s.time) <==> ArmedByOwner(s, key, owner)
    ensures !ArmedByOwner(s, key, owner) ==> Next(s, Broadcast(key, owner)) == s && NoneOfOwner(s, key, owner)
  {
    var t := Next(s, Broadcast(key, owner));
    if Scheduled(s, key) {
      assert Armed(s, key);
      var id :| id in s.timers && s.timers[id].key == key && s.timers[id].generation == s.scheduled[key];
      assert TimerOk(s, id) && t == s;
    } else {
      assert forall id | id in s.timers :: TimerOk(s, id);
      assert t.timers[s.nextTimer].source == owner;
    }
  }

  /** No timer of this generation will ask the owner. */
  predicate NoneOfOwner(s: Clock, key: TaskKey, owner: string) {
    forall id | id in s.timers && s.timers[id].key == key && s.timers[id].generation == s.generation :: s.timers[id].source != owner
  }

  /** A timer of another owner, when it fires, sends nothing to anyone about the task. */
  lemma OtherTimerSendsNothing(s: Clock, e: Signal, key: TaskKey, owner: string)
    requires s.connected && OwnerOf(s, key) == owner && NoneOfOwner(s, key, owner)
    requires Next(s, e).generation == s.generation && !(e.Broadcast? && e.key == key)
    ensures NoneOfOwner(Next(s, e), key, owner)
    ensures |Next(s, e).follows| <= |s.follows| + 1
    ensures |Next(s, e).follows| > |s.follows| ==> Next(s, e).follows[|s.follows|].key != key
  {
  }

  lemma AfterAppend(s: Clock, signals: seq<Signal>, e: Signal)
    ensures After(s, signals + [e]) == Next(After(s, signals), e)
  {
    assert (signals + [e])[..|signals|] == signals;
  }

  lemma {:induction false} PromiseIsKept(s: Clock, later: seq<Signal>, key: TaskKey, owner: string)
    requires Consistent(s) && Trusted(s, key, owner) && ArmedByOwner(s, key, owner)
    requires forall i | 0 <= i <= |later| :: Steady(After(Next(s, Broadcast(key, owner)), later[..i]), key, owner, s.generation)
    ensures var t := After(Next(s, Broadcast(key, owner)), later);
            && Consistent(t) && s.time <= t.time && |s.follows| <= |t.follows|
            && (Served(t, key, owner, s.time, |s.follows|) || Due(t, key, owner, s.time))
  {
    var start := Next(s, Broadcast(key, owner));
    hide Consistent, Due, Served, ArmedByOwner;
    if later == [] {
      NextKeepsConsistent(s, Broadcast(key, owner));
      BroadcastMakesPromise(s, key, owner);
    } else {
      var shorter, last := later[..|later| - 1], later[|later| - 1];
      forall i | 0 <= i <= |shorter| ensures Steady(After(start, shorter[..i]), key, owner, s.generation) {
        assert shorter[..i] == later[..i];
      }
      PromiseIsKept(s, shorter, key, owner);
      assert later[..|later|] == later && later[..|shorter|] == shorter && shorter + [last] == later;
      AfterAppend(start, shorter, last);
      var before, after := After(start, shorter), After(start, later);
      assert Steady(before, key, owner, s.generation) && Steady(after, key, owner, s.generation);
      NextKeepsConsistent(before, last);
      TimeMovesForward(before, last);
      FollowsGrow(before, last);
      hide Next, After;
      assert before.generation == s.generation;
      StepKeepsPromise(before, last, key, owner, s.time, |s.follows|);
    }
  }

  lemma TimeMovesForward(s: Clock, e: Signal)
    ensures s.time <= Next(s, e).time
  {
  }

  /** While connection and owner stay as they are, every trusted incremental
      broadcast is followed by a refresh within one period, whatever else is
      broadcast meanwhile. A refresh already pending must be this owner's. */
  lemma NoStarvation(s: Clock, later: seq<Signal>, key: TaskKey, owner: string)
    requires Consistent(s) && Trusted(s, key, owner) && ArmedByOwner(s, key, owner)
    requires forall i | 0 <= i <= |later| :: Steady(After(Next(s, Broadcast(key, owner)), later[..i]), key, owner, s.generation)
    requires After(Next(s, Broadcast(key, owner)), later).time > s.time + PERIOD
    ensures Served(After(Next(s, Broadcast(key, owner)), later), key, owner, s.time, |s.follows|)
  {
    PromiseIsKept(s, later, key, owner);
    var t := After(Next(s, Broadcast(key, owner)), later);
    assert forall id | id in t.timers :: TimerOk(t, id);
  }

  lemma {:induction false} NothingIsSent(s: Clock, later: seq<Signal>, key: TaskKey, owner: string)
    requires NoneOfOwner(s, key, owner) && forall e | e in later :: !(e.Broadcast? && e.key == key)
    requires forall i | 0 <= i <= |later| :: Steady(After(s, later[..i]), key, owner, s.generation)
    ensures var t := After(s, later);
      && NoneOfOwner(t, key, owner) && |s.follows| <= |t.follows|
      && forall i | |s.follows| <= i < |t.follows| :: t.follows[i].key != key
  {
    if later != [] {
      var shorter, last := later[..|later| - 1], later[|later| - 1];
      forall i | 0 <= i <= |shorter| ensures Steady(After(s, shorter[..i]), key, owner, s.generation) { assert shorter[..i] == later[..i]; }
      NothingIsSent(s, shorter, key, owner);
      assert later[..|later|] == later && later[..|shorter|] == shorter && last in later;
      var before := After(s, shorter);
      assert Steady(before, key, owner, s.generation) && Steady(Next(before, last), key, owner, s.generation);
      OtherTimerSendsNothing(before, last, key, owner);
      FollowsGrow(before, last);
      hide Next, NoneOfOwner;
    }
  }

  /**
   A broadcast that no other one of the task follows is served within a period, if and
   only if no timer of another owner was pending when it came.
   */
  lemma ServedExactly(s: Clock, later: seq<Signal>, key: TaskKey, owner: string)
    requires Consistent(s) && Trusted(s, key, owner) && forall e | e in later :: !(e.Broadcast? && e.key == key)
    requires forall i | 0 <= i <= |later| :: Steady(After(Next(s, Broadcast(key, owner)), later[..i]), key, owner, s.generation)
    requires After(Next(s, Broadcast(key, owner)), later).time > s.time + PERIOD
    ensures Served(After(Next(s, Broadcast(key, owner)), later), key, owner, s.time, |s.follows|) <==> ArmedByOwner(s, key, owner)
  {
    BroadcastMakesPromise(s, key, owner);
    if ArmedByOwner(s, key, owner) {
      NoStarvation(s, later, key, owner);
    } else {
      NothingIsSent(s, later, key, owner);
    }
  }

  function Handover(key: TaskKey): Clock {
    Clock(true, 0, map[key := "B"], map[key := 0], map[0 := Timer(key, 0, "A", PERIOD)], 1, 0, [])
  }

  /** The previous owner broadcasts, and then the task changes its owner. */
  lemma HandoverHappens(key: TaskKey) returns (before: seq<Signal>)
    ensures After(IDLE, before) == Handover(key)
  {
    var s0 := IDLE.(connected := true, owners := map[key := "A"]);
    var s1 := s0.(scheduled := map[key := 0], timers := map[0 := Timer(key, 0, "A", PERIOD)], nextTimer := 1);
    AfterAppend(IDLE, [], Connected);
    before := [] + [Connected];
    AfterAppend(IDLE, before, OwnerKnown(key, "A"));
    before := before + [OwnerKnown(key, "A")];
    assert After(IDLE, before) == s0;
    AfterAppend(IDLE, before, Broadcast(key, "A"));
    before := before + [Broadcast(key, "A")];
    assert After(IDLE, before) == s1;
    AfterAppend(IDLE, before, OwnerKnown(key, "B"));
    before := before + [OwnerKnown(key, "B")];
  }

  lemma HandoverPasses(key: TaskKey) returns (later: seq<Signal>)
    ensures var t := After(Handover(key), later);
      t == Handover(key).(scheduled := map[], timers := map[], time := PERIOD + 1)
  {
    var s := Handover(key);
    AfterAppend(s, [], Pass(PERIOD));
    AfterAppend(s, [] + [Pass(PERIOD)], Fire(0));
    AfterAppend(s, [] + [Pass(PERIOD)] + [Fire(0)], Pass(1));
    later := [] + [Pass(PERIOD)] + [Fire(0)] + [Pass(1)];
    assert s.timers - {0} == map[] && s.scheduled - {key} == map[];
  }

  /** A new owner's broadcast is dropped while the previous owner's timer is armed:
      afterwards nothing is scheduled and nobody was asked. */
  lemma NewOwnerCanBeDropped(key: TaskKey) returns (before: seq<Signal>, later: seq<Signal>)
    ensures var s := After(IDLE, before);
            && Trusted(s, key, "B") && !ArmedByOwner(s, key, "B")
            && var t := After(Next(s, Broadcast(key, "B")), later);
            && t.time > s.time + PERIOD && Steady(t, key, "B", s.generation)
            && t.follows == [] && t.timers == map[]
  {
    before := HandoverHappens(key);
    later := HandoverPasses(key);
    hide After;
    var s := Handover(key);
    assert 0 in s.timers && s.timers[0].source == "A";
    assert Next(s, Broadcast(key, "B")) == s;
  }

  // ----- The code ---------------------------------------------------------------

  /** The fields that scheduling touches, as the code updates them. */
  class Scheduler {
    var connected: bool
    var connectionGeneration: nat
    var owners: map<TaskKey, string>
    var snapshotRefreshes: map<TaskKey, nat>
    var timers: map<nat, Timer>
    var nextTimer: nat
    var time: nat
    var follows: seq<Follow>

    ghost function Abs(): Clock
      reads this
    {
      Clock(connected, connectionGeneration, owners, snapshotRefreshes, timers, nextTimer, time, follows)
    }

    function CurrentOwner(key: TaskKey): string
      reads this
    {
      if key in owners then owners[key] else ""
    }

    /** Keeps at most one timer armed for a task, whatever is broadcast. */
    method ScheduleSnapshotRefresh(key: TaskKey, source: string)
      requires Consistent(Abs())
      modifies this`snapshotRefreshes, this`timers, this`nextTimer
      ensures Consistent(Abs()) && Abs() == Schedule(old(Abs()), key, source)
    {
      ScheduleKeepsConsistent(Abs(), key, source);
      hide *;
      ArmOnce(key, source);
    }

    method ArmOnce(key: TaskKey, source: string)
      modifies this`snapshotRefreshes, this`timers, this`nextTimer
      ensures Abs() == Schedule(old(Abs()), key, source)
    {
      if !connected || source == "" || CurrentOwner(key) != source { return; }
      var generation := connectionGeneration;
      if key in snapshotRefreshes && snapshotRefreshes[key] == generation { return; }
      snapshotRefreshes := snapshotRefreshes[key := generation];
      timers := timers[nextTimer := Timer(key, generation, source, time + PERIOD)];
      nextTimer := nextTimer + 1;
    }

    /** The timer's callback; its variables are those it was armed with. */
    method TimerFired(id: nat)
      requires Consistent(Abs()) && id in timers && timers[id].deadline <= time
      modifies this`snapshotRefreshes, this`timers, this`follows
      ensures Consistent(Abs()) && Abs() == FireTimer(old(Abs()), id)
    {
      FireKeepsConsistent(Abs(), id);
      hide Consistent;
      var t := timers[id];
      timers := timers - {id};
      if t.key !in snapshotRefreshes || snapshotRefreshes[t.key] != t.generation { return; }
      snapshotRefreshes := snapshotRefreshes - {t.key};
      var valid := connected && connectionGeneration == t.generation && CurrentOwner(t.key) == t.source;
      if valid {
        follows := follows + [Follow(t.key, t.source, time)];
      }
    }
  }
}

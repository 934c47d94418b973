/**
 Attribution of token increments to projects. A thread's timeline says which
 project it was bound to from when; a thread without one inherits its parent's.
 */
module ProjectUsage {
  import opened Prelude

  type ThreadId = string
  type ProjectId = string

  datatype Transition = Transition(project: ProjectId, boundAt: int)

  datatype Thread = Thread(id: ThreadId, parent: Option<ThreadId>, path: Option<string>, createdAt: int)

  datatype Sample = Sample(date: int, total: int)

  datatype Account = Account(total: int, today: int, since: int, uncounted: nat)

  type Ledger = map<ProjectId, Account>

  // ----- The timeline of a thread ----------------------------------------------------

  type Metadata = map<ThreadId, Thread>

  /** The ancestor after so many steps up, while there is one. */
  function Ancestor(metadata: Metadata, id: ThreadId, steps: nat): Option<ThreadId> {
    if steps == 0 then Some(id)
    else
      var below := Ancestor(metadata, id, steps - 1);
      if below.Some? && below.value in metadata then metadata[below.value].parent else None
  }

  ghost predicate Bare(metadata: Metadata, timelines: map<ThreadId, seq<Transition>>, id: ThreadId, steps: nat) {
    forall k: nat | k < steps :: Ancestor(metadata, id, k).Some? ==> Ancestor(metadata, id, k).value !in timelines
  }

  /** The nearest ancestor with a timeline lends it; without one there is none, however long the chain. */
  ghost predicate IsNearest(metadata: Metadata, timelines: map<ThreadId, seq<Transition>>, id: ThreadId, result: Option<seq<Transition>>) {
    match result
    case Some(timeline) =>
      exists k: nat :: Ancestor(metadata, id, k).Some? && Ancestor(metadata, id, k).value in timelines
        && timeline == timelines[Ancestor(metadata, id, k).value] && Bare(metadata, timelines, id, k)
    case None => forall k: nat :: Bare(metadata, timelines, id, k)
  }

  lemma {:induction false} ChainEnds(metadata: Metadata, id: ThreadId, n: nat, k: nat)
    requires Ancestor(metadata, id, n).None? && n <= k
    ensures Ancestor(metadata, id, k).None?
  {
    if k > n { ChainEnds(metadata, id, n, k - 1); }
  }

  /** On a cycle every further ancestor has been met before. */
  lemma {:induction false} CycleRepeats(metadata: Metadata, id: ThreadId, first: nat, again: nat, k: nat)
    requires first < again && Ancestor(metadata, id, first) == Ancestor(metadata, id, again)
    ensures exists j: nat :: j < again && Ancestor(metadata, id, k) == Ancestor(metadata, id, j)
  {
    if k < again {
    } else if k == again {
      assert Ancestor(metadata, id, k) == Ancestor(metadata, id, first);
    } else {
      CycleRepeats(metadata, id, first, again, k - 1);
      var j: nat :| j < again && Ancestor(metadata, id, k - 1) == Ancestor(metadata, id, j);
      assert Ancestor(metadata, id, k) == Ancestor(metadata, id, j + 1);
      if j + 1 == again { assert Ancestor(metadata, id, k) == Ancestor(metadata, id, first); }
    }
  }

  method InheritedTimeline(threadId: ThreadId, timelines: map<ThreadId, seq<Transition>>, metadata: Metadata)
    returns (result: Option<seq<Transition>>)
    ensures IsNearest(metadata, timelines, threadId, result)
  {
    var current := Some(threadId);
    var visited: set<ThreadId> := {};
    ghost var n: nat := 0;
    ghost var everyone := {threadId} + set id | id in metadata && metadata[id].parent.Some? :: metadata[id].parent.value;
    while current.Some? && current.value !in visited
      invariant current == Ancestor(metadata, threadId, n)
      invariant Bare(metadata, timelines, threadId, n)
      invariant forall id | id in visited :: exists k: nat :: k < n && Ancestor(metadata, threadId, k) == Some(id)
      invariant visited <= everyone && (current.Some? ==> current.value in everyone)
      decreases everyone - visited
    {
      var id := current.value;
      visited := visited + {id};
      if id in timelines { return Some(timelines[id]); }
      current := if id in metadata then metadata[id].parent else None;
      n := n + 1;
      assert Ancestor(metadata, threadId, n - 1) == Some(id);
    }
    forall k: nat ensures Bare(metadata, timelines, threadId, k) {
      forall j: nat | j < k && Ancestor(metadata, threadId, j).Some? ensures Ancestor(metadata, threadId, j).value !in timelines {
        if current.None? {
          if n <= j { ChainEnds(metadata, threadId, n, j); }
        } else {
          var first: nat :| first < n && Ancestor(metadata, threadId, first) == current;
          CycleRepeats(metadata, threadId, first, n, j);
        }
      }
    }
    return None;
  }

  // ----- One thread's entries -----------------------------------------------------------------

  /** What became of one sample: its growth, the binding it falls under, and whether it counts. */
  datatype Entry = Entry(date: int, delta: int, binding: Option<Transition>, counted: bool)

  function LastBound(transitions: seq<Transition>, date: int): (binding: Option<Transition>)
    ensures binding.None? <==> forall t | t in transitions :: t.boundAt > date
    ensures binding.Some? ==> binding.value in transitions && binding.value.boundAt <= date
  {
    if transitions == [] then None
    else
      var last := transitions[|transitions| - 1];
      assert transitions == transitions[..|transitions| - 1] + [last];
      if last.boundAt <= date then Some(last) else LastBound(transitions[..|transitions| - 1], date)
  }

  function EntryOf(previous: Option<int>, sample: Sample, transitions: seq<Transition>, createdAt: int): Entry {
    var delta := if previous.Some? && sample.total >= previous.value then sample.total - previous.value else sample.total;
    var binding := LastBound(transitions, sample.date);
    Entry(sample.date, delta, binding, previous.Some? || binding.None? || binding.value.boundAt <= createdAt)
  }

  function Entries(previous: Option<int>, samples: seq<Sample>, transitions: seq<Transition>, createdAt: int): seq<Entry>
    decreases |samples|
  {
    if samples == [] then []
    else [EntryOf(previous, samples[0], transitions, createdAt)] + Entries(Some(samples[0].total), samples[1..], transitions, createdAt)
  }

  function Min(a: int, b: int): int {
    if a < b then a else b
  }

  function Post(ledger: Ledger, e: Entry, startOfDay: int, now: int): Ledger {
    if e.delta <= 0 || e.binding.None? then ledger
    else
      var t := e.binding.value;
      var before := if t.project in ledger then ledger[t.project] else Account(0, 0, t.boundAt, 0);
      var account := before.(since := Min(before.since, t.boundAt));
      ledger[t.project :=
        if !e.counted then account.(uncounted := account.uncounted + 1)
        else account.(total := account.total + e.delta,
                      today := account.today + if startOfDay <= e.date <= now then e.delta else 0)]
  }

  function PostAll(ledger: Ledger, entries: seq<Entry>, startOfDay: int, now: int): Ledger
    decreases |entries|
  {
    if entries == [] then ledger else PostAll(Post(ledger, entries[0], startOfDay, now), entries[1..], startOfDay, now)
  }

  method ReadThread(ledger: Ledger, samples: seq<Sample>, transitions: seq<Transition>, createdAt: int, startOfDay: int, now: int)
    returns (accumulators: Ledger)
    ensures accumulators == PostAll(ledger, Entries(None, samples, transitions, createdAt), startOfDay, now)
  {
    accumulators := ledger;
    var previous: Option<int> := None;
    assert samples[0..] == samples;
    for i := 0 to |samples|
      invariant PostAll(accumulators, Entries(previous, samples[i..], transitions, createdAt), startOfDay, now)
        == PostAll(ledger, Entries(None, samples, transitions, createdAt), startOfDay, now)
    {
      var sample := samples[i];
      OneSampleMore(accumulators, previous, samples, i, transitions, createdAt, startOfDay, now);
      hide PostAll, Entries, LastBound;
      var delta := sample.total;
      if previous.Some? && sample.total >= previous.value { delta := sample.total - previous.value; }
      var hadBaseline := previous.Some?;
      previous := Some(sample.total);
      var binding := LastBound(transitions, sample.date);
      if delta <= 0 || binding.None? { continue; }
      var transition := binding.value;
      var accumulator := if transition.project in accumulators then accumulators[transition.project] else Account(0, 0, transition.boundAt, 0);
      if !hadBaseline && transition.boundAt > createdAt {
        accumulator := accumulator.(uncounted := accumulator.uncounted + 1, since := Min(accumulator.since, transition.boundAt));
        accumulators := accumulators[transition.project := accumulator];
        continue;
      }
      accumulator := accumulator.(total := accumulator.total + delta);
      if sample.date >= startOfDay && sample.date <= now { accumulator := accumulator.(today := accumulator.today + delta); }
      accumulator := accumulator.(since := Min(accumulator.since, transition.boundAt));
      accumulators := accumulators[transition.project := accumulator];
    }
    assert samples[|samples|..] == [];
  }

  lemma OneSampleMore(ledger: Ledger, previous: Option<int>, samples: seq<Sample>, i: nat, transitions: seq<Transition>,
                      createdAt: int, startOfDay: int, now: int)
    requires i < |samples|
    ensures PostAll(ledger, Entries(previous, samples[i..], transitions, createdAt), startOfDay, now)
      == PostAll(Post(ledger, EntryOf(previous, samples[i], transitions, createdAt), startOfDay, now),
                 Entries(Some(samples[i].total), samples[i + 1..], transitions, createdAt), startOfDay, now)
  {
    hide Post, EntryOf;
    assert samples[i..][0] == samples[i] && samples[i..][1..] == samples[i + 1..];
    var head, tail := EntryOf(previous, samples[i], transitions, createdAt), Entries(Some(samples[i].total), samples[i + 1..], transitions, createdAt);
    assert ([head] + tail)[1..] == tail;
  }

  /** A sample grew by its distance from the sample before it, or by all of itself when there is none or the counter fell. */
  predicate IsGrowth(samples: seq<Sample>, i: nat, delta: int)
    requires i < |samples|
  {
    delta == if i > 0 && samples[i - 1].total <= samples[i].total then samples[i].total - samples[i - 1].total else samples[i].total
  }

  /**
   The entries of a log: the growth of each sample, under the last binding not after it.
   The first one counts only without a binding, or with one not later than the thread.
   */
  lemma {:induction false} EntryAt(previous: Option<int>, samples: seq<Sample>, transitions: seq<Transition>, createdAt: int, i: nat)
    requires i < |samples|
    ensures var entries := Entries(previous, samples, transitions, createdAt);
      && |entries| == |samples|
      && entries[i].date == samples[i].date && entries[i].binding == LastBound(transitions, samples[i].date)
      && ((i > 0 || previous.None?) ==> IsGrowth(samples, i, entries[i].delta))
      && (i == 0 && previous.Some? ==>
            entries[0].delta == if previous.value <= samples[0].total then samples[0].total - previous.value else samples[0].total)
      && (entries[i].counted <==> i > 0 || previous.Some? || entries[i].binding.None? || entries[i].binding.value.boundAt <= createdAt)
    decreases |samples|
  {
    var rest := Entries(Some(samples[0].total), samples[1..], transitions, createdAt);
    if i > 0 {
      EntryAt(Some(samples[0].total), samples[1..], transitions, createdAt, i - 1);
      assert Entries(previous, samples, transitions, createdAt)[i] == rest[i - 1];
      if i > 1 { assert samples[1..][i - 2] == samples[i - 1]; }
    } else if |samples| > 1 {
      EntryAt(Some(samples[0].total), samples[1..], transitions, createdAt, 0);
    }
  }

  // ----- What the entries amount to ---------------------------------------------------------------

  function Grown(e: Entry): int {
    if e.delta > 0 then e.delta else 0
  }

  function CreditedTo(e: Entry, project: ProjectId): int {
    if e.binding.Some? && e.counted && e.binding.value.project == project then Grown(e) else 0
  }

  function Credit(entries: seq<Entry>, project: ProjectId): int {
    if entries == [] then 0 else CreditedTo(entries[0], project) + Credit(entries[1..], project)
  }

  function CreditToday(entries: seq<Entry>, project: ProjectId, startOfDay: int, now: int): int {
    if entries == [] then 0
    else
      (if startOfDay <= entries[0].date <= now then CreditedTo(entries[0], project) else 0)
      + CreditToday(entries[1..], project, startOfDay, now)
  }

  function SkippedFor(e: Entry, project: ProjectId): nat {
    if e.delta > 0 && e.binding.Some? && !e.counted && e.binding.value.project == project then 1 else 0
  }

  function Skips(entries: seq<Entry>, project: ProjectId): nat {
    if entries == [] then 0 else SkippedFor(entries[0], project) + Skips(entries[1..], project)
  }

  function AccountOf(ledger: Ledger, project: ProjectId): Account {
    if project in ledger then ledger[project] else Account(0, 0, 0, 0)
  }

  /** Each account grows by exactly what was credited to its project. */
  lemma {:induction false} PostingCredits(ledger: Ledger, entries: seq<Entry>, startOfDay: int, now: int, project: ProjectId)
    ensures var before, after := AccountOf(ledger, project), AccountOf(PostAll(ledger, entries, startOfDay, now), project);
      && after.total == before.total + Credit(entries, project)
      && after.today == before.today + CreditToday(entries, project, startOfDay, now)
      && after.uncounted == before.uncounted + Skips(entries, project)
    decreases |entries|
  {
    if entries != [] { PostingCredits(Post(ledger, entries[0], startOfDay, now), entries[1..], startOfDay, now, project); }
  }

  predicate Touches(e: Entry, project: ProjectId) {
    e.delta > 0 && e.binding.Some? && e.binding.value.project == project
  }

  /** The account was there, and its tracking starts where it did. */
  predicate Tracked(before: Ledger, after: Ledger, project: ProjectId)
    requires project in after
  {
    project in before && after[project].since == before[project].since
  }

  /** An account's tracking starts no later than any binding that growth fell under. */
  lemma {:induction false} SinceReachesBack(ledger: Ledger, entries: seq<Entry>, startOfDay: int, now: int, project: ProjectId)
    ensures var after := PostAll(ledger, entries, startOfDay, now);
      && (project in ledger ==> project in after && after[project].since <= ledger[project].since)
      && (forall e | e in entries && Touches(e, project) :: project in after && after[project].since <= e.binding.value.boundAt)
      && (project in after ==> Tracked(ledger, after, project) || exists e | e in entries :: Touches(e, project) && after[project].since == e.binding.value.boundAt)
    decreases |entries|
  {
    if entries != [] {
      var head, next := entries[0], Post(ledger, entries[0], startOfDay, now);
      SinceReachesBack(next, entries[1..], startOfDay, now, project);
      assert entries == [head] + entries[1..];
      assert head in entries;
      assert Touches(head, project) ==> project in next && next[project].since <= head.binding.value.boundAt;
      assert project in next ==> Tracked(ledger, next, project) || (Touches(head, project) && next[project].since == head.binding.value.boundAt);
      hide Post, PostAll;
    }
  }

  function Growth(entries: seq<Entry>): int {
    if entries == [] then 0 else Grown(entries[0]) + Growth(entries[1..])
  }

  /** Growth that is an uncounted baseline. */
  function Skipped(entries: seq<Entry>): int {
    if entries == [] then 0
    else (if entries[0].binding.Some? && !entries[0].counted then Grown(entries[0]) else 0) + Skipped(entries[1..])
  }

  /** Growth before every binding. */
  function Preceding(entries: seq<Entry>): int {
    if entries == [] then 0 else (if entries[0].binding.None? then Grown(entries[0]) else 0) + Preceding(entries[1..])
  }

  function CreditOver(entries: seq<Entry>, projects: seq<ProjectId>): int {
    if projects == [] then 0 else Credit(entries, projects[0]) + CreditOver(entries, projects[1..])
  }

  ghost predicate Distinct(projects: seq<ProjectId>) {
    forall i, j | 0 <= i < j < |projects| :: projects[i] != projects[j]
  }

  lemma {:induction false} OneEntryOver(e: Entry, rest: seq<Entry>, projects: seq<ProjectId>)
    requires Distinct(projects)
    ensures CreditOver([e] + rest, projects)
      == CreditOver(rest, projects) + if e.binding.Some? && e.counted && e.binding.value.project in projects then Grown(e) else 0
  {
    if projects != [] {
      OneEntryOver(e, rest, projects[1..]);
      assert ([e] + rest)[1..] == rest && projects == [projects[0]] + projects[1..];
      assert e.binding.Some? && e.binding.value.project in projects[1..] ==> e.binding.value.project != projects[0];
    }
  }

  lemma {:induction false} NoEntriesOver(projects: seq<ProjectId>)
    ensures CreditOver([], projects) == 0
  {
    if projects != [] { NoEntriesOver(projects[1..]); }
  }

  /** Nothing is lost and nothing counts twice: credited, skipped and preceding growth is all growth. */
  lemma {:induction false} GrowthIsConserved(entries: seq<Entry>, projects: seq<ProjectId>)
    requires Distinct(projects) && forall e | e in entries :: e.binding.Some? ==> e.binding.value.project in projects
    ensures CreditOver(entries, projects) + Skipped(entries) + Preceding(entries) == Growth(entries)
  {
    if entries == [] {
      NoEntriesOver(projects);
    } else {
      assert entries == [entries[0]] + entries[1..];
      assert entries[0] in entries;
      GrowthIsConserved(entries[1..], projects);
      OneEntryOver(entries[0], entries[1..], projects);
    }
  }

  /** Only the first sample of a thread can be an uncounted baseline. */
  lemma {:induction false} OnlyFirstIsSkipped(previous: Option<int>, samples: seq<Sample>, transitions: seq<Transition>, createdAt: int, project: ProjectId)
    ensures var entries := Entries(previous, samples, transitions, createdAt);
      && |entries| == |samples|
      && (forall i | 0 <= i < |entries| && (i > 0 || previous.Some?) :: entries[i].counted)
      && Skips(entries, project) <= if previous.Some? then 0 else 1
    decreases |samples|
  {
    if samples != [] {
      OnlyFirstIsSkipped(Some(samples[0].total), samples[1..], transitions, createdAt, project);
      hide LastBound;
    }
  }

  /** Binding k is the last of those that are not after `date`. */
  predicate IsLatest(transitions: seq<Transition>, date: int, k: nat) {
    && k < |transitions| && transitions[k].boundAt <= date
    && forall j | 0 <= j < |transitions| :: transitions[j].boundAt <= date <==> j <= k
  }

  /** With the bindings in order, growth goes to the latest binding that is not after it. */
  lemma {:induction false} LatestBindingWins(transitions: seq<Transition>, date: int)
    requires forall i, j | 0 <= i < j < |transitions| :: transitions[i].boundAt <= transitions[j].boundAt
    ensures LastBound(transitions, date).Some? ==>
      exists k: nat :: IsLatest(transitions, date, k) && LastBound(transitions, date).value == transitions[k]
  {
    if transitions != [] {
      var n := |transitions| - 1;
      if transitions[n].boundAt <= date {
        assert IsLatest(transitions, date, n);
      } else {
        LatestBindingWins(transitions[..n], date);
        if k: nat :| IsLatest(transitions[..n], date, k) && LastBound(transitions[..n], date).value == transitions[k] {
          assert forall j | 0 <= j < n :: transitions[..n][j] == transitions[j];
          assert IsLatest(transitions, date, k);
        }
      }
    }
  }

  // ----- All threads ----------------------------------------------------------------------------------

  /** The samples of the log at a path, when it can be read. */
  type Logs = string -> Option<seq<Sample>>

  predicate Lends(metadata: Metadata, timelines: map<ThreadId, seq<Transition>>, id: ThreadId, k: nat) {
    && Ancestor(metadata, id, k).Some? && Ancestor(metadata, id, k).value in timelines
    && forall j: nat | j < k :: Ancestor(metadata, id, j).Some? ==> Ancestor(metadata, id, j).value !in timelines
  }

  ghost function Timeline(metadata: Metadata, timelines: map<ThreadId, seq<Transition>>, id: ThreadId): seq<Transition> {
    if exists k: nat :: Lends(metadata, timelines, id, k) then
      var k: nat :| Lends(metadata, timelines, id, k);
      timelines[Ancestor(metadata, id, k).value]
    else []
  }

  lemma NearestIsTimeline(metadata: Metadata, timelines: map<ThreadId, seq<Transition>>, id: ThreadId, result: Option<seq<Transition>>)
    requires IsNearest(metadata, timelines, id, result)
    ensures Timeline(metadata, timelines, id) == result.GetOr([])
  {
    if result.Some? {
      var k: nat :| Ancestor(metadata, id, k).Some? && Ancestor(metadata, id, k).value in timelines
        && result.value == timelines[Ancestor(metadata, id, k).value] && Bare(metadata, timelines, id, k);
      assert Lends(metadata, timelines, id, k);
      forall j: nat | Lends(metadata, timelines, id, j) ensures j == k {}
    } else {
      if k: nat :| Lends(metadata, timelines, id, k) { assert Bare(metadata, timelines, id, k + 1); }
    }
  }

  predicate Readable(thread: Thread, logs: Logs) {
    thread.path.Some? && logs(thread.path.value).Some?
  }

  /** The entries of a thread whose log is read: it has a timeline, and the log is there. */
  ghost function EntriesOf(thread: Thread, metadata: Metadata, timelines: map<ThreadId, seq<Transition>>, logs: Logs): seq<Entry> {
    if Readable(thread, logs) && Timeline(metadata, timelines, thread.id) != []
    then Entries(None, logs(thread.path.value).value, Timeline(metadata, timelines, thread.id), thread.createdAt)
    else []
  }

  /** A thread that is bound to a project but cannot be read makes the project incomplete. */
  ghost predicate Unreadable(thread: Thread, metadata: Metadata, timelines: map<ThreadId, seq<Transition>>, logs: Logs, project: ProjectId) {
    !Readable(thread, logs) && exists t :: t in Timeline(metadata, timelines, thread.id) && t.project == project
  }

  /** Every account of these projects notes one more log that could not be read. */
  function Marked(ledger: Ledger, projects: set<ProjectId>, now: int): Ledger {
    map project | project in ledger.Keys + projects ::
      var account := if project in ledger then ledger[project] else Account(0, 0, now, 0);
      if project in projects then account.(uncounted := account.uncounted + 1) else account
  }

  method MarkIncomplete(projects: set<ProjectId>, ledger: Ledger, now: int) returns (values: Ledger)
    ensures values == Marked(ledger, projects, now)
  {
    values := ledger;
    var left := projects;
    while left != {}
      invariant left <= projects && values == Marked(ledger, projects - left, now)
      decreases left
    {
      var project :| project in left;
      MarkOneMore(ledger, projects - left, project, now);
      assert projects - left + {project} == projects - (left - {project});
      var accumulator := if project in values then values[project] else Account(0, 0, now, 0);
      values := values[project := accumulator.(uncounted := accumulator.uncounted + 1)];
      left := left - {project};
    }
    assert projects - {} == projects;
  }

  lemma MarkOneMore(ledger: Ledger, done: set<ProjectId>, project: ProjectId, now: int)
    requires project !in done
    ensures var values := Marked(ledger, done, now);
      var account := if project in values then values[project] else Account(0, 0, now, 0);
      Marked(ledger, done + {project}, now) == values[project := account.(uncounted := account.uncounted + 1)]
  {
  }

  /** What one thread does to the accounts. */
  ghost function OneRead(ledger: Ledger, thread: Thread, metadata: Metadata, timelines: map<ThreadId, seq<Transition>>, logs: Logs,
                         startOfDay: int, now: int): Ledger
  {
    var transitions := Timeline(metadata, timelines, thread.id);
    if transitions == [] then ledger
    else if !Readable(thread, logs) then Marked(ledger, set t | t in transitions :: t.project, now)
    else PostAll(ledger, Entries(None, logs(thread.path.value).value, transitions, thread.createdAt), startOfDay, now)
  }

  ghost function AllRead(ledger: Ledger, threads: seq<Thread>, metadata: Metadata, timelines: map<ThreadId, seq<Transition>>, logs: Logs,
                         startOfDay: int, now: int): Ledger
  {
    if threads == [] then ledger
    else
      OneRead(AllRead(ledger, threads[..|threads| - 1], metadata, timelines, logs, startOfDay, now), threads[|threads| - 1],
              metadata, timelines, logs, startOfDay, now)
  }

  method ReadOne(ledger: Ledger, thread: Thread, metadata: Metadata, timelines: map<ThreadId, seq<Transition>>, logs: Logs,
                 startOfDay: int, now: int) returns (accumulators: Ledger)
    ensures accumulators == OneRead(ledger, thread, metadata, timelines, logs, startOfDay, now)
  {
    var inherited := InheritedTimeline(thread.id, timelines, metadata);
    NearestIsTimeline(metadata, timelines, thread.id, inherited);
    hide IsNearest, Timeline;
    accumulators := ledger;
    if inherited.None? || inherited.value == [] { return; }
    var transitions := inherited.value;
    if !Readable(thread, logs) {
      accumulators := MarkIncomplete(set t | t in transitions :: t.project, ledger, now);
      return;
    }
    accumulators := ReadThread(ledger, logs(thread.path.value).value, transitions, thread.createdAt, startOfDay, now);
  }

  function Opened(projects: seq<ProjectId>, since: int): Ledger {
    map project | project in projects :: Account(0, 0, since, 0)
  }

  function Index(threads: seq<Thread>): Metadata {
    if threads == [] then map[] else Index(threads[..|threads| - 1])[threads[|threads| - 1].id := threads[|threads| - 1]]
  }

  /** All threads, one after the other, starting from empty accounts of the projects. */
  method Read(projects: seq<ProjectId>, threads: seq<Thread>, timelines: map<ThreadId, seq<Transition>>, logs: Logs,
              trackingStartedAt: int, startOfDay: int, now: int) returns (accumulators: Ledger)
    ensures accumulators == AllRead(Opened(projects, trackingStartedAt), threads, Index(threads), timelines, logs, startOfDay, now)
  {
    var metadata := Index(threads);
    accumulators := Opened(projects, trackingStartedAt);
    for i := 0 to |threads|
      invariant accumulators == AllRead(Opened(projects, trackingStartedAt), threads[..i], metadata, timelines, logs, startOfDay, now)
    {
      assert threads[..i + 1][..i] == threads[..i];
      accumulators := ReadOne(accumulators, threads[i], metadata, timelines, logs, startOfDay, now);
      hide OneRead, Opened;
    }
    assert threads[..|threads|] == threads;
  }

  /** Of the threads with one id the last is known. */
  lemma {:induction false} LastIsIndexed(threads: seq<Thread>, id: ThreadId)
    ensures id in Index(threads) <==> exists i | 0 <= i < |threads| :: threads[i].id == id
    ensures id in Index(threads) ==>
      exists i | 0 <= i < |threads| :: threads[i] == Index(threads)[id] && threads[i].id == id && forall j | i < j < |threads| :: threads[j].id != id
  {
    if threads != [] {
      var n := |threads| - 1;
      LastIsIndexed(threads[..n], id);
      assert forall i | 0 <= i < n :: threads[..n][i] == threads[i];
      if threads[n].id == id { assert threads[n] == Index(threads)[id]; }
    }
  }

  // ----- What the accounts amount to --------------------------------------------------------------

  ghost function TotalOver(threads: seq<Thread>, metadata: Metadata, timelines: map<ThreadId, seq<Transition>>, logs: Logs, project: ProjectId): int {
    if threads == [] then 0
    else
      TotalOver(threads[..|threads| - 1], metadata, timelines, logs, project)
      + Credit(EntriesOf(threads[|threads| - 1], metadata, timelines, logs), project)
  }

  ghost function TodayOver(threads: seq<Thread>, metadata: Metadata, timelines: map<ThreadId, seq<Transition>>, logs: Logs, project: ProjectId,
                           startOfDay: int, now: int): int
  {
    if threads == [] then 0
    else
      TodayOver(threads[..|threads| - 1], metadata, timelines, logs, project, startOfDay, now)
      + CreditToday(EntriesOf(threads[|threads| - 1], metadata, timelines, logs), project, startOfDay, now)
  }

  ghost function UncountedOver(threads: seq<Thread>, metadata: Metadata, timelines: map<ThreadId, seq<Transition>>, logs: Logs, project: ProjectId): nat {
    if threads == [] then 0
    else
      var last := threads[|threads| - 1];
      UncountedOver(threads[..|threads| - 1], metadata, timelines, logs, project)
      + Skips(EntriesOf(last, metadata, timelines, logs), project)
      + if Unreadable(last, metadata, timelines, logs, project) then 1 else 0
  }

  lemma OneReadCredits(ledger: Ledger, thread: Thread, metadata: Metadata, timelines: map<ThreadId, seq<Transition>>, logs: Logs,
                       startOfDay: int, now: int, project: ProjectId)
    ensures var before, after := AccountOf(ledger, project), AccountOf(OneRead(ledger, thread, metadata, timelines, logs, startOfDay, now), project);
      var entries := EntriesOf(thread, metadata, timelines, logs);
      && after.total == before.total + Credit(entries, project)
      && after.today == before.today + CreditToday(entries, project, startOfDay, now)
      && after.uncounted == before.uncounted + Skips(entries, project) + if Unreadable(thread, metadata, timelines, logs, project) then 1 else 0
  {
    hide Timeline;
    PostingCredits(ledger, EntriesOf(thread, metadata, timelines, logs), startOfDay, now, project);
  }

  /** Each project ends with the credit of all threads, today's part of it, and the number of what could not be counted. */
  lemma {:induction false} AllReadCredits(projects: seq<ProjectId>, since: int, threads: seq<Thread>, metadata: Metadata,
                                          timelines: map<ThreadId, seq<Transition>>, logs: Logs, startOfDay: int, now: int, project: ProjectId)
    ensures var account := AccountOf(AllRead(Opened(projects, since), threads, metadata, timelines, logs, startOfDay, now), project);
      && account.total == TotalOver(threads, metadata, timelines, logs, project)
      && account.today == TodayOver(threads, metadata, timelines, logs, project, startOfDay, now)
      && account.uncounted == UncountedOver(threads, metadata, timelines, logs, project)
  {
    if threads != [] {
      var init, last := threads[..|threads| - 1], threads[|threads| - 1];
      AllReadCredits(projects, since, init, metadata, timelines, logs, startOfDay, now, project);
      OneReadCredits(AllRead(Opened(projects, since), init, metadata, timelines, logs, startOfDay, now), last, metadata, timelines, logs,
                     startOfDay, now, project);
      hide OneRead, EntriesOf, Unreadable, Credit, CreditToday, Skips, Opened;
    }
  }

  /** Growth of this thread falls under this binding of the project. */
  ghost predicate BoundBy(thread: Thread, metadata: Metadata, timelines: map<ThreadId, seq<Transition>>, logs: Logs, project: ProjectId, at: int) {
    exists e :: e in EntriesOf(thread, metadata, timelines, logs) && Touches(e, project) && e.binding.value.boundAt == at
  }

  lemma OneReadReachesBack(ledger: Ledger, thread: Thread, metadata: Metadata, timelines: map<ThreadId, seq<Transition>>, logs: Logs,
                           startOfDay: int, now: int, project: ProjectId)
    ensures var after := OneRead(ledger, thread, metadata, timelines, logs, startOfDay, now);
      && (project in ledger ==> project in after && after[project].since <= ledger[project].since)
      && (forall at | BoundBy(thread, metadata, timelines, logs, project, at) :: project in after && after[project].since <= at)
      && (project in after ==>
            || Tracked(ledger, after, project)
            || BoundBy(thread, metadata, timelines, logs, project, after[project].since)
            || (Unreadable(thread, metadata, timelines, logs, project) && after[project].since == now))
  {
    hide Timeline;
    SinceReachesBack(ledger, EntriesOf(thread, metadata, timelines, logs), startOfDay, now, project);
    hide Entries, PostAll;
  }

  /**
   A project is tracked from no later than it was asked for and than any binding that
   growth fell under; from one of these, or from now when a log could not be read.
   */
  lemma {:induction false} AllReadReachesBack(ledger: Ledger, threads: seq<Thread>, metadata: Metadata,
                                              timelines: map<ThreadId, seq<Transition>>, logs: Logs, startOfDay: int, now: int, project: ProjectId)
    ensures var after := AllRead(ledger, threads, metadata, timelines, logs, startOfDay, now);
      && (project in ledger ==> project in after && after[project].since <= ledger[project].since)
      && (forall thread, at | thread in threads && BoundBy(thread, metadata, timelines, logs, project, at) ::
            project in after && after[project].since <= at)
      && (project in after ==>
            || Tracked(ledger, after, project)
            || (exists thread :: thread in threads && BoundBy(thread, metadata, timelines, logs, project, after[project].since))
            || (after[project].since == now && exists thread :: thread in threads && Unreadable(thread, metadata, timelines, logs, project)))
  {
    if threads != [] {
      var init, last := threads[..|threads| - 1], threads[|threads| - 1];
      AllReadReachesBack(ledger, init, metadata, timelines, logs, startOfDay, now, project);
      OneReadReachesBack(AllRead(ledger, init, metadata, timelines, logs, startOfDay, now), last, metadata, timelines, logs, startOfDay, now, project);
      assert threads == init + [last];
      hide OneRead, BoundBy, Unreadable;
    }
  }

  /** Whatever was asked for has an account, tracked from no later than that. */
  lemma AskedAreTracked(projects: seq<ProjectId>, trackingStartedAt: int, threads: seq<Thread>, metadata: Metadata,
                        timelines: map<ThreadId, seq<Transition>>, logs: Logs, startOfDay: int, now: int, project: ProjectId)
    requires project in projects
    ensures var after := AllRead(Opened(projects, trackingStartedAt), threads, metadata, timelines, logs, startOfDay, now);
      project in after && after[project].since <= trackingStartedAt
  {
    AllReadReachesBack(Opened(projects, trackingStartedAt), threads, metadata, timelines, logs, startOfDay, now, project);
    hide AllRead;
  }

  // ----- Conservation over all threads -----------------------------------------------------------

  ghost function AllEntries(threads: seq<Thread>, metadata: Metadata, timelines: map<ThreadId, seq<Transition>>, logs: Logs): seq<Entry> {
    if threads == [] then []
    else AllEntries(threads[..|threads| - 1], metadata, timelines, logs) + EntriesOf(threads[|threads| - 1], metadata, timelines, logs)
  }

  lemma {:induction false} CreditInParts(a: seq<Entry>, b: seq<Entry>, project: ProjectId)
    ensures Credit(a + b, project) == Credit(a, project) + Credit(b, project)
  {
    if a == [] {
      assert a + b == b;
    } else {
      assert (a + b)[1..] == a[1..] + b;
      CreditInParts(a[1..], b, project);
    }
  }

  lemma {:induction false} TotalIsCredit(threads: seq<Thread>, metadata: Metadata, timelines: map<ThreadId, seq<Transition>>, logs: Logs, project: ProjectId)
    ensures TotalOver(threads, metadata, timelines, logs, project) == Credit(AllEntries(threads, metadata, timelines, logs), project)
  {
    if threads != [] {
      var init, last := threads[..|threads| - 1], threads[|threads| - 1];
      TotalIsCredit(init, metadata, timelines, logs, project);
      CreditInParts(AllEntries(init, metadata, timelines, logs), EntriesOf(last, metadata, timelines, logs), project);
    }
  }

  function SumOfTotals(ledger: Ledger, projects: seq<ProjectId>): int {
    if projects == [] then 0 else AccountOf(ledger, projects[0]).total + SumOfTotals(ledger, projects[1..])
  }

  lemma {:induction false} TotalsAreCredit(ledger: Ledger, entries: seq<Entry>, projects: seq<ProjectId>)
    requires forall project :: AccountOf(ledger, project).total == Credit(entries, project)
    ensures SumOfTotals(ledger, projects) == CreditOver(entries, projects)
  {
    if projects != [] { TotalsAreCredit(ledger, entries, projects[1..]); }
  }

  /** Every binding that a timeline has is to one of these projects. */
  predicate Covers(projects: seq<ProjectId>, timelines: map<ThreadId, seq<Transition>>) {
    forall id | id in timelines :: forall t | t in timelines[id] :: t.project in projects
  }

  lemma {:induction false} EntriesAreBound(previous: Option<int>, samples: seq<Sample>, transitions: seq<Transition>, createdAt: int)
    ensures forall e | e in Entries(previous, samples, transitions, createdAt) && e.binding.Some? :: e.binding.value in transitions
    decreases |samples|
  {
    if samples != [] { EntriesAreBound(Some(samples[0].total), samples[1..], transitions, createdAt); }
  }

  lemma TimelineIsCovered(projects: seq<ProjectId>, metadata: Metadata, timelines: map<ThreadId, seq<Transition>>, id: ThreadId)
    requires Covers(projects, timelines)
    ensures forall t | t in Timeline(metadata, timelines, id) :: t.project in projects
  {
  }

  lemma {:induction false} AllEntriesAreCovered(projects: seq<ProjectId>, threads: seq<Thread>, metadata: Metadata,
                                                timelines: map<ThreadId, seq<Transition>>, logs: Logs)
    requires Covers(projects, timelines)
    ensures forall e | e in AllEntries(threads, metadata, timelines, logs) && e.binding.Some? :: e.binding.value.project in projects
  {
    if threads != [] {
      var init, last := threads[..|threads| - 1], threads[|threads| - 1];
      AllEntriesAreCovered(projects, init, metadata, timelines, logs);
      TimelineIsCovered(projects, metadata, timelines, last.id);
      if Readable(last, logs) {
        EntriesAreBound(None, logs(last.path.value).value, Timeline(metadata, timelines, last.id), last.createdAt);
      }
      hide Timeline, Entries, Covers;
    }
  }

  /**
   Over any sequence of logs nothing is lost and nothing counts twice: the totals of all
   projects, the uncounted baselines, and what precedes every binding make up all growth.
   */
  lemma ReadConserves(asked: seq<ProjectId>, since: int, threads: seq<Thread>, timelines: map<ThreadId, seq<Transition>>, logs: Logs,
                      startOfDay: int, now: int, projects: seq<ProjectId>)
    requires Distinct(projects) && Covers(projects, timelines)
    ensures var after := AllRead(Opened(asked, since), threads, Index(threads), timelines, logs, startOfDay, now);
      var entries := AllEntries(threads, Index(threads), timelines, logs);
      SumOfTotals(after, projects) + Skipped(entries) + Preceding(entries) == Growth(entries)
  {
    var metadata := Index(threads);
    var after := AllRead(Opened(asked, since), threads, metadata, timelines, logs, startOfDay, now);
    var entries := AllEntries(threads, metadata, timelines, logs);
    forall project ensures AccountOf(after, project).total == Credit(entries, project) {
      AllReadCredits(asked, since, threads, metadata, timelines, logs, startOfDay, now, project);
      TotalIsCredit(threads, metadata, timelines, logs, project);
    }
    TotalsAreCredit(after, entries, projects);
    AllEntriesAreCovered(projects, threads, metadata, timelines, logs);
    GrowthIsConserved(entries, projects);
  }
}

/**
 The workspace dashboard: tasks that no project owns, by the directory they run
 in, and at most ten to a workspace unless more are active. `identity` stands for
 the cleaned form of a path; it is empty for a blank one.
 */
module WorkspaceDashboard {
  import opened Prelude
  import opened Observations
  import opened Threads
  import opened Grouping
  import StableSort

  /** The workspace of a directory, or the one for tasks without a directory. */
  datatype WorkspaceId = Other | At(identity: string)

  datatype WTask = WTask(key: Key, name: Option<string>, state: Class, created: int, updated: int, workspace: WorkspaceId)

  datatype WItem = WItem(id: WorkspaceId, pinned: bool, tasks: seq<WTask>, running: nat, waiting: nat,
                         total: nat, hidden: int, latest: Option<int>)

  /** What the builder is given, with threads indexed, and what the project dashboard owns. */
  datatype Scene = Scene(
    threads: Index,
    identity: string -> string,
    root: string,
    known: set<string>,
    owned: set<Key>,
    ownedThreads: set<string>,
    now: int)

  // ----- Where a task belongs --------------------------------------------------------------

  function TrimSlash(path: string): string {
    if path != "" && path[|path| - 1] == '/' then path[..|path| - 1] else path
  }

  predicate WithinRoot(identity: string, root: string) {
    identity != "" && root != "" && (identity == root || TrimSlash(root) + "/" <= identity)
  }

  function WorkspaceOf(identity: string): WorkspaceId {
    if identity == "" then Other else At(identity)
  }

  function Seen(v: Scene, id: string): Option<Thread> {
    if id in v.threads then Some(v.threads[id]) else None
  }

  predicate Owned(v: Scene, key: Key) {
    key in v.owned || key.1 in v.ownedThreads
  }

  /** The workspace of an observed task, if it is to be shown in one. */
  function ActiveWorkspace(v: Scene, o: Observation): Option<WorkspaceId> {
    var thread := Seen(v, o.id);
    if Classify(o) == Ignored || Owned(v, KeyOf(o)) || (thread.Some? && IsChild(thread.value)) then None
    else if thread.Some? && thread.value.projectless then Some(WorkspaceOf(v.identity("")))
    else
      var identity := v.identity(if thread.Some? then thread.value.cwd else "");
      if WithinRoot(identity, v.root) then None else Some(WorkspaceOf(identity))
  }

  function ActiveWTask(v: Scene, o: Observation): WTask {
    var thread := Seen(v, o.id);
    var workspace := ActiveWorkspace(v, o).GetOr(Other);
    match thread
    case Some(t) => WTask(KeyOf(o), t.name, Classify(o), t.created, t.updated, workspace)
    case None => WTask(KeyOf(o), None, Classify(o), v.now, v.now, workspace)
  }

  ghost predicate IsObserved(merged: map<Key, Observation>, id: string) {
    exists key :: key in merged && merged[key].id == id && Classify(merged[key]) != Ignored
  }

  /** The workspace of a thread that is not observed; only known workspaces take such threads. */
  function CompletedWorkspace(v: Scene, t: Thread): Option<WorkspaceId> {
    if Owned(v, ("local", t.id)) || IsChild(t) || t.path.None? || !NonEmpty(t.name) then None
    else if t.projectless then Some(WorkspaceOf(v.identity("")))
    else
      var identity := v.identity(t.cwd);
      if identity == "" || identity !in v.known || WithinRoot(identity, v.root) then None else Some(WorkspaceOf(identity))
  }

  function CompletedWTask(v: Scene, t: Thread): WTask {
    WTask(("local", t.id), t.name, Completed, t.created, t.updated, CompletedWorkspace(v, t).GetOr(Other))
  }

  predicate ActiveIn(v: Scene, merged: map<Key, Observation>, t: WTask) {
    t.key in merged && ActiveWorkspace(v, merged[t.key]).Some? && t == ActiveWTask(v, merged[t.key])
  }

  ghost predicate CompletedIn(v: Scene, merged: map<Key, Observation>, t: WTask) {
    && t.key.1 in v.threads && !IsObserved(merged, t.key.1)
    && CompletedWorkspace(v, v.threads[t.key.1]).Some? && t == CompletedWTask(v, v.threads[t.key.1])
  }

  /** The tasks that belong to some workspace. */
  ghost predicate Belongs(v: Scene, merged: map<Key, Observation>, t: WTask) {
    ActiveIn(v, merged, t) || CompletedIn(v, merged, t)
  }

  // ----- The same, by the inputs alone ----------------------------------------------------------

  predicate IsPart(v: Scene, id: string) {
    id in v.threads && (v.threads[id].parent.Some? || (v.threads[id].nickname.Some? && v.threads[id].nickname.value != ""))
  }

  /** The directory is the root of the projects, or lies below it. */
  predicate IsUnder(path: string, root: string) {
    && path != "" && root != ""
    && (path == root || (if root[|root| - 1] == '/' then root else root + "/") <= path)
  }

  /** A task without a directory is among the others, one with a directory in its workspace. */
  predicate IsAt(workspace: WorkspaceId, path: string) {
    if path == "" then workspace.Other? else workspace == At(path)
  }

  predicate IsProjectless(v: Scene, id: string) {
    id in v.threads && v.threads[id].projectless
  }

  /** Neither the task nor another one of its thread is under a project. */
  predicate IsFree(v: Scene, key: Key) {
    key !in v.owned && key.1 !in v.ownedThreads && !IsPart(v, key.1)
  }

  /** An observed task that waits or runs: in its thread's directory, unless that is under the root of the projects. */
  ghost predicate IsHeldObserved(v: Scene, merged: map<Key, Observation>, t: WTask) {
    && t.key in merged && IsBusy(Classify(merged[t.key])) && t.state == Classify(merged[t.key]) && IsFree(v, t.key)
    && t.name == (if t.key.1 in v.threads then v.threads[t.key.1].name else None)
    && t.created == (if t.key.1 in v.threads then v.threads[t.key.1].created else v.now)
    && t.updated == (if t.key.1 in v.threads then v.threads[t.key.1].updated else v.now)
    && var path := v.identity(if t.key.1 in v.threads && !IsProjectless(v, t.key.1) then v.threads[t.key.1].cwd else "");
      IsAt(t.workspace, path) && (IsProjectless(v, t.key.1) || !IsUnder(path, v.root))
  }

  /** A named local thread with a log that is not observed as active: in a known workspace, or without any project. */
  ghost predicate IsHeldThread(v: Scene, merged: map<Key, Observation>, t: WTask) {
    && t.key.0 == "local" && t.key.1 in v.threads && IsFree(v, t.key) && t.state == Completed
    && (forall key | key in merged && key.1 == t.key.1 :: !IsBusy(Classify(merged[key])))
    && var thread := v.threads[t.key.1];
      && thread.path.Some? && thread.name.Some? && thread.name.value != ""
      && t.name == thread.name && t.created == thread.created && t.updated == thread.updated
      && var path := v.identity(if thread.projectless then "" else thread.cwd);
        IsAt(t.workspace, path) && (thread.projectless || (path != "" && path in v.known && !IsUnder(path, v.root)))
  }

  lemma UnderIsWithin(path: string, root: string)
    ensures IsUnder(path, root) <==> WithinRoot(path, root)
  {
    if root != "" && root[|root| - 1] == '/' { assert TrimSlash(root) + "/" == root; }
  }

  lemma BelongingIsHeld(v: Scene, merged: map<Key, Observation>, t: WTask)
    requires KeyedIn(v, merged)
    ensures Belongs(v, merged, t) <==> IsHeldObserved(v, merged, t) || IsHeldThread(v, merged, t)
  {
    forall path { UnderIsWithin(path, v.root); }
    forall o ensures Classify(o) != Completed { }
    hide Classify, WithinRoot, IsUnder;
    ObservedAre(v, merged, t.key.1);
    hide IsObserved;
    assert ActiveIn(v, merged, t) <==> IsHeldObserved(v, merged, t);
    assert CompletedIn(v, merged, t) <==> IsHeldThread(v, merged, t);
  }

  lemma ObservedAre(v: Scene, merged: map<Key, Observation>, id: string)
    requires KeyedIn(v, merged)
    ensures IsObserved(merged, id) <==> exists key :: key in merged && key.1 == id && IsBusy(Classify(merged[key]))
  {
    forall o ensures Classify(o) != Completed { }
    hide Classify;
  }

  // ----- Filling the workspaces ----------------------------------------------------------------

  type Aggregates = map<WorkspaceId, seq<WTask>>

  ghost function HeldIn(groups: Aggregates, t: WTask): nat {
    Held(groups, t.workspace, t)
  }

  lemma PutHeldIn(groups: Aggregates, x: WTask, t: WTask)
    ensures HeldIn(Put(groups, x.workspace, x), t) == HeldIn(groups, t) + One(t == x)
  {
    PutHolds(groups, x.workspace, x, t.workspace, t);
  }

  predicate InPlace(groups: Aggregates) {
    forall id | id in groups :: forall t | t in groups[id] :: t.workspace == id
  }

  lemma PutInPlace(groups: Aggregates, t: WTask)
    requires InPlace(groups)
    ensures InPlace(Put(groups, t.workspace, t))
  {
  }

  predicate KeyedIn(v: Scene, merged: map<Key, Observation>) {
    && (forall key | key in merged :: KeyOf(merged[key]) == key)
    && (forall id | id in v.threads :: v.threads[id].id == id)
  }

  predicate OpensAt(v: Scene, root: string, id: WorkspaceId) {
    v.identity(root) != "" && !WithinRoot(v.identity(root), v.root) && id == WorkspaceOf(v.identity(root))
  }

  predicate Opened(v: Scene, roots: seq<string>, id: WorkspaceId) {
    exists r | r in roots :: OpensAt(v, r, id)
  }

  lemma OpenedSnoc(v: Scene, roots: seq<string>, root: string, id: WorkspaceId)
    ensures Opened(v, roots + [root], id) <==> Opened(v, roots, id) || OpensAt(v, root, id)
  {
    hide OpensAt;
    if r :| r in roots && OpensAt(v, r, id) { assert r in roots + [root]; }
    assert root in roots + [root];
  }

  /** A workspace for each root of the projects, outside the workbench's own root. */
  method OpenWorkspaces(roots: seq<string>, v: Scene) returns (groups: Aggregates)
    ensures InPlace(groups) && forall id | id in groups :: groups[id] == []
    ensures forall id :: id in groups <==> Opened(v, roots, id)
  {
    groups := map[];
    for i := 0 to |roots|
      invariant forall id | id in groups :: groups[id] == []
      invariant forall id :: id in groups <==> Opened(v, roots[..i], id)
    {
      assert roots[..i + 1] == roots[..i] + [roots[i]];
      forall id { OpenedSnoc(v, roots[..i], roots[i], id); }
      var identity := v.identity(roots[i]);
      if identity == "" || WithinRoot(identity, v.root) { continue; }
      groups := groups[WorkspaceOf(identity) := []];
    }
    assert roots[..|roots|] == roots;
  }

  lemma ActiveInStep(v: Scene, merged: map<Key, Observation>, left: set<Key>, key: Key, t: WTask)
    requires KeyedIn(v, merged) && key in left && key in merged
    ensures One(t.key !in left - {key} && ActiveIn(v, merged, t))
      == One(t.key !in left && ActiveIn(v, merged, t))
       + One(ActiveWorkspace(v, merged[key]).Some? && t == ActiveWTask(v, merged[key]))
  {
    hide ActiveWorkspace, Classify;
  }

  ghost predicate ObservedSoFar(merged: map<Key, Observation>, left: set<Key>, id: string) {
    exists key :: key in merged && key !in left && merged[key].id == id && Classify(merged[key]) != Ignored
  }

  lemma ObservedStep(merged: map<Key, Observation>, left: set<Key>, key: Key, id: string)
    requires key in left && key in merged
    ensures ObservedSoFar(merged, left - {key}, id)
      <==> ObservedSoFar(merged, left, id) || (merged[key].id == id && Classify(merged[key]) != Ignored)
  {
    hide Classify;
    if other :| other in merged && other !in left - {key} && merged[other].id == id && Classify(merged[other]) != Ignored {
      assert other == key || other !in left;
    }
    if other :| other in merged && other !in left && merged[other].id == id && Classify(merged[other]) != Ignored {
      assert other !in left - {key};
    }
    assert key !in left - {key};
  }

  lemma ObservedBounds(merged: map<Key, Observation>, id: string)
    ensures !ObservedSoFar(merged, merged.Keys, id)
    ensures ObservedSoFar(merged, {}, id) <==> IsObserved(merged, id)
  {
    hide Classify;
    if key :| key in merged && merged[key].id == id && Classify(merged[key]) != Ignored { assert key !in {}; }
  }

  method AddActive(v: Scene, merged: map<Key, Observation>, open: Aggregates) returns (groups: Aggregates, activeIds: set<string>)
    requires KeyedIn(v, merged) && InPlace(open) && forall t :: HeldIn(open, t) == 0
    ensures InPlace(groups) && forall t :: HeldIn(groups, t) == One(ActiveIn(v, merged, t))
    ensures forall id :: id in activeIds <==> IsObserved(merged, id)
  {
    groups, activeIds := open, {};
    var left := merged.Keys;
    forall id { ObservedBounds(merged, id); }
    hide ObservedSoFar, IsObserved;
    while left != {}
      invariant left <= merged.Keys && InPlace(groups)
      invariant forall t :: HeldIn(groups, t) == One(t.key !in left && ActiveIn(v, merged, t))
      invariant forall id :: id in activeIds <==> ObservedSoFar(merged, left, id)
      decreases left
    {
      var key :| key in left;
      var observation := merged[key];
      var place := ActiveWorkspace(v, observation);
      var task := ActiveWTask(v, observation);
      forall t { ActiveInStep(v, merged, left, key, t); }
      forall t { PutHeldIn(groups, task, t); }
      forall id { ObservedStep(merged, left, key, id); }
      PutInPlace(groups, task);
      assert Classify(observation) == Ignored ==> place.None?;
      hide ActiveWorkspace, ActiveWTask, ActiveIn, InPlace, HeldIn, Put, KeyedIn, Classify;
      left := left - {key};
      if Classify(observation) == Ignored { continue; }
      activeIds := activeIds + {observation.id};
      if place.None? { continue; }
      groups := Put(groups, task.workspace, task);
    }
  }

  lemma CompletedInStep(v: Scene, merged: map<Key, Observation>, left: set<string>, id: string, t: WTask)
    requires KeyedIn(v, merged) && id in left && id in v.threads
    ensures One(t.key.1 !in left - {id} && CompletedIn(v, merged, t))
      == One(t.key.1 !in left && CompletedIn(v, merged, t))
       + One(!IsObserved(merged, id) && CompletedWorkspace(v, v.threads[id]).Some? && t == CompletedWTask(v, v.threads[id]))
  {
    hide CompletedWorkspace, IsObserved;
  }

  method AddCompleted(v: Scene, merged: map<Key, Observation>, active: Aggregates, activeIds: set<string>) returns (groups: Aggregates)
    requires KeyedIn(v, merged) && InPlace(active)
    requires forall id :: id in activeIds <==> IsObserved(merged, id)
    ensures InPlace(groups) && forall t :: HeldIn(groups, t) == HeldIn(active, t) + One(CompletedIn(v, merged, t))
  {
    groups := active;
    var left := v.threads.Keys;
    while left != {}
      invariant left <= v.threads.Keys && InPlace(groups)
      invariant forall t :: HeldIn(groups, t) == HeldIn(active, t) + One(t.key.1 !in left && CompletedIn(v, merged, t))
      decreases left
    {
      var id :| id in left;
      var thread := v.threads[id];
      assert thread.id == id;
      var place := CompletedWorkspace(v, thread);
      var task := CompletedWTask(v, thread);
      forall t { CompletedInStep(v, merged, left, id, t); }
      forall t { PutHeldIn(groups, task, t); }
      PutInPlace(groups, task);
      hide CompletedWorkspace, CompletedWTask, CompletedIn, IsObserved, InPlace, HeldIn, Put, KeyedIn;
      left := left - {id};
      if thread.id in activeIds || place.None? { continue; }
      groups := Put(groups, task.workspace, task);
    }
  }

  // ----- What a workspace shows ---------------------------------------------------------------------

  /** Active tasks, and completed ones that are connected, are always shown. */
  predicate Kept(connected: set<string>, t: WTask) {
    t.state == Waiting || t.state == Running || (t.state == Completed && t.key.1 in connected)
  }

  function StateRank(c: Class): nat {
    match c
    case Waiting => 0
    case Running => 1
    case Completed => 2
    case Ignored => 0
  }

  predicate RecentBefore(a: WTask, b: WTask) {
    a.updated > b.updated || (a.updated == b.updated && StableSort.TextBefore(KeyText(a.key), KeyText(b.key)))
  }

  predicate ActiveBefore(a: WTask, b: WTask) {
    if a.state != b.state then StateRank(a.state) < StateRank(b.state) else RecentBefore(a, b)
  }

  function Slots(active: nat, completed: nat): nat {
    if active >= 10 then 0 else if 10 - active > completed then completed else 10 - active
  }

  function KeptOf(tasks: seq<WTask>, connected: set<string>): seq<WTask> {
    StableSort.Sort(ActiveBefore, StableSort.Pick((t: WTask) => Kept(connected, t), tasks))
  }

  function RestOf(tasks: seq<WTask>, connected: set<string>): seq<WTask> {
    StableSort.Sort(RecentBefore, StableSort.Pick((t: WTask) => t.state == Completed && !Kept(connected, t), tasks))
  }

  /** The kept tasks in order, then the most recent of the others up to ten in all. */
  function Shown(tasks: seq<WTask>, connected: set<string>): seq<WTask> {
    var active, completed := KeptOf(tasks, connected), RestOf(tasks, connected);
    active + completed[..Slots(|active|, |completed|)]
  }

  function InState(tasks: seq<WTask>, c: Class): nat {
    if tasks == [] then 0 else InState(tasks[..|tasks| - 1], c) + One(tasks[|tasks| - 1].state == c)
  }

  lemma OneTaskMore(tasks: seq<WTask>, i: nat, connected: set<string>)
    requires i < |tasks|
    ensures var kept := (t: WTask) => Kept(connected, t);
      StableSort.Pick(kept, tasks[..i + 1]) == StableSort.Pick(kept, tasks[..i]) + if Kept(connected, tasks[i]) then [tasks[i]] else []
    ensures var rest := (t: WTask) => t.state == Completed && !Kept(connected, t);
      StableSort.Pick(rest, tasks[..i + 1])
      == StableSort.Pick(rest, tasks[..i]) + if tasks[i].state == Completed && !Kept(connected, tasks[i]) then [tasks[i]] else []
    ensures forall c :: InState(tasks[..i + 1], c) == InState(tasks[..i], c) + One(tasks[i].state == c)
  {
    assert tasks[..i + 1] == tasks[..i] + [tasks[i]];
    StableSort.PickSnoc((t: WTask) => Kept(connected, t), tasks[..i], tasks[i]);
    StableSort.PickSnoc((t: WTask) => t.state == Completed && !Kept(connected, t), tasks[..i], tasks[i]);
    assert (tasks[..i] + [tasks[i]])[..i] == tasks[..i];
  }

  method SelectTasks(values: seq<WTask>, connected: set<string>) returns (shown: seq<WTask>, running: nat, waiting: nat)
    ensures shown == Shown(values, connected)
    ensures running == InState(values, Running) && waiting == InState(values, Waiting)
  {
    var active: seq<WTask>, completed: seq<WTask> := [], [];
    running, waiting := 0, 0;
    for i := 0 to |values|
      invariant active == StableSort.Pick((t: WTask) => Kept(connected, t), values[..i])
      invariant completed == StableSort.Pick((t: WTask) => t.state == Completed && !Kept(connected, t), values[..i])
      invariant running == InState(values[..i], Running) && waiting == InState(values[..i], Waiting)
    {
      OneTaskMore(values, i, connected);
      hide StableSort.Pick, InState;
      var value := values[i];
      match value.state {
        case Waiting => waiting, active := waiting + 1, active + [value];
        case Running => running, active := running + 1, active + [value];
        case Completed => if value.key.1 in connected { active := active + [value]; } else { completed := completed + [value]; }
        case Ignored =>
      }
    }
    assert values[..|values|] == values;
    active := StableSort.Sort(ActiveBefore, active);
    completed := StableSort.Sort(RecentBefore, completed);
    var remaining := 10 - |active|;
    if remaining > 0 {
      if remaining > |completed| { remaining := |completed|; }
      active := active + completed[..remaining];
    }
    shown := active;
  }

  lemma RecentIsStrict()
    ensures StableSort.StrictWeak(RecentBefore)
  {
    forall a: WTask, b: WTask, c: WTask
      ensures (RecentBefore(a, b) ==> !RecentBefore(b, a)) && (RecentBefore(a, c) ==> RecentBefore(a, b) || RecentBefore(b, c))
    {
      StableSort.TextBeforeIsStrict(KeyText(a.key), KeyText(b.key), KeyText(c.key));
    }
  }

  /** The same order, with ignored tasks last, so that it is strict on all tasks. */
  predicate ActiveOrder(a: WTask, b: WTask) {
    if (a.state == Ignored) != (b.state == Ignored) then b.state == Ignored else ActiveBefore(a, b)
  }

  lemma ActiveIsStrict()
    ensures StableSort.StrictWeak(ActiveOrder)
  {
    RecentIsStrict();
    hide RecentBefore;
    forall a: WTask, b: WTask, c: WTask
      ensures (ActiveOrder(a, b) ==> !ActiveOrder(b, a)) && (ActiveOrder(a, c) ==> ActiveOrder(a, b) || ActiveOrder(b, c))
    {
    }
  }

  /** The tasks that are always shown stand in their order: waiting, running, completed, each the most recent first. */
  lemma KeptInOrder(tasks: seq<WTask>, connected: set<string>)
    ensures StableSort.Ordered(ActiveBefore, KeptOf(tasks, connected))
  {
    var kept := StableSort.Pick((t: WTask) => Kept(connected, t), tasks);
    StableSort.PickIsIn((t: WTask) => Kept(connected, t), tasks);
    forall t | t in kept ensures t.state != Ignored { assert Kept(connected, t); }
    StableSort.SortAgrees(ActiveBefore, ActiveOrder, kept);
    ActiveIsStrict();
    StableSort.SortOrders(ActiveOrder, kept);
    StableSort.SortKeepsAll(ActiveOrder, kept);
    var sorted := StableSort.Sort(ActiveOrder, kept);
    hide ActiveBefore, StableSort.Sort, StableSort.Pick;
    forall t | t in sorted ensures t.state != Ignored { assert t in multiset(kept); }
    forall i, j | 0 <= i < j < |sorted| ensures !ActiveBefore(sorted[j], sorted[i]) {
      assert sorted[i] in sorted && sorted[j] in sorted && !ActiveOrder(sorted[j], sorted[i]);
    }
  }

  lemma KeptCounts(tasks: seq<WTask>, connected: set<string>, t: WTask)
    ensures multiset(KeptOf(tasks, connected))[t] == if Kept(connected, t) then multiset(tasks)[t] else 0
  {
    var kept := (t: WTask) => Kept(connected, t);
    StableSort.PickCounts(kept, tasks, t);
    StableSort.SortKeepsAll(ActiveBefore, StableSort.Pick(kept, tasks));
  }

  lemma RestCounts(tasks: seq<WTask>, connected: set<string>, t: WTask)
    ensures multiset(RestOf(tasks, connected))[t] == if t.state == Completed && !Kept(connected, t) then multiset(tasks)[t] else 0
  {
    var rest := (t: WTask) => t.state == Completed && !Kept(connected, t);
    StableSort.PickCounts(rest, tasks, t);
    StableSort.SortKeepsAll(RecentBefore, StableSort.Pick(rest, tasks));
  }

  lemma TakeCounts(s: seq<WTask>, k: nat, t: WTask)
    requires k <= |s|
    ensures multiset(s[..k])[t] <= multiset(s)[t]
  {
    assert s == s[..k] + s[k..];
  }

  /** Every kept task is shown, and nothing is shown that is not there. */
  lemma ShownKeeps(tasks: seq<WTask>, connected: set<string>, t: WTask)
    ensures Kept(connected, t) ==> multiset(Shown(tasks, connected))[t] == multiset(tasks)[t]
    ensures multiset(Shown(tasks, connected))[t] <= multiset(tasks)[t]
  {
    var kept, rest := KeptOf(tasks, connected), RestOf(tasks, connected);
    var k := Slots(|kept|, |rest|);
    assert Shown(tasks, connected) == kept + rest[..k];
    KeptCounts(tasks, connected, t);
    RestCounts(tasks, connected, t);
    hide KeptOf, RestOf, Shown, Kept;
    TakeCounts(rest, k, t);
  }

  /** At most ten tasks unless more are kept; what is hidden is not more recent than what is shown. */
  lemma HiddenAreOlder(tasks: seq<WTask>, connected: set<string>)
    ensures var active := StableSort.Pick((t: WTask) => Kept(connected, t), tasks);
      var completed := StableSort.Sort(RecentBefore, StableSort.Pick((t: WTask) => t.state == Completed && !Kept(connected, t), tasks));
      var k := |Shown(tasks, connected)| - |active|;
      && 0 <= k <= |completed| && Shown(tasks, connected)[|active|..] == completed[..k]
      && (|Shown(tasks, connected)| <= 10 || k == 0) && (k < |completed| ==> |Shown(tasks, connected)| >= 10)
      && forall i, j | 0 <= i < k <= j < |completed| :: !RecentBefore(completed[j], completed[i])
  {
    RecentIsStrict();
    StableSort.SortOrders(RecentBefore, StableSort.Pick((t: WTask) => t.state == Completed && !Kept(connected, t), tasks));
  }

  lemma KeptAreFirst(tasks: seq<WTask>, connected: set<string>)
    ensures forall t | t in KeptOf(tasks, connected) :: Kept(connected, t)
    ensures forall t | t in RestOf(tasks, connected) :: !Kept(connected, t)
  {
    var kept, rest := KeptOf(tasks, connected), RestOf(tasks, connected);
    forall t | t in kept ensures Kept(connected, t) { KeptCounts(tasks, connected, t); assert multiset(kept)[t] > 0; }
    forall t | t in rest ensures !Kept(connected, t) { RestCounts(tasks, connected, t); assert multiset(rest)[t] > 0; }
  }

  lemma RestInOrder(tasks: seq<WTask>, connected: set<string>)
    ensures StableSort.Ordered(RecentBefore, RestOf(tasks, connected))
    ensures |KeptOf(tasks, connected)| == |StableSort.Pick((t: WTask) => Kept(connected, t), tasks)|
  {
    RecentIsStrict();
    StableSort.SortOrders(RecentBefore, StableSort.Pick((t: WTask) => t.state == Completed && !Kept(connected, t), tasks));
  }

  /** The shown tasks are the kept ones in their order, and then others, the more recent first. */
  lemma ShownInOrder(tasks: seq<WTask>, connected: set<string>)
    ensures var shown, n := Shown(tasks, connected), |StableSort.Pick((t: WTask) => Kept(connected, t), tasks)|;
      && n <= |shown|
      && (forall i | 0 <= i < |shown| :: Kept(connected, shown[i]) <==> i < n)
      && StableSort.Ordered(ActiveBefore, shown[..n]) && StableSort.Ordered(RecentBefore, shown[n..])
  {
    var kept, rest := KeptOf(tasks, connected), RestOf(tasks, connected);
    var k := Slots(|kept|, |rest|);
    assert Shown(tasks, connected) == kept + rest[..k];
    KeptInOrder(tasks, connected);
    RestInOrder(tasks, connected);
    KeptAreFirst(tasks, connected);
    hide KeptOf, RestOf, Shown, Kept, ActiveBefore, RecentBefore, Slots;
    var shown := kept + rest[..k];
    assert shown[..|kept|] == kept && shown[|kept|..] == rest[..k];
    assert forall i | 0 <= i < |kept| :: kept[i] in kept;
    assert forall i | 0 <= i < k :: rest[i] in rest;
  }

  // ----- The list of workspaces -------------------------------------------------------------------------

  function LatestOf(tasks: seq<WTask>): Option<int> {
    if tasks == [] then None
    else
      var before, last := LatestOf(tasks[..|tasks| - 1]), tasks[|tasks| - 1].updated;
      if before.None? || last > before.value then Some(last) else before
  }

  function WTasksIn(item: WItem): seq<WTask> {
    item.tasks
  }

  function AllWTasks(items: seq<WItem>): seq<WTask> {
    Flat(items, WTasksIn)
  }

  /** Pinned first, then waiting, running and recent ones; `textOf` is the public id. */
  predicate WorkspaceBefore(textOf: WorkspaceId -> string, a: WItem, b: WItem) {
    if a.pinned != b.pinned then a.pinned
    else if (a.waiting > 0) != (b.waiting > 0) then a.waiting > 0
    else if (a.running > 0) != (b.running > 0) then a.running > 0
    else if a.latest.Some? && b.latest.Some? && a.latest != b.latest then a.latest.value > b.latest.value
    else if a.latest.Some? && b.latest.None? then true
    else if a.latest.None? && b.latest.Some? then false
    else StableSort.TextBefore(textOf(a.id), textOf(b.id))
  }

  lemma WorkspaceOrderIsStrict(textOf: WorkspaceId -> string)
    ensures StableSort.StrictWeak((a: WItem, b: WItem) => WorkspaceBefore(textOf, a, b))
  {
    forall a: WItem, b: WItem, c: WItem
      ensures (WorkspaceBefore(textOf, a, b) ==> !WorkspaceBefore(textOf, b, a))
        && (WorkspaceBefore(textOf, a, c) ==> WorkspaceBefore(textOf, a, b) || WorkspaceBefore(textOf, b, c))
    {
      StableSort.TextBeforeIsStrict(textOf(a.id), textOf(b.id), textOf(c.id));
    }
  }

  function WItemFor(groups: Aggregates, pinned: set<WorkspaceId>, connected: set<string>, id: WorkspaceId): WItem {
    var tasks := ListOf(groups, id);
    var shown := Shown(tasks, connected);
    WItem(id, id in pinned, shown, InState(tasks, Running), InState(tasks, Waiting), |tasks|, |tasks| - |shown|, LatestOf(tasks))
  }

  /** Times a task is shown in its workspace. */
  ghost function ShownIn(groups: Aggregates, connected: set<string>, t: WTask): nat {
    multiset(Shown(ListOf(groups, t.workspace), connected))[t]
  }

  lemma WItemShows(groups: Aggregates, pinned: set<WorkspaceId>, connected: set<string>, id: WorkspaceId, t: WTask)
    requires InPlace(groups)
    ensures multiset(WItemFor(groups, pinned, connected, id).tasks)[t] == if t.workspace == id then ShownIn(groups, connected, t) else 0
  {
    if t.workspace != id {
      ShownKeeps(ListOf(groups, id), connected, t);
      hide Shown;
      assert t !in ListOf(groups, id);
    }
  }

  predicate HasItem(items: seq<WItem>, id: WorkspaceId) {
    exists item | item in items :: item.id == id
  }

  lemma HasItemSnoc(items: seq<WItem>, item: WItem, id: WorkspaceId)
    ensures HasItem(items + [item], id) <==> HasItem(items, id) || item.id == id
  {
    if x :| x in items && x.id == id { assert x in items + [item]; }
    assert item in items + [item];
  }

  /** The items made so far: one for each workspace that is not left. */
  ghost predicate ItemsOf(items: seq<WItem>, groups: Aggregates, pinned: set<WorkspaceId>, connected: set<string>, left: set<WorkspaceId>) {
    && (forall item | item in items :: item.id in groups.Keys - left && item == WItemFor(groups, pinned, connected, item.id))
    && (forall id | id in groups.Keys - left :: HasItem(items, id))
    && (forall i, j | 0 <= i < j < |items| :: items[i].id != items[j].id)
  }

  lemma OneItemMore(items: seq<WItem>, groups: Aggregates, pinned: set<WorkspaceId>, connected: set<string>, left: set<WorkspaceId>, id: WorkspaceId)
    requires ItemsOf(items, groups, pinned, connected, left) && id in left && id in groups
    ensures ItemsOf(items + [WItemFor(groups, pinned, connected, id)], groups, pinned, connected, left - {id})
  {
    var item := WItemFor(groups, pinned, connected, id);
    assert item.id == id;
    hide WItemFor;
    forall other { HasItemSnoc(items, item, other); }
    hide HasItem;
    forall i | 0 <= i < |items| ensures items[i].id != id { assert items[i] in items; }
    hide ListOf;
  }

  method MakeItem(groups: Aggregates, pinned: set<WorkspaceId>, connected: set<string>, id: WorkspaceId) returns (item: WItem)
    ensures item == WItemFor(groups, pinned, connected, id)
  {
    var tasks, running, waiting := SelectTasks(ListOf(groups, id), connected);
    var total := |ListOf(groups, id)|;
    item := WItem(id, id in pinned, tasks, running, waiting, total, total - |tasks|, LatestOf(ListOf(groups, id)));
  }

  /** The tasks shown so far: those of the workspaces that are not left. */
  ghost predicate ShownSoFar(items: seq<WItem>, groups: Aggregates, connected: set<string>, left: set<WorkspaceId>) {
    forall t :: multiset(AllWTasks(items))[t] == if t.workspace in groups.Keys - left then ShownIn(groups, connected, t) else 0
  }

  lemma OneMoreShown(items: seq<WItem>, groups: Aggregates, pinned: set<WorkspaceId>, connected: set<string>, left: set<WorkspaceId>, id: WorkspaceId)
    requires ShownSoFar(items, groups, connected, left) && InPlace(groups) && id in left && id in groups
    ensures ShownSoFar(items + [WItemFor(groups, pinned, connected, id)], groups, connected, left - {id})
  {
    var item := WItemFor(groups, pinned, connected, id);
    forall t { WItemShows(groups, pinned, connected, id, t); }
    FlatSnoc(items, item, WTasksIn);
    hide WItemFor, Flat, ShownIn, InPlace;
  }

  /** Of two workspaces, this one may come first. */
  predicate MayPrecede(a: WItem, b: WItem) {
    && (b.pinned ==> a.pinned)
    && (a.pinned == b.pinned ==>
          && (b.waiting > 0 ==> a.waiting > 0)
          && ((a.waiting > 0) == (b.waiting > 0) ==>
                && (b.running > 0 ==> a.running > 0)
                && ((a.running > 0) == (b.running > 0) && b.latest.Some? ==> a.latest.Some? && a.latest.value >= b.latest.value)))
  }

  /** Pinned workspaces come first, of these waiting ones, then running ones, then the more recent. */
  lemma WorkspacesInOrder(textOf: WorkspaceId -> string, items: seq<WItem>)
    ensures var sorted := StableSort.Sort((a: WItem, b: WItem) => WorkspaceBefore(textOf, a, b), items);
      && multiset(sorted) == multiset(items)
      && forall i, j | 0 <= i < j < |sorted| :: MayPrecede(sorted[i], sorted[j])
  {
    var before := (a: WItem, b: WItem) => WorkspaceBefore(textOf, a, b);
    WorkspaceOrderIsStrict(textOf);
    StableSort.SortOrders(before, items);
    StableSort.SortKeepsAll(before, items);
    var sorted := StableSort.Sort(before, items);
    hide StableSort.Sort, StableSort.StrictWeak;
    forall i, j | 0 <= i < j < |sorted| ensures MayPrecede(sorted[i], sorted[j]) { assert !before(sorted[j], sorted[i]); }
  }

  /** A workspace shows its pin and counts all of its tasks, shown or not. */
  predicate WellCounted(pinned: set<WorkspaceId>, item: WItem) {
    && item.pinned == (item.id in pinned) && item.hidden == item.total - |item.tasks|
    && forall t | t in item.tasks :: t.workspace == item.id
  }

  lemma ItemIsWellCounted(groups: Aggregates, pinned: set<WorkspaceId>, connected: set<string>, id: WorkspaceId)
    requires InPlace(groups)
    ensures WellCounted(pinned, WItemFor(groups, pinned, connected, id))
  {
    var item := WItemFor(groups, pinned, connected, id);
    assert item.id == id && item.pinned == (id in pinned) && item.hidden == item.total - |item.tasks|;
    forall t | t in item.tasks ensures t.workspace == id {
      WItemShows(groups, pinned, connected, id, t);
      assert multiset(item.tasks)[t] > 0;
    }
  }

  method WorkspaceItems(groups: Aggregates, pinned: set<WorkspaceId>, connected: set<string>) returns (items: seq<WItem>)
    requires InPlace(groups)
    ensures ShownSoFar(items, groups, connected, {}) && ItemsOf(items, groups, pinned, connected, {})
  {
    items := [];
    var left := groups.Keys;
    while left != {}
      invariant left <= groups.Keys && ItemsOf(items, groups, pinned, connected, left) && ShownSoFar(items, groups, connected, left)
      decreases left
    {
      var id :| id in left;
      hide *;
      OneMoreShown(items, groups, pinned, connected, left, id);
      OneItemMore(items, groups, pinned, connected, left, id);
      var item := MakeItem(groups, pinned, connected, id);
      left := left - {id};
      items := items + [item];
    }
  }
}

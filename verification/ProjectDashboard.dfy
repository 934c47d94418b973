/**
 The project dashboard: every shown task is put under the project it is bound
 to, under the project whose directory it runs in, or with the unassigned ones.
 `norm` stands for the cleaning of paths. Usage, actions and routes are left out.
 */
module ProjectDashboard {
  import opened Prelude
  import opened Observations
  import opened Threads
  import opened Grouping
  import StableSort

  type ProjectId = string

  const UNASSIGNED: ProjectId := "runtime://unassigned-tasks"

  datatype Project = Project(id: ProjectId, roots: seq<string>)

  datatype Task = Task(key: Key, name: Option<string>, state: Class, created: int, project: ProjectId)

  datatype Kind = Regular | UnavailablePinned | Loose

  datatype Item = Item(id: ProjectId, kind: Kind, pinned: bool, tasks: seq<Task>)

  /** What the builder is given, with threads indexed and observations merged. */
  datatype World = World(
    catalog: seq<Project>,
    threads: Index,
    projections: map<string, seq<ProjectId>>,
    connected: set<string>,
    norm: string -> string,
    now: int)

  // ----- Where a task belongs ---------------------------------------------------------

  predicate InCatalog(catalog: seq<Project>, id: ProjectId) {
    exists p | p in catalog :: p.id == id
  }

  /** The first project with a directory that is this one. */
  function ProjectAt(catalog: seq<Project>, path: string, norm: string -> string): ProjectId {
    if catalog == [] then ""
    else if exists root | root in catalog[0].roots :: norm(root) == path then catalog[0].id
    else ProjectAt(catalog[1..], path, norm)
  }

  /** A binding decides; then the directory. Without a thread the empty id is looked up. */
  function AssignedProject(w: World, thread: Option<Thread>): ProjectId {
    var id := if thread.Some? then thread.value.id else "";
    if id in w.projections && w.projections[id] != [] then w.projections[id][|w.projections[id]| - 1]
    else if thread.None? then ""
    else ProjectAt(w.catalog, w.norm(thread.value.cwd), w.norm)
  }

  function ThreadOf(w: World, id: string): Option<Thread> {
    if id in w.threads then Some(w.threads[id]) else None
  }

  predicate IsTopLevel(w: World, id: string) {
    id in w.threads ==> !IsChild(w.threads[id])
  }

  /** Where an observed task is shown, if it is shown. */
  function ActivePlace(w: World, o: Observation): Option<ProjectId> {
    if Classify(o) == Ignored || !IsTopLevel(w, o.id) then None
    else
      var id := AssignedProject(w, ThreadOf(w, o.id));
      Some(if InCatalog(w.catalog, id) then id else UNASSIGNED)
  }

  function ActiveTask(w: World, o: Observation): Task {
    var thread := ThreadOf(w, o.id);
    Task(KeyOf(o), if thread.Some? then thread.value.name else None, Classify(o),
         if thread.Some? then thread.value.created else w.now, ActivePlace(w, o).GetOr(UNASSIGNED))
  }

  ghost predicate IsActive(w: World, merged: map<Key, Observation>, id: string) {
    exists key :: key in merged && merged[key].id == id && ActivePlace(w, merged[key]).Some?
  }

  /** Where a thread that is not active is shown, if it is shown. */
  function CompletedPlace(w: World, t: Thread): Option<ProjectId> {
    if IsChild(t) || t.path.None? then None
    else
      var id := AssignedProject(w, Some(t));
      if InCatalog(w.catalog, id) then Some(id) else if t.id in w.connected then Some(UNASSIGNED) else None
  }

  function CompletedTask(w: World, t: Thread): Task {
    Task(("local", t.id), t.name, Completed, t.created, CompletedPlace(w, t).GetOr(UNASSIGNED))
  }

  predicate ActiveListed(w: World, merged: map<Key, Observation>, t: Task) {
    t.key in merged && ActivePlace(w, merged[t.key]).Some? && t == ActiveTask(w, merged[t.key])
  }

  ghost predicate CompletedListed(w: World, merged: map<Key, Observation>, t: Task) {
    && t.key.1 in w.threads && !IsActive(w, merged, t.key.1)
    && CompletedPlace(w, w.threads[t.key.1]).Some? && t == CompletedTask(w, w.threads[t.key.1])
  }

  /** The tasks that the dashboard is to show. */
  ghost predicate Listed(w: World, merged: map<Key, Observation>, t: Task) {
    ActiveListed(w, merged, t) || CompletedListed(w, merged, t)
  }

  /** Each observation under its own key, and each thread under its own id. */
  predicate Keyed(w: World, merged: map<Key, Observation>) {
    && (forall key | key in merged :: KeyOf(merged[key]) == key)
    && (forall id | id in w.threads :: w.threads[id].id == id)
  }

  // ----- Filling the groups -------------------------------------------------------------------

  type Groups = map<ProjectId, seq<Task>>

  /** Times a task is in the group of its project. */
  ghost function Held(groups: Groups, t: Task): nat {
    Grouping.Held(groups, t.project, t)
  }

  lemma PutHeld(groups: Groups, x: Task, t: Task)
    ensures Held(Put(groups, x.project, x), t) == Held(groups, t) + One(t == x)
  {
    PutHolds(groups, x.project, x, t.project, t);
  }

  predicate Sorted(groups: Groups) {
    forall id | id in groups :: forall t | t in groups[id] :: t.project == id
  }

  lemma ActiveStep(w: World, merged: map<Key, Observation>, left: set<Key>, key: Key, t: Task)
    requires Keyed(w, merged) && key in left && key in merged
    ensures One(t.key !in left - {key} && ActiveListed(w, merged, t))
      == One(t.key !in left && ActiveListed(w, merged, t))
       + One(ActivePlace(w, merged[key]).Some? && t == ActiveTask(w, merged[key]))
  {
    hide ActivePlace;
  }

  ghost predicate ActiveSoFar(w: World, merged: map<Key, Observation>, left: set<Key>, id: string) {
    exists key :: key in merged && key !in left && merged[key].id == id && ActivePlace(w, merged[key]).Some?
  }

  lemma ActiveIdStep(w: World, merged: map<Key, Observation>, left: set<Key>, key: Key, id: string)
    requires key in left && key in merged
    ensures ActiveSoFar(w, merged, left - {key}, id)
      <==> ActiveSoFar(w, merged, left, id) || (merged[key].id == id && ActivePlace(w, merged[key]).Some?)
  {
    hide ActivePlace;
    if other :| other in merged && other !in left - {key} && merged[other].id == id && ActivePlace(w, merged[other]).Some? {
      assert other == key || other !in left;
    }
    if other :| other in merged && other !in left && merged[other].id == id && ActivePlace(w, merged[other]).Some? {
      assert other !in left - {key};
    }
    assert key !in left - {key};
  }

  lemma ActiveBounds(w: World, merged: map<Key, Observation>, id: string)
    ensures !ActiveSoFar(w, merged, merged.Keys, id)
    ensures ActiveSoFar(w, merged, {}, id) <==> IsActive(w, merged, id)
  {
    hide ActivePlace;
    if key :| key in merged && merged[key].id == id && ActivePlace(w, merged[key]).Some? { assert key !in {}; }
  }

  predicate Grouped(w: World, groups: Groups) {
    Sorted(groups) && forall id | id in groups :: id == UNASSIGNED || InCatalog(w.catalog, id)
  }

  lemma PutGroups(w: World, groups: Groups, t: Task)
    requires Grouped(w, groups) && (t.project == UNASSIGNED || InCatalog(w.catalog, t.project))
    ensures Grouped(w, Put(groups, t.project, t))
  {
  }

  /** Observed tasks, in any order. */
  method PlaceActive(w: World, merged: map<Key, Observation>) returns (groups: Groups, activeIds: set<string>)
    requires Keyed(w, merged)
    ensures Grouped(w, groups) && forall t :: Held(groups, t) == One(ActiveListed(w, merged, t))
    ensures forall id :: id in activeIds <==> IsActive(w, merged, id)
  {
    groups, activeIds := map[], {};
    var left := merged.Keys;
    forall id { ActiveBounds(w, merged, id); }
    hide ActiveSoFar, IsActive;
    while left != {}
      invariant left <= merged.Keys && Grouped(w, groups)
      invariant forall t :: Held(groups, t) == One(t.key !in left && ActiveListed(w, merged, t))
      invariant forall id :: id in activeIds <==> ActiveSoFar(w, merged, left, id)
      decreases left
    {
      var key :| key in left;
      var observation := merged[key];
      var place := ActivePlace(w, observation);
      var task := ActiveTask(w, observation);
      ActiveLoopStep(w, merged, left, key, groups);
      hide *;
      left := left - {key};
      if place.None? { continue; }
      activeIds := activeIds + {observation.id};
      groups := Put(groups, task.project, task);
    }
  }

  /** What one turn of the loop changes. */
  lemma ActiveLoopStep(w: World, merged: map<Key, Observation>, left: set<Key>, key: Key, groups: Groups)
    requires Keyed(w, merged) && key in left && key in merged && Grouped(w, groups)
    ensures var task, place := ActiveTask(w, merged[key]), ActivePlace(w, merged[key]);
      && (forall t: Task :: One(t.key !in left - {key} && ActiveListed(w, merged, t))
            == One(t.key !in left && ActiveListed(w, merged, t)) + One(place.Some? && t == task))
      && (forall t :: Held(Put(groups, task.project, task), t) == Held(groups, t) + One(t == task))
      && (forall id :: ActiveSoFar(w, merged, left - {key}, id) <==> ActiveSoFar(w, merged, left, id) || (merged[key].id == id && place.Some?))
      && (place.Some? ==> Grouped(w, Put(groups, task.project, task)))
  {
    var task, place := ActiveTask(w, merged[key]), ActivePlace(w, merged[key]);
    if place.Some? { PutGroups(w, groups, task); }
    hide ActivePlace, ActiveTask, ActiveListed, Held, Put, Keyed, Grouped, ActiveSoFar;
    forall t { ActiveStep(w, merged, left, key, t); }
    forall t { PutHeld(groups, task, t); }
    forall id { ActiveIdStep(w, merged, left, key, id); }
  }

  lemma CompletedStep(w: World, merged: map<Key, Observation>, left: set<string>, id: string, t: Task)
    requires Keyed(w, merged) && id in left && id in w.threads
    ensures One(t.key.1 !in left - {id} && CompletedListed(w, merged, t))
      == One(t.key.1 !in left && CompletedListed(w, merged, t))
       + One(!IsActive(w, merged, id) && CompletedPlace(w, w.threads[id]).Some? && t == CompletedTask(w, w.threads[id]))
  {
    hide CompletedPlace, IsActive;
  }

  /** Threads that are not active, in any order; their tasks count as completed. */
  method PlaceCompleted(w: World, merged: map<Key, Observation>, active: Groups, activeIds: set<string>) returns (groups: Groups)
    requires Keyed(w, merged) && Grouped(w, active)
    requires forall id :: id in activeIds <==> IsActive(w, merged, id)
    ensures Grouped(w, groups) && forall t :: Held(groups, t) == Held(active, t) + One(CompletedListed(w, merged, t))
  {
    groups := active;
    var left := w.threads.Keys;
    while left != {}
      invariant left <= w.threads.Keys && Grouped(w, groups)
      invariant forall t :: Held(groups, t) == Held(active, t) + One(t.key.1 !in left && CompletedListed(w, merged, t))
      decreases left
    {
      var id :| id in left;
      var thread := w.threads[id];
      assert thread.id == id;
      var place := CompletedPlace(w, thread);
      var task := CompletedTask(w, thread);
      forall t { CompletedStep(w, merged, left, id, t); }
      forall t { PutHeld(groups, task, t); }
      if place.Some? { PutGroups(w, groups, task); }
      hide CompletedPlace, CompletedTask, CompletedListed, IsActive, Grouped, Held, Grouping.Held, Put, Keyed;
      left := left - {id};
      if thread.id in activeIds || place.None? { continue; }
      groups := Put(groups, task.project, task);
    }
  }

  // ----- The list of items --------------------------------------------------------------------------

  function TasksIn(item: Item): seq<Task> {
    item.tasks
  }

  function AllTasks(items: seq<Item>): seq<Task> {
    Flat(items, TasksIn)
  }

  function CatalogIds(catalog: seq<Project>): (ids: seq<ProjectId>)
    ensures |ids| == |catalog| && forall i | 0 <= i < |ids| :: ids[i] == catalog[i].id
  {
    seq(|catalog|, i requires 0 <= i < |catalog| => catalog[i].id)
  }

  predicate IsPinned(pinned: map<ProjectId, bool>, id: ProjectId) {
    id in pinned && pinned[id]
  }

  predicate CreatedBefore(a: Task, b: Task) {
    a.created < b.created || (a.created == b.created && StableSort.TextBefore(KeyText(a.key), KeyText(b.key)))
  }

  function SortTasks(tasks: seq<Task>): seq<Task> {
    StableSort.Sort(CreatedBefore, tasks)
  }

  /** Times a task of a grouped project is among the items of these ids. */
  ghost function Expected(groups: Groups, ids: seq<ProjectId>, t: Task): nat {
    if t.project == UNASSIGNED || Held(groups, t) == 0 then 0 else Times(ids, t.project)
  }

  /** Each grouped project is shown as often as it is among these ids. */
  ghost predicate CountedAs(ids: seq<ProjectId>, others: seq<ProjectId>, groups: Groups) {
    forall id | id in groups && id != UNASSIGNED :: Times(ids, id) == Times(others, id)
  }

  lemma CountedOneMore(ids: seq<ProjectId>, others: seq<ProjectId>, groups: Groups, id: ProjectId)
    requires CountedAs(ids, others, groups)
    ensures CountedAs(ids + [id], others + [id], groups)
    ensures id !in groups || id == UNASSIGNED ==> CountedAs(ids, others + [id], groups)
  {
    forall other { TimesSnoc(ids, id, other); }
    forall other { TimesSnoc(others, id, other); }
    hide Times;
  }

  /** The ids to show: of the catalog in its order, then of the pinned rest in any order. */
  method ShownIds(catalog: seq<Project>, groups: Groups, pinned: map<ProjectId, bool>) returns (ids: seq<ProjectId>)
    requires forall id | id in groups :: id == UNASSIGNED || InCatalog(catalog, id)
    ensures CountedAs(ids, CatalogIds(catalog), groups)
    ensures forall id | IsPinned(pinned, id) && id != UNASSIGNED :: id in ids
  {
    ids := [];
    var seen: set<ProjectId> := {};
    for i := 0 to |catalog|
      invariant CountedAs(ids, CatalogIds(catalog)[..i], groups) && forall id | id in seen :: id in ids
      invariant forall j | 0 <= j < i :: catalog[j].id in groups && catalog[j].id != UNASSIGNED ==> catalog[j].id in seen
    {
      var id := catalog[i].id;
      assert CatalogIds(catalog)[..i + 1] == CatalogIds(catalog)[..i] + [id];
      CountedOneMore(ids, CatalogIds(catalog)[..i], groups, id);
      hide CountedAs;
      if (id in groups && id != UNASSIGNED) || IsPinned(pinned, id) {
        ids, seen := ids + [id], seen + {id};
      }
    }
    assert CatalogIds(catalog)[..|catalog|] == CatalogIds(catalog);
    assert forall id | id in groups && id != UNASSIGNED :: id in seen;
    ids := AddPinned(ids, seen, pinned);
  }

  /** The pinned ids that were not seen; those that were keep their number. */
  method AddPinned(shown: seq<ProjectId>, seen: set<ProjectId>, pinned: map<ProjectId, bool>) returns (ids: seq<ProjectId>)
    ensures forall id | id in seen :: Times(ids, id) == Times(shown, id)
    ensures (forall id | id in shown :: id in ids) && forall id | id in pinned && id != UNASSIGNED :: id in ids || id in seen
  {
    ids := shown;
    var left := pinned.Keys;
    while left != {}
      invariant forall id | id in seen :: Times(ids, id) == Times(shown, id)
      invariant (forall id | id in shown :: id in ids) && forall id | id in pinned && id != UNASSIGNED :: id in ids || id in seen || id in left
      decreases left
    {
      var id :| id in left;
      left := left - {id};
      forall other { TimesSnoc(ids, id, other); }
      hide Times;
      if id != UNASSIGNED && id !in seen { ids := ids + [id]; }
    }
  }

  lemma TimesSnoc(ids: seq<ProjectId>, last: ProjectId, id: ProjectId)
    ensures Times(ids + [last], id) == Times(ids, id) + One(last == id)
  {
    assert (ids + [last])[..|ids|] == ids;
  }

  predicate WellPlaced(item: Item) {
    && (forall t | t in item.tasks :: t.project == item.id && item.kind != UnavailablePinned)
    && (item.tasks != [] ==> (item.kind == Loose <==> item.id == UNASSIGNED))
  }

  lemma AllTasksSnoc(items: seq<Item>, item: Item)
    ensures AllTasks(items + [item]) == AllTasks(items) + item.tasks
  {
    FlatSnoc(items, item, TasksIn);
  }

  function ItemFor(catalog: seq<Project>, groups: Groups, pinned: map<ProjectId, bool>, id: ProjectId): Item {
    Item(id, if InCatalog(catalog, id) then Regular else UnavailablePinned, IsPinned(pinned, id),
         SortTasks(if id == UNASSIGNED then [] else ListOf(groups, id)))
  }

  lemma ItemForHolds(catalog: seq<Project>, groups: Groups, pinned: map<ProjectId, bool>, id: ProjectId)
    requires Sorted(groups) && forall id | id in groups :: id == UNASSIGNED || InCatalog(catalog, id)
    ensures WellPlaced(ItemFor(catalog, groups, pinned, id))
    ensures forall t :: multiset(ItemFor(catalog, groups, pinned, id).tasks)[t] == if t.project == id && id != UNASSIGNED then Held(groups, t) else 0
  {
    var tasks := if id == UNASSIGNED then [] else ListOf(groups, id);
    var item := ItemFor(catalog, groups, pinned, id);
    forall t { SortedTasksHold(tasks, id, t); }
    hide SortTasks;
    forall t ensures multiset(item.tasks)[t] == if t.project == id && id != UNASSIGNED then Held(groups, t) else 0 {
      assert multiset(item.tasks)[t] == multiset(tasks)[t];
    }
  }

  lemma ExpectedSnoc(groups: Groups, ids: seq<ProjectId>, id: ProjectId, t: Task)
    requires Held(groups, t) <= 1
    ensures Expected(groups, ids + [id], t)
      == Expected(groups, ids, t) + if t.project == id && id != UNASSIGNED then Held(groups, t) else 0
  {
    TimesSnoc(ids, id, t.project);
    hide Held, Times;
  }

  ghost predicate HoldsExpected(groups: Groups, ids: seq<ProjectId>, items: seq<Item>) {
    forall t :: multiset(AllTasks(items))[t] == Expected(groups, ids, t)
  }

  /** One item for each of these ids, each in its place. */
  predicate AreItems(catalog: seq<Project>, groups: Groups, pinned: map<ProjectId, bool>, ids: seq<ProjectId>, items: seq<Item>) {
    && (forall item | item in items :: WellPlaced(item))
    && |items| == |ids| && forall i | 0 <= i < |ids| :: items[i] == ItemFor(catalog, groups, pinned, ids[i])
  }

  lemma HoldsOneMore(catalog: seq<Project>, groups: Groups, pinned: map<ProjectId, bool>, ids: seq<ProjectId>, items: seq<Item>, id: ProjectId)
    requires HoldsExpected(groups, ids, items) && forall t :: Held(groups, t) <= 1
    requires Sorted(groups) && forall id | id in groups :: id == UNASSIGNED || InCatalog(catalog, id)
    ensures HoldsExpected(groups, ids + [id], items + [ItemFor(catalog, groups, pinned, id)])
  {
    forall t { ExpectedSnoc(groups, ids, id, t); }
    ItemForHolds(catalog, groups, pinned, id);
    AllTasksSnoc(items, ItemFor(catalog, groups, pinned, id));
    hide Expected, ItemFor, WellPlaced, Held, Grouping.Held, AllTasks;
  }

  lemma OneItemMore(catalog: seq<Project>, groups: Groups, pinned: map<ProjectId, bool>, ids: seq<ProjectId>, items: seq<Item>, id: ProjectId)
    requires AreItems(catalog, groups, pinned, ids, items)
    requires Sorted(groups) && forall id | id in groups :: id == UNASSIGNED || InCatalog(catalog, id)
    ensures AreItems(catalog, groups, pinned, ids + [id], items + [ItemFor(catalog, groups, pinned, id)])
  {
    ItemForHolds(catalog, groups, pinned, id);
    hide ItemFor, WellPlaced, Sorted;
  }

  method ProjectItems(catalog: seq<Project>, groups: Groups, pinned: map<ProjectId, bool>, ids: seq<ProjectId>) returns (items: seq<Item>)
    requires Sorted(groups) && forall id | id in groups :: id == UNASSIGNED || InCatalog(catalog, id)
    requires forall t :: Held(groups, t) <= 1
    ensures forall t :: multiset(AllTasks(items))[t] == Expected(groups, ids, t)
    ensures forall item | item in items :: WellPlaced(item)
    ensures |items| == |ids| && forall i | 0 <= i < |ids| :: items[i] == ItemFor(catalog, groups, pinned, ids[i])
  {
    items := [];
    assert ids[..0] == [] && HoldsExpected(groups, [], []) && AreItems(catalog, groups, pinned, [], []);
    for i := 0 to |ids|
      invariant HoldsExpected(groups, ids[..i], items) && AreItems(catalog, groups, pinned, ids[..i], items)
    {
      assert ids[..i + 1] == ids[..i] + [ids[i]];
      HoldsOneMore(catalog, groups, pinned, ids[..i], items, ids[i]);
      OneItemMore(catalog, groups, pinned, ids[..i], items, ids[i]);
      hide *;
      items := items + [ItemFor(catalog, groups, pinned, ids[i])];
    }
    assert ids[..|ids|] == ids;
  }

  /** Times a task is displayed: once for each catalog entry of its project, once when it is unassigned. */
  ghost function Displays(w: World, merged: map<Key, Observation>, t: Task): nat {
    if !Listed(w, merged, t) then 0 else if t.project == UNASSIGNED then 1 else Times(CatalogIds(w.catalog), t.project)
  }

  /** Whether the item of unassigned tasks is shown, and with which tasks. */
  function LooseItem(groups: Groups, pinned: map<ProjectId, bool>): seq<Item> {
    var loose := ListOf(groups, UNASSIGNED);
    if loose != [] || IsPinned(pinned, UNASSIGNED)
    then [Item(UNASSIGNED, Loose, IsPinned(pinned, UNASSIGNED), SortTasks(loose))] else []
  }

  lemma TasksOfOne(item: Item)
    ensures AllTasks([item]) == item.tasks
  {
    AllTasksSnoc([], item);
    assert [] + [item] == [item];
    assert AllTasks([]) == [];
    hide AllTasks;
    assert [] + item.tasks == item.tasks;
  }

  /** Sorting keeps a list's tasks, which all belong to one project. */
  lemma SortedTasksHold(tasks: seq<Task>, id: ProjectId, t: Task)
    requires forall t | t in tasks :: t.project == id
    ensures multiset(SortTasks(tasks))[t] == multiset(tasks)[t]
    ensures t in SortTasks(tasks) ==> t.project == id
    ensures t.project != id ==> multiset(tasks)[t] == 0
  {
    StableSort.SortKeepsAll(CreatedBefore, tasks);
    assert multiset(SortTasks(tasks)) == multiset(tasks);
    hide SortTasks;
    assert t in tasks <==> multiset(tasks)[t] > 0;
    assert t in SortTasks(tasks) <==> multiset(SortTasks(tasks))[t] > 0;
  }

  lemma LooseItemHolds(groups: Groups, pinned: map<ProjectId, bool>)
    requires Sorted(groups)
    ensures forall t :: multiset(AllTasks(LooseItem(groups, pinned)))[t] == if t.project == UNASSIGNED then Held(groups, t) else 0
    ensures forall item | item in LooseItem(groups, pinned) :: WellPlaced(item)
  {
    var loose := ListOf(groups, UNASSIGNED);
    var item := Item(UNASSIGNED, Loose, IsPinned(pinned, UNASSIGNED), SortTasks(loose));
    TasksOfOne(item);
    forall t { SortedTasksHold(loose, UNASSIGNED, t); }
    assert AllTasks([]) == [];
    hide AllTasks, SortTasks;
    if loose == [] && !IsPinned(pinned, UNASSIGNED) {
      assert LooseItem(groups, pinned) == [];
    } else {
      assert LooseItem(groups, pinned) == [item];
    }
  }

  lemma ListedOnce(w: World, merged: map<Key, Observation>, t: Task)
    ensures One(ActiveListed(w, merged, t)) + One(CompletedListed(w, merged, t)) == One(Listed(w, merged, t))
  {
  }

  /** What the items of the projects and the loose item hold together. */
  lemma ShownTogether(w: World, merged: map<Key, Observation>, groups: Groups, ids: seq<ProjectId>, t: Task)
    requires Held(groups, t) == One(Listed(w, merged, t)) && Grouped(w, groups)
    requires CountedAs(ids, CatalogIds(w.catalog), groups)
    ensures Expected(groups, ids, t) + (if t.project == UNASSIGNED then Held(groups, t) else 0) == Displays(w, merged, t)
  {
    hide Listed, Times, CatalogIds;
  }

  /** An item shows its pin, and its tasks the older first. */
  predicate WellShown(pinned: map<ProjectId, bool>, item: Item) {
    && item.pinned == IsPinned(pinned, item.id)
    && forall i, j | 0 <= i < j < |item.tasks| :: item.tasks[i].created <= item.tasks[j].created
  }

  predicate HasItem(items: seq<Item>, id: ProjectId) {
    exists item | item in items :: item.id == id
  }

  lemma CreatedIsStrict()
    ensures StableSort.StrictWeak(CreatedBefore)
  {
    forall a: Task, b: Task, c: Task
      ensures (CreatedBefore(a, b) ==> !CreatedBefore(b, a)) && (CreatedBefore(a, c) ==> CreatedBefore(a, b) || CreatedBefore(b, c))
    {
      StableSort.TextBeforeIsStrict(KeyText(a.key), KeyText(b.key), KeyText(c.key));
    }
  }

  lemma SortedByCreation(tasks: seq<Task>)
    ensures var sorted := SortTasks(tasks); forall i, j | 0 <= i < j < |sorted| :: sorted[i].created <= sorted[j].created
  {
    CreatedIsStrict();
    StableSort.SortOrders(CreatedBefore, tasks);
    var sorted := SortTasks(tasks);
    hide SortTasks, StableSort.StrictWeak;
    forall i, j | 0 <= i < j < |sorted| ensures sorted[i].created <= sorted[j].created { assert !CreatedBefore(sorted[j], sorted[i]); }
  }

  lemma ItemsAreWellShown(catalog: seq<Project>, groups: Groups, pinned: map<ProjectId, bool>, ids: seq<ProjectId>, items: seq<Item>)
    requires |items| == |ids| && forall i | 0 <= i < |ids| :: items[i] == ItemFor(catalog, groups, pinned, ids[i])
    requires forall id | IsPinned(pinned, id) && id != UNASSIGNED :: id in ids
    ensures forall item | item in LooseItem(groups, pinned) + items :: WellShown(pinned, item)
    ensures forall id | IsPinned(pinned, id) :: HasItem(LooseItem(groups, pinned) + items, id)
  {
    var all := LooseItem(groups, pinned) + items;
    SortedByCreation(ListOf(groups, UNASSIGNED));
    forall i | 0 <= i < |ids| ensures WellShown(pinned, items[i]) {
      SortedByCreation(if ids[i] == UNASSIGNED then [] else ListOf(groups, ids[i]));
    }
    hide SortTasks;
    forall id | IsPinned(pinned, id) ensures HasItem(all, id) {
      if id == UNASSIGNED {
        assert all[0].id == id && all[0] in all;
      } else {
        var i :| 0 <= i < |ids| && ids[i] == id;
        assert items[i].id == id && items[i] in all;
      }
    }
  }

  method BuildItems(w: World, merged: map<Key, Observation>, pinned: map<ProjectId, bool>) returns (items: seq<Item>)
    requires Keyed(w, merged)
    ensures forall t :: multiset(AllTasks(items))[t] == Displays(w, merged, t)
    ensures forall item | item in items :: WellPlaced(item) && WellShown(pinned, item)
    ensures forall id | IsPinned(pinned, id) :: HasItem(items, id)
  {
    var active, activeIds := PlaceActive(w, merged);
    var groups := PlaceCompleted(w, merged, active, activeIds);
    var ids := ShownIds(w.catalog, groups, pinned);
    forall t { ListedOnce(w, merged, t); }
    assert forall t :: Held(groups, t) == One(Listed(w, merged, t)) by { hide *; }
    assert Sorted(groups);
    hide *;
    assert forall t :: Held(groups, t) <= 1 by { OneIsSmall(w, merged, groups); }
    var regular := ProjectItems(w.catalog, groups, pinned, ids);
    TogetherHolds(w, merged, groups, ids, regular, pinned);
    ItemsAreWellShown(w.catalog, groups, pinned, ids, regular);
    items := LooseItem(groups, pinned) + regular;
  }

  lemma OneIsSmall(w: World, merged: map<Key, Observation>, groups: Groups)
    requires forall t :: Held(groups, t) == One(Listed(w, merged, t))
    ensures forall t :: Held(groups, t) <= 1
  {
    hide Held, Listed;
  }

  /** The loose item and the regular ones together display what is to be displayed. */
  lemma TogetherHolds(w: World, merged: map<Key, Observation>, groups: Groups, ids: seq<ProjectId>, regular: seq<Item>, pinned: map<ProjectId, bool>)
    requires Grouped(w, groups) && forall t :: Held(groups, t) == One(Listed(w, merged, t))
    requires CountedAs(ids, CatalogIds(w.catalog), groups)
    requires forall t :: multiset(AllTasks(regular))[t] == Expected(groups, ids, t)
    requires forall item | item in regular :: WellPlaced(item)
    ensures forall t :: multiset(AllTasks(LooseItem(groups, pinned) + regular))[t] == Displays(w, merged, t)
    ensures forall item | item in LooseItem(groups, pinned) + regular :: WellPlaced(item)
  {
    LooseItemHolds(groups, pinned);
    forall t { ShownTogether(w, merged, groups, ids, t); }
    FlatParts(LooseItem(groups, pinned), regular, TasksIn);
    hide Held, Grouping.Held, Displays, Expected, LooseItem, WellPlaced, Times, CatalogIds, Listed, Grouped, Flat;
    forall t ensures multiset(AllTasks(LooseItem(groups, pinned) + regular))[t] == Displays(w, merged, t) {
      assert multiset(AllTasks(LooseItem(groups, pinned) + regular))[t]
        == multiset(AllTasks(LooseItem(groups, pinned)))[t] + multiset(AllTasks(regular))[t];
    }
  }

  lemma DisplayedAtLeastOnce(w: World, merged: map<Key, Observation>, t: Task)
    requires Listed(w, merged, t)
    ensures Displays(w, merged, t) >= 1
  {
    if t.project != UNASSIGNED {
      ListedInCatalog(w, merged, t);
      var p :| p in w.catalog && p.id == t.project;
      var i :| 0 <= i < |w.catalog| && w.catalog[i] == p;
      assert CatalogIds(w.catalog)[i] == t.project;
      TimesOfMember(CatalogIds(w.catalog), i);
    }
  }

  lemma {:induction false} TimesOfMember(ids: seq<string>, i: nat)
    requires i < |ids|
    ensures Times(ids, ids[i]) >= 1
  {
    if i < |ids| - 1 { TimesOfMember(ids[..|ids| - 1], i); }
  }

  lemma ListedInCatalog(w: World, merged: map<Key, Observation>, t: Task)
    requires Listed(w, merged, t) && t.project != UNASSIGNED
    ensures InCatalog(w.catalog, t.project)
  {
    hide AssignedProject, Classify, InCatalog, IsActive;
  }

  // ----- What is to be shown, by the inputs alone ---------------------------------------------

  predicate HasRootAt(catalog: seq<Project>, k: nat, path: string, norm: string -> string) {
    k < |catalog| && exists root | root in catalog[k].roots :: norm(root) == path
  }

  /** Project k is the first with a root that is this directory. */
  ghost predicate IsFirstAt(catalog: seq<Project>, k: nat, path: string, norm: string -> string) {
    HasRootAt(catalog, k, path, norm) && forall j: nat | j < k :: !HasRootAt(catalog, j, path, norm)
  }

  /**
   What a task is given: the last of its thread's bindings; without one the first project
   with the thread's directory; and the empty id without such a project or any thread.
   Without a thread it is the bindings of the empty id that are looked up.
   */
  ghost predicate IsGiven(w: World, id: string, found: ProjectId) {
    var bound := if id in w.threads then id else "";
    if bound in w.projections && |w.projections[bound]| > 0 then found == w.projections[bound][|w.projections[bound]| - 1]
    else if id !in w.threads then found == ""
    else
      var path := w.norm(w.threads[id].cwd);
      || (exists k: nat :: IsFirstAt(w.catalog, k, path, w.norm) && found == w.catalog[k].id)
      || ((forall k: nat :: !HasRootAt(w.catalog, k, path, w.norm)) && found == "")
  }

  /** A project of the catalog keeps what it is given; all else is unassigned. */
  predicate IsPut(w: World, found: ProjectId, project: ProjectId) {
    project == if InCatalog(w.catalog, found) then found else UNASSIGNED
  }

  predicate IsPart(w: World, id: string) {
    id in w.threads && (w.threads[id].parent.Some? || (w.threads[id].nickname.Some? && w.threads[id].nickname.value != ""))
  }

  /** An observed task that waits or runs, and is not a part of another. */
  ghost predicate IsShownObserved(w: World, merged: map<Key, Observation>, t: Task) {
    && t.key in merged && IsBusy(Classify(merged[t.key])) && !IsPart(w, t.key.1)
    && t.state == Classify(merged[t.key])
    && t.name == (if t.key.1 in w.threads then w.threads[t.key.1].name else None)
    && t.created == (if t.key.1 in w.threads then w.threads[t.key.1].created else w.now)
    && exists found :: IsGiven(w, t.key.1, found) && IsPut(w, found, t.project)
  }

  /** A local thread with a log that is not observed as active, in a project of the catalog or connected. */
  ghost predicate IsShownThread(w: World, merged: map<Key, Observation>, t: Task) {
    && t.key.0 == "local" && t.key.1 in w.threads && !IsPart(w, t.key.1)
    && (forall key | key in merged && key.1 == t.key.1 :: !IsBusy(Classify(merged[key])))
    && var thread := w.threads[t.key.1];
      && thread.path.Some? && t.state == Completed && t.name == thread.name && t.created == thread.created
      && exists found :: IsGiven(w, t.key.1, found) && IsPut(w, found, t.project) && (InCatalog(w.catalog, found) || t.key.1 in w.connected)
  }

  lemma {:induction false} ProjectAtIsFirst(catalog: seq<Project>, path: string, norm: string -> string)
    ensures || (exists k: nat :: IsFirstAt(catalog, k, path, norm) && ProjectAt(catalog, path, norm) == catalog[k].id)
            || ((forall k: nat :: !HasRootAt(catalog, k, path, norm)) && ProjectAt(catalog, path, norm) == "")
  {
    if catalog != [] {
      var tail := catalog[1..];
      ProjectAtIsFirst(tail, path, norm);
      forall k: nat ensures HasRootAt(catalog, k + 1, path, norm) <==> HasRootAt(tail, k, path, norm) { }
      if HasRootAt(catalog, 0, path, norm) {
        assert IsFirstAt(catalog, 0, path, norm);
      } else if j: nat :| IsFirstAt(tail, j, path, norm) && ProjectAt(tail, path, norm) == tail[j].id {
        RootsInTail(catalog, path, norm);
        assert IsFirstAt(catalog, j + 1, path, norm) by { hide HasRootAt; }
      } else {
        RootsInTail(catalog, path, norm);
      }
    }
  }

  lemma RootsInTail(catalog: seq<Project>, path: string, norm: string -> string)
    requires catalog != []
    ensures forall k: nat | k > 0 :: HasRootAt(catalog, k, path, norm) <==> HasRootAt(catalog[1..], k - 1, path, norm)
  {
  }

  /** What a task is given is what the code finds, and nothing else. */
  lemma GivenIsAssigned(w: World, id: string, found: ProjectId)
    requires forall id | id in w.threads :: w.threads[id].id == id
    ensures IsGiven(w, id, found) <==> found == AssignedProject(w, ThreadOf(w, id))
  {
    if id in w.threads { ProjectAtIsFirst(w.catalog, w.norm(w.threads[id].cwd), w.norm); }
    hide HasRootAt, ProjectAt;
  }

  lemma ListedIsShown(w: World, merged: map<Key, Observation>, t: Task)
    requires Keyed(w, merged)
    ensures Listed(w, merged, t) <==> IsShownObserved(w, merged, t) || IsShownThread(w, merged, t)
  {
    ActiveIsShown(w, merged, t);
    CompletedIsShown(w, merged, t);
    hide ActiveListed, CompletedListed, IsShownObserved, IsShownThread;
  }

  lemma GivenIsOne(w: World, id: string)
    requires forall id | id in w.threads :: w.threads[id].id == id
    ensures forall found :: IsGiven(w, id, found) <==> found == AssignedProject(w, ThreadOf(w, id))
  {
    forall found { GivenIsAssigned(w, id, found); }
    hide IsGiven, AssignedProject;
  }

  lemma ActiveIsShown(w: World, merged: map<Key, Observation>, t: Task)
    requires Keyed(w, merged)
    ensures ActiveListed(w, merged, t) <==> IsShownObserved(w, merged, t)
  {
    GivenIsOne(w, t.key.1);
    hide IsGiven, AssignedProject, InCatalog;
    assert IsGiven(w, t.key.1, AssignedProject(w, ThreadOf(w, t.key.1)));
    if t.key in merged {
      assert merged[t.key].id == t.key.1;
      ClassifyMeans(merged[t.key]);
      hide Classify;
    }
  }

  lemma CompletedIsShown(w: World, merged: map<Key, Observation>, t: Task)
    requires Keyed(w, merged)
    ensures CompletedListed(w, merged, t) <==> IsShownThread(w, merged, t)
  {
    GivenIsOne(w, t.key.1);
    ActivesAre(w, merged, t.key.1);
    hide IsGiven, AssignedProject, InCatalog, Classify, IsActive;
    assert IsGiven(w, t.key.1, AssignedProject(w, ThreadOf(w, t.key.1)));
  }

  lemma ActivesAre(w: World, merged: map<Key, Observation>, id: string)
    requires Keyed(w, merged)
    ensures id in w.threads && !IsPart(w, id) ==>
      (IsActive(w, merged, id) <==> exists key :: key in merged && key.1 == id && IsBusy(Classify(merged[key])))
  {
    hide AssignedProject, InCatalog;
    forall o ensures Classify(o) != Completed { }
  }

  lemma DisplayedIsListed(w: World, merged: map<Key, Observation>, t: Task)
    ensures Displays(w, merged, t) > 0 <==> Listed(w, merged, t)
  {
    if Listed(w, merged, t) { DisplayedAtLeastOnce(w, merged, t); }
    hide Listed;
  }

  /** The builder, from what the service hands over. */
  method BuildProjectDashboard(catalog: seq<Project>, threads: seq<Thread>, projections: map<string, seq<ProjectId>>,
                               observations: seq<Observation>, pinned: map<ProjectId, bool>, connected: set<string>,
                               norm: string -> string, now: int) returns (items: seq<Item>)
    ensures var w := World(catalog, Latest(threads), projections, connected, norm, now);
      forall t :: multiset(AllTasks(items))[t] == Displays(w, MergedAll(observations), t)
    ensures forall item | item in items :: WellPlaced(item) && WellShown(pinned, item)
    ensures forall id | IsPinned(pinned, id) :: HasItem(items, id)
    ensures var w, merged := World(catalog, Latest(threads), projections, connected, norm, now), MergedAll(observations);
      forall t :: t in AllTasks(items) <==> IsShownObserved(w, merged, t) || IsShownThread(w, merged, t)
  {
    var byId := IndexThreads(threads);
    var merged := Deduplicate(observations);
    var w := World(catalog, byId, projections, connected, norm, now);
    InputsAreKeyed(w, threads, observations);
    items := BuildItems(w, merged, pinned);
    hide *;
    forall t ensures t in AllTasks(items) <==> IsShownObserved(w, merged, t) || IsShownThread(w, merged, t) {
      ListedIsShown(w, merged, t);
      DisplayedIsListed(w, merged, t);
      assert t in AllTasks(items) <==> multiset(AllTasks(items))[t] > 0;
    }
  }

  lemma InputsAreKeyed(w: World, threads: seq<Thread>, observations: seq<Observation>)
    requires w.threads == Latest(threads)
    ensures Keyed(w, MergedAll(observations))
  {
    var merged := MergedAll(observations);
    forall key | key in merged ensures KeyOf(merged[key]) == key {
      ValuesCount(observations, key);
      MergedFacts(ValuesOf(observations, key));
      assert ValuesOf(observations, key)[0] in ValuesOf(observations, key);
    }
    forall id | id in w.threads ensures w.threads[id].id == id { LatestWins(threads, id); }
  }
}

/**
 Both dashboards together: projects first, then workspaces for what no project
 owns, then the unassigned tasks without those that a workspace shows.
 */
module Dashboards {
  import opened Prelude
  import opened Observations
  import opened Threads
  import Grouping
  import P = ProjectDashboard
  import W = WorkspaceDashboard
  import StableSort

  // ----- What projects own ------------------------------------------------------------

  predicate Owns(item: P.Item, t: P.Task) {
    item.kind == P.Regular && t in item.tasks
  }

  function OwnedKeys(items: seq<P.Item>): set<Key> {
    set item, t | item in items && t in item.tasks && Owns(item, t) :: t.key
  }

  function OwnedThreads(items: seq<P.Item>): set<string> {
    set item, t | item in items && t in item.tasks && Owns(item, t) :: t.key.1
  }

  method CollectOwned(items: seq<P.Item>) returns (keys: set<Key>, threads: set<string>)
    ensures keys == OwnedKeys(items) && threads == OwnedThreads(items)
  {
    keys, threads := {}, {};
    for i := 0 to |items|
      invariant keys == OwnedKeys(items[..i]) && threads == OwnedThreads(items[..i])
    {
      assert items[..i + 1] == items[..i] + [items[i]];
      OwnedSnoc(items[..i], items[i]);
      if items[i].kind == P.Regular {
        keys := keys + set t | t in items[i].tasks :: t.key;
        threads := threads + set t | t in items[i].tasks :: t.key.1;
      }
    }
    assert items[..|items|] == items;
  }

  lemma OwnedSnoc(items: seq<P.Item>, item: P.Item)
    ensures OwnedKeys(items + [item]) == OwnedKeys(items) + if item.kind == P.Regular then set t | t in item.tasks :: t.key else {}
    ensures OwnedThreads(items + [item]) == OwnedThreads(items) + if item.kind == P.Regular then set t | t in item.tasks :: t.key.1 else {}
  {
  }

  // ----- The workspaces ------------------------------------------------------------------

  function SceneOf(threads: seq<Thread>, roots: seq<string>, identity: string -> string, root: string, items: seq<P.Item>, now: int): W.Scene {
    W.Scene(Latest(threads), identity, identity(root), set r | r in roots && identity(r) != "" :: identity(r),
            OwnedKeys(items), OwnedThreads(items), now)
  }

  method BuildWorkspaceDashboard(threads: seq<Thread>, roots: seq<string>, observations: seq<Observation>, items: seq<P.Item>,
                                 pinned: set<W.WorkspaceId>, connected: set<string>, identity: string -> string, root: string,
                                 textOf: W.WorkspaceId -> string, now: int) returns (workspaces: seq<W.WItem>)
    ensures var v := SceneOf(threads, roots, identity, root, items, now);
      forall t :: WorkspaceShows(v, MergedAll(observations), connected, workspaces, t)
    ensures var v, merged := SceneOf(threads, roots, identity, root, items, now), MergedAll(observations);
      && (forall t | t in W.AllWTasks(workspaces) :: W.IsHeldObserved(v, merged, t) || W.IsHeldThread(v, merged, t))
      && (forall t | IsAlwaysShown(v, merged, connected, t) :: t in W.AllWTasks(workspaces))
    ensures forall i, j | 0 <= i < j < |workspaces| :: W.MayPrecede(workspaces[i], workspaces[j]) && workspaces[i].id != workspaces[j].id
    ensures forall item | item in workspaces :: W.WellCounted(pinned, item)
  {
    var byId := IndexThreads(threads);
    var merged := Deduplicate(observations);
    var keys, owned := CollectOwned(items);
    var v := W.Scene(byId, identity, identity(root), set r | r in roots && identity(r) != "" :: identity(r), keys, owned, now);
    KeyedScene(v, threads, observations);
    var open := W.OpenWorkspaces(roots, v);
    var active, activeIds := W.AddActive(v, merged, open);
    var groups := W.AddCompleted(v, merged, active, activeIds);
    var unsorted := W.WorkspaceItems(groups, pinned, connected);
    workspaces := StableSort.Sort((a: W.WItem, b: W.WItem) => W.WorkspaceBefore(textOf, a, b), unsorted);
    Grouping.FlatSort((a: W.WItem, b: W.WItem) => W.WorkspaceBefore(textOf, a, b), unsorted, W.WTasksIn);
    forall t { WhatIsShown(v, merged, groups, connected, workspaces, t); }
    W.WorkspacesInOrder(textOf, unsorted);
    hide *;
    ShownAreHeld(v, merged, connected, workspaces);
    ItemsStay(groups, pinned, connected, unsorted, workspaces);
  }

  /** A task of a workspace that waits, runs or is connected. */
  ghost predicate IsAlwaysShown(v: W.Scene, merged: map<Key, Observation>, connected: set<string>, t: W.WTask) {
    W.IsHeldObserved(v, merged, t) || (W.IsHeldThread(v, merged, t) && t.key.1 in connected)
  }

  lemma ShownAreHeld(v: W.Scene, merged: map<Key, Observation>, connected: set<string>, workspaces: seq<W.WItem>)
    requires W.KeyedIn(v, merged) && forall t :: WorkspaceShows(v, merged, connected, workspaces, t)
    ensures forall t | t in W.AllWTasks(workspaces) :: W.IsHeldObserved(v, merged, t) || W.IsHeldThread(v, merged, t)
    ensures forall t | IsAlwaysShown(v, merged, connected, t) :: t in W.AllWTasks(workspaces)
  {
    hide W.Belongs, W.AllWTasks, W.KeyedIn;
    forall t: W.WTask
      ensures t in W.AllWTasks(workspaces) ==> W.IsHeldObserved(v, merged, t) || W.IsHeldThread(v, merged, t)
      ensures IsAlwaysShown(v, merged, connected, t) ==> t in W.AllWTasks(workspaces)
    {
      assert WorkspaceShows(v, merged, connected, workspaces, t);
      W.BelongingIsHeld(v, merged, t);
      assert t in W.AllWTasks(workspaces) <==> multiset(W.AllWTasks(workspaces))[t] > 0;
    }
  }

  lemma ItemsStay(groups: W.Aggregates, pinned: set<W.WorkspaceId>, connected: set<string>, unsorted: seq<W.WItem>, workspaces: seq<W.WItem>)
    requires W.InPlace(groups) && W.ItemsOf(unsorted, groups, pinned, connected, {}) && multiset(workspaces) == multiset(unsorted)
    ensures forall item | item in workspaces :: W.WellCounted(pinned, item)
    ensures forall i, j | 0 <= i < j < |workspaces| :: workspaces[i].id != workspaces[j].id
  {
    forall item | item in workspaces ensures W.WellCounted(pinned, item) {
      assert item in multiset(unsorted);
      W.ItemIsWellCounted(groups, pinned, connected, item.id);
    }
    hide W.WItemFor, W.InPlace;
    DistinctStays(unsorted, workspaces);
  }

  lemma DistinctStays(unsorted: seq<W.WItem>, workspaces: seq<W.WItem>)
    requires multiset(workspaces) == multiset(unsorted) && forall i, j | 0 <= i < j < |unsorted| :: unsorted[i].id != unsorted[j].id
    ensures forall i, j | 0 <= i < j < |workspaces| :: workspaces[i].id != workspaces[j].id
  {
    forall i, j | 0 <= i < j < |workspaces| ensures workspaces[i].id != workspaces[j].id {
      var a, b := workspaces[i], workspaces[j];
      assert a in multiset(workspaces) && b in multiset(workspaces);
      assert a in unsorted && b in unsorted;
      if a == b {
        assert workspaces == workspaces[..i] + [a] + workspaces[i + 1..j] + [b] + workspaces[j + 1..];
        assert multiset(workspaces)[a] >= 2;
        OnceInDistinct(unsorted, a);
      }
    }
  }

  lemma {:induction false} OnceInDistinct(items: seq<W.WItem>, a: W.WItem)
    requires forall i, j | 0 <= i < j < |items| :: items[i].id != items[j].id
    ensures multiset(items)[a] <= 1
  {
    if items != [] {
      var init, last := items[..|items| - 1], items[|items| - 1];
      assert items == init + [last];
      OnceInDistinct(init, a);
      if last == a { assert a !in init; }
    }
  }

  lemma WhatIsShown(v: W.Scene, merged: map<Key, Observation>, groups: W.Aggregates, connected: set<string>, workspaces: seq<W.WItem>, t: W.WTask)
    requires W.HeldIn(groups, t) == Grouping.One(W.ActiveIn(v, merged, t)) + Grouping.One(W.CompletedIn(v, merged, t))
    requires multiset(W.AllWTasks(workspaces))[t] == if t.workspace in groups then W.ShownIn(groups, connected, t) else 0
    ensures WorkspaceShows(v, merged, connected, workspaces, t)
  {
    BelongsOnce(v, merged, t);
    W.ShownKeeps(Grouping.ListOf(groups, t.workspace), connected, t);
    hide W.ActiveIn, W.CompletedIn, W.Shown, W.Kept, W.Belongs, W.AllWTasks;
  }

  /** A workspace shows a task once at most and only if it belongs there; a kept one always. */
  ghost predicate WorkspaceShows(v: W.Scene, merged: map<Key, Observation>, connected: set<string>, workspaces: seq<W.WItem>, t: W.WTask) {
    && multiset(W.AllWTasks(workspaces))[t] <= Grouping.One(W.Belongs(v, merged, t))
    && (W.Kept(connected, t) ==> multiset(W.AllWTasks(workspaces))[t] == Grouping.One(W.Belongs(v, merged, t)))
  }

  lemma BelongsOnce(v: W.Scene, merged: map<Key, Observation>, t: W.WTask)
    ensures Grouping.One(W.ActiveIn(v, merged, t)) + Grouping.One(W.CompletedIn(v, merged, t)) == Grouping.One(W.Belongs(v, merged, t))
  {
  }

  lemma KeyedScene(v: W.Scene, threads: seq<Thread>, observations: seq<Observation>)
    requires v.threads == Latest(threads)
    ensures W.KeyedIn(v, MergedAll(observations))
  {
    var w := P.World([], v.threads, map[], {}, v.identity, 0);
    P.InputsAreKeyed(w, threads, observations);
  }

  // ----- Removing the overlap ------------------------------------------------------------------

  function ShownKeys(workspaces: seq<W.WItem>): set<Key> {
    set t | t in W.AllWTasks(workspaces) :: t.key
  }

  /** What is left of an item: only unassigned tasks give way to workspaces. */
  function Trimmed(item: P.Item, shown: set<Key>): seq<P.Item> {
    if item.kind != P.Loose then [item]
    else
      var remaining := StableSort.Pick((t: P.Task) => t.key !in shown, item.tasks);
      if remaining != [] || item.pinned then [item.(tasks := remaining)] else []
  }

  method RemoveOverlap(items: seq<P.Item>, workspaces: seq<W.WItem>) returns (rest: seq<P.Item>)
    ensures rest == Grouping.Flat(items, (item: P.Item) => Trimmed(item, ShownKeys(workspaces)))
  {
    var workspaceTasks := ShownKeys(workspaces);
    rest := [];
    for i := 0 to |items|
      invariant rest == Grouping.Flat(items[..i], (item: P.Item) => Trimmed(item, workspaceTasks))
    {
      var item := items[i];
      assert items[..i + 1] == items[..i] + [item];
      Grouping.FlatSnoc(items[..i], item, (item: P.Item) => Trimmed(item, workspaceTasks));
      if item.kind != P.Loose {
        rest := rest + [item];
        continue;
      }
      var remaining := KeepUnshown(item.tasks, workspaceTasks);
      if |remaining| > 0 || item.pinned { rest := rest + [item.(tasks := remaining)]; }
    }
    assert items[..|items|] == items;
  }

  method KeepUnshown(tasks: seq<P.Task>, shown: set<Key>) returns (remaining: seq<P.Task>)
    ensures remaining == StableSort.Pick((t: P.Task) => t.key !in shown, tasks)
  {
    remaining := [];
    for i := 0 to |tasks|
      invariant remaining == StableSort.Pick((t: P.Task) => t.key !in shown, tasks[..i])
    {
      assert tasks[..i + 1] == tasks[..i] + [tasks[i]];
      StableSort.PickSnoc((t: P.Task) => t.key !in shown, tasks[..i], tasks[i]);
      if tasks[i].key !in shown { remaining := remaining + [tasks[i]]; }
    }
    assert tasks[..|tasks|] == tasks;
  }

  predicate GivesWay(t: P.Task, shown: set<Key>) {
    t.project == P.UNASSIGNED && t.key in shown
  }

  lemma TrimmedHolds(item: P.Item, shown: set<Key>, t: P.Task)
    requires P.WellPlaced(item)
    ensures multiset(P.AllTasks(Trimmed(item, shown)))[t] == if GivesWay(t, shown) then 0 else multiset(item.tasks)[t]
  {
    assert t in item.tasks <==> t in multiset(item.tasks);
    StableSort.PickCounts((t: P.Task) => t.key !in shown, item.tasks, t);
    P.AllTasksSnoc([], item);
    var trimmed := item.(tasks := StableSort.Pick((t: P.Task) => t.key !in shown, item.tasks));
    P.AllTasksSnoc([], trimmed);
    assert [] + [item] == [item] && [] + [trimmed] == [trimmed];
  }

  lemma {:induction false} RemovalHolds(items: seq<P.Item>, shown: set<Key>, t: P.Task)
    requires forall item | item in items :: P.WellPlaced(item)
    ensures multiset(P.AllTasks(Grouping.Flat(items, (item: P.Item) => Trimmed(item, shown))))[t]
      == if GivesWay(t, shown) then 0 else multiset(P.AllTasks(items))[t]
  {
    if items != [] {
      var init, last := items[..|items| - 1], items[|items| - 1];
      assert items == init + [last];
      RemovalHolds(init, shown, t);
      assert last in items;
      TrimmedHolds(last, shown, t);
      P.AllTasksSnoc(init, last);
      var trim := (item: P.Item) => Trimmed(item, shown);
      Grouping.FlatSnoc(init, last, trim);
      Grouping.FlatParts(Grouping.Flat(init, trim), Trimmed(last, shown), P.TasksIn);
      hide Trimmed, Grouping.Flat, GivesWay, P.WellPlaced;
    }
  }

  // ----- Every task is shown once ---------------------------------------------------------------------

  function TaskKey(t: P.Task): Key {
    t.key
  }

  function WTaskKey(t: W.WTask): Key {
    t.key
  }

  /** Times a task is shown, in both dashboards together. */
  function TimesShown(rest: seq<P.Item>, workspaces: seq<W.WItem>, key: Key): nat {
    Grouping.WithKey(P.AllTasks(rest), TaskKey, key) + Grouping.WithKey(W.AllWTasks(workspaces), WTaskKey, key)
  }

  ghost predicate DistinctIds(catalog: seq<P.Project>) {
    forall i, j | 0 <= i < j < |catalog| :: catalog[i].id != catalog[j].id
  }

  lemma {:induction false} TimesOfDistinct(ids: seq<string>, id: string)
    requires forall i, j | 0 <= i < j < |ids| :: ids[i] != ids[j]
    ensures Times(ids, id) == Grouping.One(id in ids)
  {
    if ids != [] {
      var init, last := ids[..|ids| - 1], ids[|ids| - 1];
      assert ids == init + [last];
      TimesOfDistinct(init, id);
    }
  }

  /** With distinct catalog ids each listed task is displayed once. */
  lemma ListedDisplaysOnce(w: P.World, merged: map<Key, Observation>, t: P.Task)
    requires DistinctIds(w.catalog)
    ensures P.Displays(w, merged, t) == Grouping.One(P.Listed(w, merged, t))
  {
    if P.Listed(w, merged, t) && t.project != P.UNASSIGNED {
      assert P.InCatalog(w.catalog, t.project) by { P.ListedInCatalog(w, merged, t); }
      var ids := P.CatalogIds(w.catalog);
      var p :| p in w.catalog && p.id == t.project;
      var i :| 0 <= i < |w.catalog| && w.catalog[i] == p;
      assert ids[i] == t.project;
      TimesOfDistinct(ids, t.project);
    }
  }

  /** No two listed tasks share a key. */
  lemma ListedAreDistinct(w: P.World, merged: map<Key, Observation>, t: P.Task, u: P.Task)
    requires P.Keyed(w, merged) && P.Listed(w, merged, t) && P.Listed(w, merged, u) && t.key == u.key
    ensures t == u
  {
    hide P.ActivePlace, P.CompletedPlace;
  }

  lemma BelongingAreDistinct(v: W.Scene, merged: map<Key, Observation>, t: W.WTask, u: W.WTask)
    requires W.KeyedIn(v, merged) && W.Belongs(v, merged, t) && W.Belongs(v, merged, u) && t.key == u.key
    ensures t == u
  {
    if W.ActiveIn(v, merged, t) { assert W.IsObserved(merged, t.key.1) by { hide Classify; ActiveIsObserved(v, merged, t); } }
    if W.ActiveIn(v, merged, u) { assert W.IsObserved(merged, u.key.1) by { hide Classify; ActiveIsObserved(v, merged, u); } }
    hide W.ActiveWorkspace, W.CompletedWorkspace, W.IsObserved;
  }

  lemma ActiveIsObserved(v: W.Scene, merged: map<Key, Observation>, t: W.WTask)
    requires W.KeyedIn(v, merged) && W.ActiveIn(v, merged, t)
    ensures W.IsObserved(merged, t.key.1)
  {
    assert Classify(merged[t.key]) != Ignored;
  }

  lemma BelongingIsNotOwned(v: W.Scene, merged: map<Key, Observation>, t: W.WTask)
    requires W.KeyedIn(v, merged) && W.Belongs(v, merged, t)
    ensures t.key !in v.owned
  {
    hide Classify, W.IsObserved;
  }

  /** What the three builders have produced. */
  ghost predicate Built(w: P.World, v: W.Scene, merged: map<Key, Observation>, items: seq<P.Item>, workspaces: seq<W.WItem>, rest: seq<P.Item>) {
    && P.Keyed(w, merged) && W.KeyedIn(v, merged) && v.threads == w.threads && v.owned == OwnedKeys(items)
    && (forall t :: multiset(P.AllTasks(items))[t] == P.Displays(w, merged, t))
    && (forall item | item in items :: P.WellPlaced(item))
    && (forall t :: multiset(W.AllWTasks(workspaces))[t] <= Grouping.One(W.Belongs(v, merged, t)))
    && (forall t :: multiset(P.AllTasks(rest))[t] == if GivesWay(t, ShownKeys(workspaces)) then 0 else multiset(P.AllTasks(items))[t])
  }

  /** A task of a project is owned by the item that shows it. */
  lemma ProjectTaskIsOwned(items: seq<P.Item>, t: P.Task)
    requires t in P.AllTasks(items) && t.project != P.UNASSIGNED && forall item | item in items :: P.WellPlaced(item)
    ensures t.key in OwnedKeys(items)
  {
    Grouping.FlatHolds(items, P.TasksIn, t);
    var item :| item in items && t in P.TasksIn(item);
    assert Owns(item, t);
  }

  /** Workspaces show a key once or not at all. */
  lemma WorkspaceCount(v: W.Scene, merged: map<Key, Observation>, workspaces: seq<W.WItem>, key: Key)
    requires W.KeyedIn(v, merged)
    requires forall t :: multiset(W.AllWTasks(workspaces))[t] <= Grouping.One(W.Belongs(v, merged, t))
    ensures var n := Grouping.WithKey(W.AllWTasks(workspaces), WTaskKey, key);
      n == Grouping.One(key in ShownKeys(workspaces))
  {
    var all := W.AllWTasks(workspaces);
    Grouping.SomeWithKey(all, WTaskKey, key);
    if key in ShownKeys(workspaces) {
      var t :| t in all && t.key == key;
      forall u | u in all && WTaskKey(u) == key ensures u == t {
        assert multiset(all)[u] > 0 && multiset(all)[t] > 0;
        BelongingAreDistinct(v, merged, u, t);
      }
      Grouping.WithKeyIsCount(all, WTaskKey, key, t);
      assert multiset(all)[t] > 0;
    }
  }

  lemma ShownKeyBelongs(v: W.Scene, merged: map<Key, Observation>, workspaces: seq<W.WItem>, key: Key)
    requires key in ShownKeys(workspaces)
    requires forall t :: multiset(W.AllWTasks(workspaces))[t] <= Grouping.One(W.Belongs(v, merged, t))
    ensures exists t :: W.Belongs(v, merged, t) && t.key == key
  {
    var t :| t in W.AllWTasks(workspaces) && t.key == key;
    assert multiset(W.AllWTasks(workspaces))[t] > 0;
  }

  lemma {:induction false} TimesOfTwo(ids: seq<string>, i: nat, j: nat)
    requires i < j < |ids| && ids[i] == ids[j]
    ensures Times(ids, ids[i]) >= 2
  {
    var init := ids[..|ids| - 1];
    if j < |ids| - 1 { TimesOfTwo(init, i, j); } else { P.TimesOfMember(init, i); }
  }

  /** In both dashboards together a listed task is shown as often as its project displays it; any other key once at most. */
  lemma ShownAsDisplayed(w: P.World, v: W.Scene, merged: map<Key, Observation>, items: seq<P.Item>, workspaces: seq<W.WItem>, rest: seq<P.Item>, key: Key)
    requires Built(w, v, merged, items, workspaces, rest)
    ensures forall t | P.Listed(w, merged, t) && t.key == key :: TimesShown(rest, workspaces, key) == P.Displays(w, merged, t)
    ensures (forall t :: !(P.Listed(w, merged, t) && t.key == key)) ==> TimesShown(rest, workspaces, key) <= 1
  {
    WorkspaceCount(v, merged, workspaces, key);
    hide P.Displays, P.Listed, P.WellPlaced, P.Keyed, W.KeyedIn, W.Belongs, ShownKeys, OwnedKeys, P.AllTasks, W.AllWTasks, Grouping.WithKey;
    var shown := key in ShownKeys(workspaces);
    if t :| P.Listed(w, merged, t) && t.key == key {
      P.DisplayedAtLeastOnce(w, merged, t);
      ListedCount(w, merged, rest, items, workspaces, t);
      if t.project == P.UNASSIGNED {
        UnassignedOnce(w, merged, t);
      } else if shown {
        assert t in P.AllTasks(items) by { assert multiset(P.AllTasks(items))[t] > 0; }
        ProjectTaskIsOwned(items, t);
        ShownKeyBelongs(v, merged, workspaces, key);
        var u :| W.Belongs(v, merged, u) && u.key == key;
        BelongingIsNotOwned(v, merged, u);
      }
      forall u | P.Listed(w, merged, u) && u.key == key ensures u == t { ListedAreDistinct(w, merged, u, t); }
    } else {
      UnlistedCount(w, merged, rest, items, workspaces, key);
    }
  }

  lemma UnassignedOnce(w: P.World, merged: map<Key, Observation>, t: P.Task)
    requires P.Listed(w, merged, t) && t.project == P.UNASSIGNED
    ensures P.Displays(w, merged, t) == 1
  {
  }

  /** With distinct catalog ids every listed task is shown in one place, and no key twice. */
  lemma ShownOnce(w: P.World, v: W.Scene, merged: map<Key, Observation>, items: seq<P.Item>, workspaces: seq<W.WItem>, rest: seq<P.Item>, key: Key)
    requires Built(w, v, merged, items, workspaces, rest) && DistinctIds(w.catalog)
    ensures TimesShown(rest, workspaces, key) <= 1
    ensures (exists t :: P.Listed(w, merged, t) && t.key == key) ==> TimesShown(rest, workspaces, key) == 1
  {
    ShownAsDisplayed(w, v, merged, items, workspaces, rest, key);
    hide P.Listed, P.Displays, Built, TimesShown;
    if t :| P.Listed(w, merged, t) && t.key == key { ListedDisplaysOnce(w, merged, t); }
  }

  lemma ListedCount(w: P.World, merged: map<Key, Observation>, rest: seq<P.Item>, items: seq<P.Item>, workspaces: seq<W.WItem>, t: P.Task)
    requires P.Keyed(w, merged) && P.Listed(w, merged, t)
    requires forall t :: multiset(P.AllTasks(items))[t] == P.Displays(w, merged, t)
    requires forall t :: multiset(P.AllTasks(rest))[t] == if GivesWay(t, ShownKeys(workspaces)) then 0 else multiset(P.AllTasks(items))[t]
    ensures Grouping.WithKey(P.AllTasks(rest), TaskKey, t.key) == if GivesWay(t, ShownKeys(workspaces)) then 0 else P.Displays(w, merged, t)
  {
    var all := P.AllTasks(rest);
    forall u | u in all && TaskKey(u) == t.key ensures u == t {
      assert multiset(all)[u] > 0;
      assert P.Listed(w, merged, u);
      ListedAreDistinct(w, merged, u, t);
    }
    Grouping.WithKeyIsCount(all, TaskKey, t.key, t);
  }

  lemma UnlistedCount(w: P.World, merged: map<Key, Observation>, rest: seq<P.Item>, items: seq<P.Item>, workspaces: seq<W.WItem>, key: Key)
    requires !exists t :: P.Listed(w, merged, t) && t.key == key
    requires forall t :: multiset(P.AllTasks(items))[t] == P.Displays(w, merged, t)
    requires forall t :: multiset(P.AllTasks(rest))[t] == if GivesWay(t, ShownKeys(workspaces)) then 0 else multiset(P.AllTasks(items))[t]
    ensures Grouping.WithKey(P.AllTasks(rest), TaskKey, key) == 0
  {
    var all := P.AllTasks(rest);
    forall u | u in all ensures TaskKey(u) != key {
      assert multiset(all)[u] > 0;
      assert P.Listed(w, merged, u);
    }
    Grouping.NoneWithKey(all, TaskKey, key);
  }

  // ----- The pipeline ---------------------------------------------------------------------------------

  /** An observed task that is to be shown: not ignored, and not a part of another task. */
  predicate IsShownActive(observations: seq<Observation>, threads: Index, key: Key) {
    var merged := MergedAll(observations);
    key in merged && Classify(merged[key]) != Ignored && (merged[key].id in threads ==> !IsChild(threads[merged[key].id]))
  }

  lemma ShownActiveIsListed(w: P.World, observations: seq<Observation>, key: Key)
    requires P.Keyed(w, MergedAll(observations)) && IsShownActive(observations, w.threads, key)
    ensures exists t :: P.Listed(w, MergedAll(observations), t) && t.key == key
  {
    var t := P.ActiveTask(w, MergedAll(observations)[key]);
    assert P.ActiveListed(w, MergedAll(observations), t);
  }

  predicate IsTopLevelObservation(observations: seq<Observation>, threads: Index, o: Observation) {
    o in observations && Classify(o) != Ignored && (o.id in threads ==> !IsChild(threads[o.id]))
  }

  /** The other observations of the task do not merge it away. */
  predicate StaysActive(observations: seq<Observation>, key: Key) {
    var values := ValuesOf(observations, key);
    Hollow(values) ==> exists v | v in values :: v.status == "active"
  }

  /** An observation that is not ignored has its task shown, exactly when merging does not hollow it out. */
  lemma RawIsShown(observations: seq<Observation>, threads: Index, o: Observation)
    requires IsTopLevelObservation(observations, threads, o)
    ensures IsShownActive(observations, threads, KeyOf(o)) <==> StaysActive(observations, KeyOf(o))
  {
    var key := KeyOf(o);
    var values := ValuesOf(observations, key);
    ValuesHold(observations, o);
    ValuesCount(observations, key);
    MergedFacts(values);
    MaxClassFacts(values);
    SummaryMatchesMerge(values);
    assert values[0] in values;
    hide ValuesOf, MaxClass, Merged, IsInternal;
    if Hollow(values) {
      var m := Merged(values);
      SomeText(m.flags);
      SomeText(m.methods);
      hide Hollow;
    }
  }

  lemma {:induction false} ValuesHold(observations: seq<Observation>, o: Observation)
    requires o in observations && Classify(o) != Ignored
    ensures o in ValuesOf(observations, KeyOf(o))
  {
    var init, last := observations[..|observations| - 1], observations[|observations| - 1];
    assert observations == init + [last];
    if o in init { ValuesHold(init, o); }
  }

  /**
   Builds both dashboards and removes their overlap. No task is shown twice, and
   every observed task that is to be shown is shown once.
   */
  method BuildDashboards(catalog: seq<P.Project>, threads: seq<Thread>, projections: map<string, seq<P.ProjectId>>,
                         observations: seq<Observation>, pinned: map<P.ProjectId, bool>, connected: set<string>,
                         norm: string -> string, roots: seq<string>, pinnedWorkspaces: set<W.WorkspaceId>,
                         identity: string -> string, root: string, textOf: W.WorkspaceId -> string, now: int)
    returns (projects: seq<P.Item>, workspaces: seq<W.WItem>)
    ensures DistinctIds(catalog) ==> forall key ::
      && TimesShown(projects, workspaces, key) <= 1
      && (IsShownActive(observations, Latest(threads), key) ==> TimesShown(projects, workspaces, key) == 1)
    ensures DistinctIds(catalog) ==> forall o | IsTopLevelObservation(observations, Latest(threads), o) && StaysActive(observations, KeyOf(o)) ::
      TimesShown(projects, workspaces, KeyOf(o)) == 1
    ensures var w := P.World(catalog, Latest(threads), projections, connected, norm, now);
      && (forall t | P.Listed(w, MergedAll(observations), t) :: TimesShown(projects, workspaces, t.key) == P.Displays(w, MergedAll(observations), t))
      && forall key | (forall t :: !(P.Listed(w, MergedAll(observations), t) && t.key == key)) :: TimesShown(projects, workspaces, key) <= 1
    ensures var w, merged := P.World(catalog, Latest(threads), projections, connected, norm, now), MergedAll(observations);
      && (forall t | t in P.AllTasks(projects) :: P.IsShownObserved(w, merged, t) || P.IsShownThread(w, merged, t))
      && (forall t: P.Task | t.project != P.UNASSIGNED && (P.IsShownObserved(w, merged, t) || P.IsShownThread(w, merged, t)) :: t in P.AllTasks(projects))
  {
    var items := P.BuildProjectDashboard(catalog, threads, projections, observations, pinned, connected, norm, now);
    workspaces := BuildWorkspaceDashboard(threads, roots, observations, items, pinnedWorkspaces, connected, identity, root, textOf, now);
    projects := RemoveOverlap(items, workspaces);
    ghost var w := P.World(catalog, Latest(threads), projections, connected, norm, now);
    ghost var v := SceneOf(threads, roots, identity, root, items, now);
    P.InputsAreKeyed(w, threads, observations);
    KeyedScene(v, threads, observations);
    assert w.catalog == catalog && w.threads == Latest(threads) && v.threads == Latest(threads) && v.owned == OwnedKeys(items);
    hide *;
    PipelineIsBuilt(w, v, MergedAll(observations), items, workspaces, projects, connected);
    forall key { ShownAsDisplayed(w, v, MergedAll(observations), items, workspaces, projects, key); }
    forall t { TasksStay(items, workspaces, projects, t); }
    if DistinctIds(catalog) {
      forall key ensures TimesShown(projects, workspaces, key) <= 1
        && (IsShownActive(observations, Latest(threads), key) ==> TimesShown(projects, workspaces, key) == 1)
      {
        ShownOnce(w, v, MergedAll(observations), items, workspaces, projects, key);
        if IsShownActive(observations, Latest(threads), key) { ShownActiveIsListed(w, observations, key); }
      }
      forall o | IsTopLevelObservation(observations, Latest(threads), o) && StaysActive(observations, KeyOf(o))
        ensures TimesShown(projects, workspaces, KeyOf(o)) == 1
      {
        RawIsShown(observations, Latest(threads), o);
      }
    }
  }

  /** Removal takes only unassigned tasks away. */
  lemma TasksStay(items: seq<P.Item>, workspaces: seq<W.WItem>, rest: seq<P.Item>, t: P.Task)
    requires forall item | item in items :: P.WellPlaced(item)
    requires rest == Grouping.Flat(items, (item: P.Item) => Trimmed(item, ShownKeys(workspaces)))
    ensures t in P.AllTasks(rest) ==> t in P.AllTasks(items)
    ensures t.project != P.UNASSIGNED ==> (t in P.AllTasks(rest) <==> t in P.AllTasks(items))
  {
    RemovalHolds(items, ShownKeys(workspaces), t);
    assert t in P.AllTasks(rest) <==> multiset(P.AllTasks(rest))[t] > 0;
    assert t in P.AllTasks(items) <==> multiset(P.AllTasks(items))[t] > 0;
  }

  lemma PipelineIsBuilt(w: P.World, v: W.Scene, merged: map<Key, Observation>, items: seq<P.Item>, workspaces: seq<W.WItem>, rest: seq<P.Item>,
                        connected: set<string>)
    requires P.Keyed(w, merged) && W.KeyedIn(v, merged) && v.threads == w.threads && v.owned == OwnedKeys(items)
    requires forall t :: multiset(P.AllTasks(items))[t] == P.Displays(w, merged, t)
    requires forall item | item in items :: P.WellPlaced(item)
    requires forall t :: WorkspaceShows(v, merged, connected, workspaces, t)
    requires rest == Grouping.Flat(items, (item: P.Item) => Trimmed(item, ShownKeys(workspaces)))
    ensures Built(w, v, merged, items, workspaces, rest)
  {
    forall t { RemovalHolds(items, ShownKeys(workspaces), t); }
    hide P.Keyed, W.KeyedIn, P.Displays, P.WellPlaced, W.Belongs, GivesWay, ShownKeys, Trimmed, W.Kept, OwnedKeys, Grouping.Flat;
    forall t ensures multiset(W.AllWTasks(workspaces))[t] <= Grouping.One(W.Belongs(v, merged, t)) {
      assert WorkspaceShows(v, merged, connected, workspaces, t);
    }
  }

  /**
   No task is displayed twice, whatever the threads and observations are, exactly when no
   project id of the catalog repeats; the id of the unassigned tasks does not matter.
   */
  lemma CatalogsThatShowOnce(catalog: seq<P.Project>)
    ensures (forall w: P.World, merged, t | w.catalog == catalog && P.Listed(w, merged, t) :: P.Displays(w, merged, t) == 1)
      <==> forall i, j | 0 <= i < j < |catalog| :: catalog[i].id == catalog[j].id ==> catalog[i].id == P.UNASSIGNED
  {
    if i, j :| 0 <= i < j < |catalog| && catalog[i].id == catalog[j].id && catalog[i].id != P.UNASSIGNED {
      DuplicateIdShowsTwice(catalog, i, j);
    } else {
      forall w: P.World, merged, t | w.catalog == catalog && P.Listed(w, merged, t) ensures P.Displays(w, merged, t) == 1 {
        P.DisplayedAtLeastOnce(w, merged, t);
        if t.project != P.UNASSIGNED { TimesAtMostOnce(P.CatalogIds(catalog), t.project); }
      }
    }
  }

  lemma {:induction false} TimesAtMostOnce(ids: seq<string>, id: string)
    requires forall i, j | 0 <= i < j < |ids| :: ids[i] != id || ids[j] != id
    ensures Times(ids, id) <= 1 && (Times(ids, id) == 1 <==> id in ids)
  {
    if ids != [] {
      var init, last := ids[..|ids| - 1], ids[|ids| - 1];
      assert ids == init + [last];
      TimesAtMostOnce(init, id);
      if last == id { assert forall i | 0 <= i < |init| :: init[i] == ids[i] && ids[i] != id; }
    }
  }

  /** A catalog that names a project twice shows the tasks that are bound to it twice. */
  lemma DuplicateIdShowsTwice(catalog: seq<P.Project>, i: nat, j: nat)
    requires i < j < |catalog| && catalog[i].id == catalog[j].id && catalog[i].id != P.UNASSIGNED
    ensures exists w: P.World, t: P.Task :: w.catalog == catalog && P.Listed(w, map[], t) && P.Displays(w, map[], t) >= 2
  {
    var id := catalog[i].id;
    var thread := Thread("t", None, "", false, None, None, 0, 0, Some("log"));
    var w := P.World(catalog, map["t" := thread], map["t" := [id]], {}, (path: string) => path, 0);
    var t := P.CompletedTask(w, thread);
    assert catalog[i] in catalog && P.InCatalog(catalog, id);
    assert P.AssignedProject(w, Some(thread)) == id && P.CompletedPlace(w, thread) == Some(id);
    assert P.CompletedListed(w, map[], t) && t.project == id;
    assert P.CatalogIds(catalog)[i] == P.CatalogIds(catalog)[j] == id;
    TimesOfTwo(P.CatalogIds(catalog), i, j);
    assert P.Listed(w, map[], t);
  }
}

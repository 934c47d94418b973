/**
 The migration of an older identity's data: preferences and directory trees are
 merged into a stage, the stage is swapped in, the preferences are written, and
 any failure before the commit is rolled back.
 */
module IdentityMigration {
  import opened Prelude
  import opened DirectoryMerge

  // ----- Preferences -----------------------------------------------------------------

  datatype Value = Identifiers(ids: seq<string>) | Flag(on: bool) | OtherValue(text: string)

  type Preferences = map<string, Value>

  const MARKER := "didMigrateKSFAssistantIdentityV1"
  const LISTS := {"pinnedProjectIDs", "projectListOrder"}
  const LEGACY_PROJECT := "10项目/Codex Usage Bar/项目记忆卡.md"
  const CURRENT_PROJECT := "10项目/KSFAssistant/项目记忆卡.md"

  /** What the current domain lacks is taken from an older one; project lists must be lists. */
  predicate Takes(current: Preferences, legacy: Preferences) {
    forall key | key in legacy && key !in current && key in LISTS :: legacy[key].Identifiers?
  }

  function Take(current: Preferences, legacy: Preferences): Preferences {
    map key | key in current.Keys + legacy.Keys :: if key in current then current[key] else legacy[key]
  }

  /** The older domains in their order; none when one of them has a list that is no list. */
  function TakeAll(current: Preferences, domains: seq<Preferences>): Option<Preferences>
    decreases |domains|
  {
    if domains == [] then Some(current)
    else if !Takes(current, domains[0]) then None
    else TakeAll(Take(current, domains[0]), domains[1..])
  }

  /** Renames the project, and keeps the new name only at its first place. */
  function Rename(ids: seq<string>): seq<string> {
    if ids == [] then []
    else
      var init, last := Rename(ids[..|ids| - 1]), ids[|ids| - 1];
      var name := if last == LEGACY_PROJECT then CURRENT_PROJECT else last;
      if name == CURRENT_PROJECT && name in init then init else init + [name]
  }

  function RenameIn(preferences: Preferences, key: string): Preferences {
    if key in preferences && preferences[key].Identifiers? && LEGACY_PROJECT in preferences[key].ids
    then preferences[key := Identifiers(Rename(preferences[key].ids))] else preferences
  }

  function Migrated(preferences: Preferences): Preferences {
    RenameIn(RenameIn(preferences, "pinnedProjectIDs"), "projectListOrder")[MARKER := Flag(true)]
  }

  function Others(ids: seq<string>): seq<string> {
    if ids == [] then []
    else
      var last := ids[|ids| - 1];
      Others(ids[..|ids| - 1]) + if last == LEGACY_PROJECT || last == CURRENT_PROJECT then [] else [last]
  }

  predicate IsName(id: string) {
    id == LEGACY_PROJECT || id == CURRENT_PROJECT
  }

  lemma RenameSnoc(init: seq<string>, last: string)
    ensures Rename(init + [last])
      == if !IsName(last) then Rename(init) + [last] else if CURRENT_PROJECT in Rename(init) then Rename(init) else Rename(init) + [CURRENT_PROJECT]
  {
    assert (init + [last])[..|init|] == init;
  }

  lemma OthersSnoc(init: seq<string>, last: string)
    ensures Others(init + [last]) == Others(init) + if IsName(last) then [] else [last]
  {
    assert (init + [last])[..|init|] == init;
  }

  lemma TimesSnoc(init: seq<string>, last: string, x: string)
    ensures Times(init + [last], x) == Times(init, x) + if last == x then 1 else 0
  {
    assert (init + [last])[..|init|] == init;
  }

  lemma NamesDiffer()
    ensures LEGACY_PROJECT != CURRENT_PROJECT
  {
    assert LEGACY_PROJECT[5] == 'C' && CURRENT_PROJECT[5] == 'K';
  }

  /** The old name is gone, the new one is there once, and all else keeps its order. */
  lemma {:induction false} RenameMeans(ids: seq<string>)
    ensures var result := Rename(ids);
      && LEGACY_PROJECT !in result && Others(result) == Others(ids)
      && (CURRENT_PROJECT in result <==> LEGACY_PROJECT in ids || CURRENT_PROJECT in ids)
      && Times(result, CURRENT_PROJECT) == if CURRENT_PROJECT in result then 1 else 0
  {
    if ids != [] {
      var init, last := ids[..|ids| - 1], ids[|ids| - 1];
      assert ids == init + [last];
      NamesDiffer();
      RenameMeans(init);
      RenameSnoc(init, last);
      OthersSnoc(init, last);
      var name := if IsName(last) then CURRENT_PROJECT else last;
      OthersSnoc(Rename(init), name);
      TimesSnoc(Rename(init), name, CURRENT_PROJECT);
      assert Others(init) + [] == Others(init);
      hide Rename, Others, Times, LEGACY_PROJECT, CURRENT_PROJECT;
    }
  }

  /** What the user has now is never overwritten, and of the older domains the first wins. */
  lemma {:induction false} TakeAllKeeps(current: Preferences, domains: seq<Preferences>, key: string)
    ensures var result := TakeAll(current, domains);
      result.Some? ==>
        && (key in current ==> key in result.value && result.value[key] == current[key])
        && (key in result.value && key !in current ==>
              exists i | 0 <= i < |domains| :: key in domains[i] && domains[i][key] == result.value[key] && forall j | 0 <= j < i :: key !in domains[j])
        && (key !in result.value ==> forall i | 0 <= i < |domains| :: key !in domains[i])
    decreases |domains|
  {
    if domains != [] && Takes(current, domains[0]) {
      var taken := Take(current, domains[0]);
      TakeAllKeeps(taken, domains[1..], key);
      var result := TakeAll(taken, domains[1..]);
      if result.Some? && key in result.value && key !in current {
        if key in domains[0] {
          assert domains[0][key] == result.value[key];
        } else {
          var i :| 0 <= i < |domains[1..]| && key in domains[1..][i] && domains[1..][i][key] == result.value[key]
            && forall j | 0 <= j < i :: key !in domains[1..][j];
          assert key in domains[i + 1] && forall j | 0 <= j < i + 1 :: key !in domains[j] by {
            forall j | 0 <= j < i + 1 ensures key !in domains[j] { assert j > 0 ==> domains[j] == domains[1..][j - 1]; }
          }
        }
      }
      if result.Some? && key !in result.value {
        forall i | 0 <= i < |domains| ensures key !in domains[i] { assert i > 0 ==> domains[i] == domains[1..][i - 1]; }
      }
    }
  }

  // ----- What a migration writes -------------------------------------------------------------------

  /** The value that a key is taken with: the user's own, or else that of the first older domain that has it. */
  ghost predicate IsTaken(current: Preferences, domains: seq<Preferences>, key: string, value: Value) {
    if key in current then value == current[key]
    else exists i | 0 <= i < |domains| :: key in domains[i] && value == domains[i][key] && forall j | 0 <= j < i :: key !in domains[j]
  }

  /** The new name stands once, where the first of both names stood, and all others stay in order. */
  predicate IsRenamed(ids: seq<string>, result: seq<string>) {
    exists k | 0 <= k < |ids| :: IsFirstName(ids, k) && result == ids[..k] + [CURRENT_PROJECT] + Others(ids[k + 1..])
  }

  predicate IsFirstName(ids: seq<string>, k: nat) {
    && k < |ids| && IsName(ids[k])
    && forall j | 0 <= j < k :: !IsName(ids[j])
  }

  /** A list that has the old name is renamed; all else stays as it is. */
  predicate IsKept(key: string, before: Value, after: Value) {
    if key in LISTS && before.Identifiers? && LEGACY_PROJECT in before.ids
    then after.Identifiers? && IsRenamed(before.ids, after.ids) && LEGACY_PROJECT !in after.ids
    else after == before
  }

  /** Nothing but the marker is added, and every preference is the one taken, renamed where it is a list. */
  ghost predicate IsSettled(current: Preferences, domains: seq<Preferences>, written: Preferences) {
    && (forall key :: key in written <==> key == MARKER || key in current || exists i | 0 <= i < |domains| :: key in domains[i])
    && written[MARKER] == Flag(true)
    && forall key | key in written && key != MARKER :: IsSettledAt(current, domains, key, written)
  }

  ghost predicate IsSettledAt(current: Preferences, domains: seq<Preferences>, key: string, written: Preferences) {
    key in written && exists value :: IsTaken(current, domains, key, value) && IsKept(key, value, written[key])
  }

  lemma {:induction false} RenameNothing(ids: seq<string>)
    requires forall id | id in ids :: !IsName(id)
    ensures Rename(ids) == ids
  {
    if ids != [] {
      var init, last := ids[..|ids| - 1], ids[|ids| - 1];
      assert ids == init + [last] && last in ids;
      RenameNothing(init);
      RenameSnoc(init, last);
      hide Rename, IsName;
    }
  }

  lemma RenameLast(init: seq<string>, last: string)
    requires IsName(last) && forall id | id in init :: !IsName(id)
    ensures Rename(init + [last]) == init + [CURRENT_PROJECT]
  {
    RenameNothing(init);
    RenameSnoc(init, last);
    assert IsName(CURRENT_PROJECT);
    hide Rename, IsName, CURRENT_PROJECT;
  }

  lemma {:induction false} RenameSplit(before: seq<string>, name: string, after: seq<string>)
    requires IsName(name) && forall id | id in before :: !IsName(id)
    ensures Rename(before + [name] + after) == before + [CURRENT_PROJECT] + Others(after)
  {
    if after == [] {
      assert before + [name] + after == before + [name];
      assert before + [CURRENT_PROJECT] + Others(after) == before + [CURRENT_PROJECT];
      RenameLast(before, name);
    } else {
      var init, last := after[..|after| - 1], after[|after| - 1];
      assert after == init + [last] && before + [name] + after == before + [name] + init + [last];
      RenameSplit(before, name, init);
      OthersSnoc(init, last);
      RenameSnoc(before + [name] + init, last);
      hide Rename, Others, IsName, CURRENT_PROJECT;
      var renamed := before + [CURRENT_PROJECT] + Others(init);
      assert renamed[|before|] == CURRENT_PROJECT;
      Assoc(before + [CURRENT_PROJECT], Others(init), [last]);
      assert Others(init) + [] == Others(init);
    }
  }

  lemma RenameIsFirst(ids: seq<string>, k: nat)
    requires IsFirstName(ids, k)
    ensures Rename(ids) == ids[..k] + [CURRENT_PROJECT] + Others(ids[k + 1..])
  {
    assert ids == ids[..k] + [ids[k]] + ids[k + 1..];
    RenameSplit(ids[..k], ids[k], ids[k + 1..]);
    hide Rename, Others, IsName, CURRENT_PROJECT;
  }

  lemma FirstNameExists(ids: seq<string>) returns (k: nat)
    requires LEGACY_PROJECT in ids
    ensures IsFirstName(ids, k)
  {
    var there: nat :| there < |ids| && ids[there] == LEGACY_PROJECT;
    k := 0;
    while !IsName(ids[k])
      invariant k <= there && forall j | 0 <= j < k :: !IsName(ids[j])
      decreases there - k
    {
      k := k + 1;
    }
  }

  lemma RenamedIsKept(ids: seq<string>)
    requires LEGACY_PROJECT in ids
    ensures IsRenamed(ids, Rename(ids)) && LEGACY_PROJECT !in Rename(ids)
  {
    var k := FirstNameExists(ids);
    RenameIsFirst(ids, k);
    RenameMeans(ids);
  }

  lemma MigratedKeeps(taken: Preferences, key: string)
    requires key in taken && key != MARKER
    ensures key in Migrated(taken) && IsKept(key, taken[key], Migrated(taken)[key])
  {
    if taken[key].Identifiers? && LEGACY_PROJECT in taken[key].ids { RenamedIsKept(taken[key].ids); }
    hide IsRenamed, Rename;
    assert |"pinnedProjectIDs"| != |"projectListOrder"| || "pinnedProjectIDs"[1] != "projectListOrder"[1];
  }

  lemma MigratedKeys(taken: Preferences)
    ensures Migrated(taken).Keys == taken.Keys + {MARKER} && Migrated(taken)[MARKER] == Flag(true)
  {
  }

  lemma TakenIsTaken(current: Preferences, domains: seq<Preferences>, key: string)
    requires TakeAll(current, domains).Some? && key in TakeAll(current, domains).value
    ensures IsTaken(current, domains, key, TakeAll(current, domains).value[key])
  {
    TakeAllKeeps(current, domains, key);
    hide TakeAll;
  }

  lemma MigratedIsSettled(current: Preferences, domains: seq<Preferences>)
    requires TakeAll(current, domains).Some?
    ensures IsSettled(current, domains, Migrated(TakeAll(current, domains).value))
  {
    var taken := TakeAll(current, domains).value;
    MigratedKeys(taken);
    TakenKeys(current, domains);
    hide Migrated, TakeAll, IsSettledAt, MARKER;
    forall key | key in taken && key != MARKER ensures IsSettledAt(current, domains, key, Migrated(taken)) {
      PreferenceIsSettled(current, domains, key);
    }
  }

  lemma PreferenceIsSettled(current: Preferences, domains: seq<Preferences>, key: string)
    requires TakeAll(current, domains).Some? && key in TakeAll(current, domains).value && key != MARKER
    ensures IsSettledAt(current, domains, key, Migrated(TakeAll(current, domains).value))
  {
    TakenIsTaken(current, domains, key);
    MigratedKeeps(TakeAll(current, domains).value, key);
    hide IsTaken, IsKept, Migrated, TakeAll, MARKER;
  }

  lemma {:induction false} TakenKeys(current: Preferences, domains: seq<Preferences>)
    requires TakeAll(current, domains).Some?
    ensures forall key :: key in TakeAll(current, domains).value <==> key in current || exists i | 0 <= i < |domains| :: key in domains[i]
    decreases |domains|
  {
    if domains != [] {
      TakenKeys(Take(current, domains[0]), domains[1..]);
      assert forall i | 0 < i < |domains| :: domains[i] == domains[1..][i - 1];
      assert forall i | 0 <= i < |domains| - 1 :: domains[1..][i] == domains[i + 1];
    }
  }

  /** Taking fails exactly when an older domain would be the first with one of the lists, and has no list there. */
  lemma {:induction false} TakingFails(current: Preferences, domains: seq<Preferences>)
    ensures TakeAll(current, domains).None? <==>
      exists i, key | 0 <= i < |domains| && key in LISTS :: IsFirstWith(current, domains, i, key) && !domains[i][key].Identifiers?
    decreases |domains|
  {
    if domains != [] {
      var taken, tail := Take(current, domains[0]), domains[1..];
      TakingFails(taken, tail);
      forall i, key | 0 <= i < |tail|
        ensures Takes(current, domains[0]) ==> (IsFirstWith(current, domains, i + 1, key) <==> IsFirstWith(taken, tail, i, key))
      {
        assert forall j | 0 <= j < |tail| :: tail[j] == domains[j + 1];
        assert forall j | 0 < j < |domains| :: domains[j] == tail[j - 1];
      }
      if Takes(current, domains[0]) {
        if i, key :| 0 <= i < |domains| && key in LISTS && IsFirstWith(current, domains, i, key) && !domains[i][key].Identifiers? {
          assert i > 0;
          assert IsFirstWith(current, domains, (i - 1) + 1, key) && tail[i - 1] == domains[i];
        }
        if i, key :| 0 <= i < |tail| && key in LISTS && IsFirstWith(taken, tail, i, key) && !tail[i][key].Identifiers? {
          assert IsFirstWith(current, domains, i + 1, key) && tail[i] == domains[i + 1];
        }
      } else {
        var key :| key in domains[0] && key !in current && key in LISTS && !domains[0][key].Identifiers?;
        assert IsFirstWith(current, domains, 0, key);
      }
    }
  }

  predicate IsFirstWith(current: Preferences, domains: seq<Preferences>, i: nat, key: string) {
    i < |domains| && key !in current && key in domains[i] && forall j | 0 <= j < i :: key !in domains[j]
  }

  // ----- Trees ---------------------------------------------------------------------------------

  /** The stage after the older trees, in their order. */
  function Imported(stage: Node, trees: seq<Option<Node>>): Node {
    if trees == [] then stage
    else
      var before := Imported(stage, trees[..|trees| - 1]);
      match trees[|trees| - 1]
      case None => before
      case Some(tree) => Union(before, tree)
  }

  predicate AllAdmissible(stage: Node, trees: seq<Option<Node>>, check: Check) {
    trees == []
    || (AllAdmissible(stage, trees[..|trees| - 1], check)
        && (trees[|trees| - 1].Some? ==>
              trees[|trees| - 1].value.Dir? && Admissible(Imported(stage, trees[..|trees| - 1]), trees[|trees| - 1].value, check)))
  }

  function StageOf(current: Option<Node>): Node {
    current.GetOr(EMPTY)
  }

  /** The directory after a migration: the union, or what it was when nothing was added. */
  function Outcome(current: Option<Node>, trees: seq<Option<Node>>): Option<Node> {
    var union := Imported(StageOf(current), trees);
    if union == StageOf(current) then current else Some(union)
  }

  /** Nothing, or a directory tree without links and special files. */
  predicate IsPlain(current: Option<Node>) {
    current.Some? ==> current.value.Dir? && Admissible(EMPTY, current.value, (name, content) => true)
  }

  /** Without an injected failure a migration succeeds exactly on such data. */
  predicate Possible(current: Option<Node>, trees: seq<Option<Node>>, check: Check, preferences: Preferences, domains: seq<Preferences>) {
    && TakeAll(preferences, domains).Some?
    && IsPlain(current)
    && AllAdmissible(StageOf(current), trees, check)
  }

  // ----- The transaction -----------------------------------------------------------------------------

  datatype Faults = Faults(lock: bool, create: bool, files: Luck, publish: bool, synchronize: bool,
                           restoreFiles: bool, restorePreferences: bool, cleanup: bool)

  const NO_FAULTS := Faults(false, false, None, false, false, false, false, false)

  datatype Result = Done | AlreadyDone | Failed(recovered: bool) | CommittedUnclean

  class Host {
    var current: Option<Node>
    var stage: Option<Node>
    var preferences: Option<Preferences>

    constructor (current: Option<Node>, preferences: Option<Preferences>)
      ensures this.current == current && this.preferences == preferences && stage == None
    {
      this.current, this.preferences, stage := current, preferences, None;
    }

    /** Copies the current tree and the older ones into the stage. */
    method FillStage(trees: seq<Option<Node>>, check: Check, luck: Luck) returns (ok: bool, changed: bool)
      requires stage == Some(EMPTY)
      modifies this`stage
      ensures stage.Some?
      ensures ok ==> stage == Some(Imported(StageOf(current), trees)) && changed == (stage.value != StageOf(current))
      ensures ok ==> IsPlain(current) && AllAdmissible(StageOf(current), trees, check)
      ensures luck.None? && IsPlain(current) && AllAdmissible(StageOf(current), trees, check) ==> ok
    {
      ok, changed := true, false;
      var rest := luck;
      var result := EMPTY;
      if current.Some? {
        if !current.value.Dir? { return false, false; }
        var ignored;
        ok, result, ignored, rest := MergeDirectory(current.value, EMPTY, (name, content) => true, rest);
        stage := Some(result);
        if !ok { return; }
        CopyIsWhole(current.value);
      }
      assert trees[..0] == [];
      for i := 0 to |trees|
        invariant ok && stage == Some(result) && result == Imported(StageOf(current), trees[..i]) && result.Dir?
        invariant AllAdmissible(StageOf(current), trees[..i], check)
        invariant changed == (result != StageOf(current))
        invariant luck.None? ==> rest.None?
      {
        assert trees[..i + 1][..i] == trees[..i];
        AdmissiblePrefix(StageOf(current), trees, check, i + 1);
        if trees[i].None? { continue; }
        if !trees[i].value.Dir? { ok := false; return; }
        ghost var before := result;
        var imported;
        AddsMeansChange(result, trees[i].value);
        GrowsOnly(StageOf(current), trees[..i], trees[i].value);
        ok, result, imported, rest := MergeDirectory(trees[i].value, result, check, rest);
        stage := Some(result);
        if !ok { return; }
        changed := changed || imported;
      }
      assert trees[..|trees|] == trees;
    }

    /** Puts back what the attempt had changed, as far as the system lets it. */
    method Recover(original: Option<Preferences>, hadCurrent: bool, staged: bool, published: bool, written: bool, faults: Faults)
      returns (recovered: bool)
      requires published ==> current.Some? && (hadCurrent <==> stage.Some?)
      requires !published ==> (staged <==> stage.Some?)
      modifies this
      ensures written ==> preferences == original
      ensures !written ==> preferences == old(preferences)
      ensures published && !faults.restoreFiles ==> current == old(stage)
      ensures published && faults.restoreFiles ==> current == old(current) && stage == old(stage)
      ensures !published ==> current == old(current)
      ensures !(published && faults.restoreFiles) && !faults.cleanup ==> stage == None
      ensures !faults.restorePreferences && !faults.restoreFiles && !faults.cleanup ==> recovered
      ensures recovered ==> !(published && faults.restoreFiles) && stage == None
    {
      recovered := true;
      var leftover := staged;
      if written {
        preferences := original;
        if faults.restorePreferences { recovered := false; }
      }
      if published {
        if faults.restoreFiles {
          recovered, leftover := false, false;
        } else {
          current, stage := stage, current;
          leftover := true;
        }
      }
      if leftover {
        if faults.cleanup { recovered := false; } else { stage := None; }
      }
    }

    /**
     The whole migration. Either everything is committed, or a failure before the
     commit leaves directory and preferences as they were.
     */
    method MigrateIdentity(domains: seq<Preferences>, trees: seq<Option<Node>>, check: Check, faults: Faults) returns (result: Result)
      requires stage == None
      modifies this
      ensures result == AlreadyDone ==> current == old(current) && preferences == old(preferences) && stage == None
      ensures result.Done? || result.CommittedUnclean? ==>
        && Possible(old(current), trees, check, old(preferences).GetOr(map[]), domains)
        && current == Outcome(old(current), trees)
        && preferences == Some(Migrated(TakeAll(old(preferences).GetOr(map[]), domains).value))
        && IsSettled(old(preferences).GetOr(map[]), domains, preferences.value)
        && (result.Done? ==> stage == None)
      ensures result.Failed? ==> preferences == old(preferences)
      ensures result.Failed? ==> current == old(current) || (faults.restoreFiles && stage == old(current))
      ensures result == Failed(true) ==> current == old(current) && stage == None
      ensures !faults.restoreFiles && !faults.restorePreferences && !faults.cleanup ==> result != Failed(false) && result != CommittedUnclean
      ensures faults == NO_FAULTS && !IsMarked(old(preferences)) ==>
        (result.Done? <==> Possible(old(current), trees, check, old(preferences).GetOr(map[]), domains))
      ensures result.AlreadyDone? <==> IsMarked(old(preferences)) && !faults.lock
      ensures result.Done? || result.CommittedUnclean? ==> IsMarked(preferences)
    {
      var original := preferences;
      hide Migrated;
      MigratedIsMarked(TakeAll(preferences.GetOr(map[]), domains).GetOr(map[]));
      if TakeAll(preferences.GetOr(map[]), domains).Some? { MigratedIsSettled(preferences.GetOr(map[]), domains); }
      hide IsSettled;
      if faults.lock { return Failed(true); }
      if IsMarked(original) { return AlreadyDone; }
      var taken := CollectPreferences(original.GetOr(map[]), domains);
      if taken.None? { return Failed(true); }
      var hadCurrent := current.Some?;
      if faults.create { return Failed(true); }
      stage := Some(EMPTY);
      var ok, changed := FillStage(trees, check, faults.files);
      if !ok {
        var recovered := Recover(original, hadCurrent, true, false, false, faults);
        return Failed(recovered);
      }
      var staged, published := true, false;
      if changed {
        if faults.publish {
          var recovered := Recover(original, hadCurrent, true, false, false, faults);
          return Failed(recovered);
        }
        current, stage := stage, current;
        published, staged := true, hadCurrent;
      }
      preferences := Some(Migrated(taken.value));
      if faults.synchronize {
        var recovered := Recover(original, hadCurrent, staged, published, true, faults);
        return Failed(recovered);
      }
      if staged {
        if faults.cleanup { return CommittedUnclean; }
        stage := None;
      }
      return Done;
    }
  }

  predicate IsMarked(preferences: Option<Preferences>) {
    preferences.Some? && MARKER in preferences.value && preferences.value[MARKER] == Flag(true)
  }

  /** A migration that was committed is not done again. */
  lemma MigratedIsMarked(preferences: Preferences)
    ensures IsMarked(Some(Migrated(preferences)))
  {
  }

  method CollectPreferences(current: Preferences, domains: seq<Preferences>) returns (preferences: Option<Preferences>)
    ensures preferences == TakeAll(current, domains)
  {
    var taken := current;
    assert domains[0..] == domains;
    for i := 0 to |domains|
      invariant TakeAll(taken, domains[i..]) == TakeAll(current, domains)
    {
      assert domains[i..][0] == domains[i] && domains[i..][1..] == domains[i + 1..];
      var ok;
      ok, taken := TakeDomain(taken, domains[i]);
      if !ok { return None; }
    }
    assert domains[|domains|..] == [];
    return Some(taken);
  }

  /** One older domain, its keys in any order. */
  method TakeDomain(current: Preferences, legacy: Preferences) returns (ok: bool, preferences: Preferences)
    ensures ok <==> Takes(current, legacy)
    ensures preferences == if ok then Take(current, legacy) else current
  {
    preferences := current;
    var left := legacy.Keys;
    while left != {}
      invariant left <= legacy.Keys
      invariant preferences == map key | key in current.Keys + (legacy.Keys - left) :: if key in current then current[key] else legacy[key]
      invariant forall key | key in legacy.Keys - left && key !in current && key in LISTS :: legacy[key].Identifiers?
      decreases left
    {
      var key :| key in left;
      left := left - {key};
      if key in preferences { continue; }
      if key in LISTS && !legacy[key].Identifiers? { return false, current; }
      preferences := preferences[key := legacy[key]];
    }
    ok := true;
  }

  lemma {:induction false} AdmissiblePrefix(stage: Node, trees: seq<Option<Node>>, check: Check, n: nat)
    requires n <= |trees|
    ensures AllAdmissible(stage, trees, check) ==> AllAdmissible(stage, trees[..n], check)
    decreases |trees|
  {
    if n == |trees| {
      assert trees[..n] == trees;
    } else {
      var init := trees[..|trees| - 1];
      assert init[..n] == trees[..n];
      AdmissiblePrefix(stage, init, check, n);
    }
  }

  /** Once something was added, the union stays different from where it began. */
  lemma GrowsOnly(stage: Node, trees: seq<Option<Node>>, tree: Node)
    ensures Union(Imported(stage, trees), tree) == stage ==> Imported(stage, trees) == stage
  {
    AbsorbsAll(stage, trees);
    Absorbed(Imported(stage, trees), tree);
    if Union(Imported(stage, trees), tree) == stage {
      Antisymmetric(stage, Imported(stage, trees));
    }
  }

  /** The right tree holds all of the left one. */
  predicate Within(a: Node, b: Node)
    decreases a
  {
    if a.Dir? && b.Dir? then forall name | name in a.entries :: name in b.entries && Within(a.entries[name], b.entries[name])
    else a == b
  }

  lemma {:induction false} WithinSelf(a: Node)
    ensures Within(a, a)
    decreases a
  {
    if a.Dir? { forall name | name in a.entries ensures Within(a.entries[name], a.entries[name]) { WithinSelf(a.entries[name]); } }
  }

  lemma {:induction false} Absorbed(a: Node, b: Node)
    ensures Within(a, Union(a, b))
    decreases a
  {
    if a.Dir? && b.Dir? {
      forall name | name in a.entries ensures Within(a.entries[name], Union(a, b).entries[name]) {
        if name in b.entries { Absorbed(a.entries[name], b.entries[name]); } else { WithinSelf(a.entries[name]); }
      }
    } else {
      WithinSelf(a);
    }
  }

  lemma {:induction false} WithinChains(a: Node, b: Node, c: Node)
    requires Within(a, b) && Within(b, c)
    ensures Within(a, c)
    decreases a
  {
    if a.Dir? && c.Dir? {
      forall name | name in a.entries ensures name in c.entries && Within(a.entries[name], c.entries[name]) {
        WithinChains(a.entries[name], b.entries[name], c.entries[name]);
      }
    }
  }

  lemma {:induction false} Antisymmetric(a: Node, b: Node)
    requires Within(a, b) && Within(b, a)
    ensures a == b
    decreases a
  {
    if a.Dir? && b.Dir? {
      forall name | name in a.entries ensures name in b.entries && a.entries[name] == b.entries[name] {
        Antisymmetric(a.entries[name], b.entries[name]);
      }
      assert a.entries.Keys == b.entries.Keys;
      assert a.entries == b.entries;
    }
  }

  /** No file of the starting tree is lost by importing. */
  lemma {:induction false} AbsorbsAll(stage: Node, trees: seq<Option<Node>>)
    ensures Within(stage, Imported(stage, trees))
  {
    if trees == [] {
      WithinSelf(stage);
    } else {
      var init := trees[..|trees| - 1];
      AbsorbsAll(stage, init);
      if trees[|trees| - 1].Some? {
        Absorbed(Imported(stage, init), trees[|trees| - 1].value);
        WithinChains(stage, Imported(stage, init), Union(Imported(stage, init), trees[|trees| - 1].value));
      }
    }
  }
}

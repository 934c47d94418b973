/**
 The recursive merge of one directory tree into another. What is there already
 stays; what is missing is copied. Links and special files are refused, and the
 two known cache files must parse when they are imported.
 */
module DirectoryMerge {
  import opened Prelude

  type Name = string

  datatype Node = Dir(entries: map<Name, Node>) | File(content: string) | Special

  const EMPTY := Dir(map[])

  /** Whether a file of this name and content may be imported. */
  type Check = (Name, string) -> bool

  // ----- The union of two trees ------------------------------------------------------

  /** The left tree, with what only the right one has. */
  function Union(a: Node, b: Node): Node
    decreases b
  {
    if a.Dir? && b.Dir? then
      Dir(map name | name in a.entries.Keys + b.entries.Keys ::
        if name !in b.entries then a.entries[name]
        else if name !in a.entries then b.entries[name]
        else Union(a.entries[name], b.entries[name]))
    else a
  }

  /** Whether the right tree has anything to add. */
  predicate Adds(a: Node, b: Node)
    decreases b
  {
    a.Dir? && b.Dir?
    && exists name | name in b.entries :: name !in a.entries || Adds(a.entries[name], b.entries[name])
  }

  /** A node that may be copied whole. */
  predicate Importable(name: Name, node: Node, check: Check)
    decreases node
  {
    match node
    case Dir(entries) => forall child | child in entries :: Importable(child, entries[child], check)
    case File(content) => check(name, content)
    case Special => false
  }

  /** Only what is missing on the left is looked at. */
  predicate Admissible(a: Node, b: Node, check: Check)
    decreases b
  {
    a.Dir? && b.Dir? ==>
      forall name | name in b.entries ::
        if name in a.entries then Admissible(a.entries[name], b.entries[name], check) else Importable(name, b.entries[name], check)
  }

  // ----- What the union holds ------------------------------------------------------------

  type Path = seq<Name>

  function At(tree: Node, path: Path): Option<Node>
    decreases |path|
  {
    if path == [] then Some(tree)
    else if tree.Dir? && path[0] in tree.entries then At(tree.entries[path[0]], path[1..])
    else None
  }

  datatype Entry = Nothing | Directory | Regular(content: string) | Link

  function EntryAt(tree: Node, path: Path): Entry {
    match At(tree, path)
    case None => Nothing
    case Some(Dir(_)) => Directory
    case Some(File(content)) => Regular(content)
    case Some(Special) => Link
  }

  /** Something on the way to this path is no directory. */
  predicate Blocked(tree: Node, path: Path)
    decreases |path|
  {
    path != [] && (!tree.Dir? || (path[0] in tree.entries && Blocked(tree.entries[path[0]], path[1..])))
  }

  /** Every path of the left tree is kept, and the right one fills the gaps that are not blocked. */
  lemma {:induction false} UnionIsLeftBiased(a: Node, b: Node, path: Path)
    ensures EntryAt(Union(a, b), path)
      == if EntryAt(a, path) != Nothing then EntryAt(a, path)
         else if Blocked(a, path) then Nothing
         else EntryAt(b, path)
    decreases |path|
  {
    if path != [] && a.Dir? && b.Dir? && path[0] in a.entries && path[0] in b.entries {
      UnionIsLeftBiased(a.entries[path[0]], b.entries[path[0]], path[1..]);
    } else if path != [] && a.Dir? && b.Dir? && path[0] in a.entries {
      BlockedOrNothing(a.entries[path[0]], path[1..]);
    } else if path != [] && a.Dir? && !b.Dir? && path[0] in a.entries {
      BlockedOrNothing(a.entries[path[0]], path[1..]);
    }
  }

  /** What stands at this path below a node of this name may be copied. */
  predicate MayCopy(name: Name, node: Node, path: Path, check: Check) {
    match EntryAt(node, path)
    case Link => false
    case Regular(content) => check(if path == [] then name else path[|path| - 1], content)
    case _ => true
  }

  lemma MayCopyBelow(name: Name, node: Node, child: Name, path: Path, check: Check)
    requires node.Dir? && child in node.entries
    ensures MayCopy(name, node, [child] + path, check) <==> MayCopy(child, node.entries[child], path, check)
  {
    assert ([child] + path)[1..] == path;
  }

  /** A node is copied whole exactly when everything in it may be copied. */
  lemma {:induction false} ImportableMeans(name: Name, node: Node, check: Check)
    ensures Importable(name, node, check) <==> forall path: Path :: MayCopy(name, node, path, check)
    decreases node
  {
    match node
    case Dir(entries) =>
      forall child | child in entries ensures Importable(child, entries[child], check) <==> forall path: Path :: MayCopy(child, entries[child], path, check) {
        ImportableMeans(child, entries[child], check);
      }
      forall child, path: Path | child in entries
        ensures MayCopy(name, node, [child] + path, check) <==> MayCopy(child, entries[child], path, check)
      {
        MayCopyBelow(name, node, child, path, check);
      }
      forall path: Path | Importable(name, node, check) ensures MayCopy(name, node, path, check) {
        if path != [] && path[0] in entries { assert path == [path[0]] + path[1..]; }
      }
      hide MayCopy;
    case File(content) => assert forall path: Path :: MayCopy(name, node, path, check) <==> (path == [] ==> check(name, content));
      assert MayCopy(name, node, [], check) <==> check(name, content);
    case Special => assert !MayCopy(name, node, [], check);
  }

  /** A path that the left tree lacks and does not block. */
  predicate IsMissing(a: Node, path: Path) {
    path != [] && EntryAt(a, path) == Nothing && !Blocked(a, path)
  }

  lemma MissingBelow(a: Node, b: Node, name: Name, path: Path, check: Check)
    requires a.Dir? && b.Dir? && name in b.entries
    ensures name in a.entries && path != [] ==>
      (IsMissing(a, [name] + path) <==> IsMissing(a.entries[name], path))
      && (MayCopy("", b, [name] + path, check) <==> MayCopy("", b.entries[name], path, check))
    ensures name !in a.entries ==> IsMissing(a, [name] + path) && (MayCopy("", b, [name] + path, check) <==> MayCopy(name, b.entries[name], path, check))
  {
    assert ([name] + path)[1..] == path;
  }

  lemma NamedIsThere(a: Node, name: Name)
    requires a.Dir? && name in a.entries
    ensures !IsMissing(a, [name] + [])
  {
    assert ([name] + [])[1..] == [];
    assert At(a.entries[name], []) == Some(a.entries[name]);
  }

  /** Two trees are merged exactly when all that is missing on the left may be copied from the right. */
  lemma {:induction false} AdmissibleMeans(a: Node, b: Node, check: Check)
    ensures Admissible(a, b, check) <==> forall path: Path | IsMissing(a, path) :: MayCopy("", b, path, check)
    decreases b
  {
    if a.Dir? && b.Dir? {
      forall name | name in b.entries
        ensures NameAdmissible(a, b, name, check) <==> forall path: Path | IsMissing(a, [name] + path) :: MayCopy("", b, [name] + path, check)
      {
        forall path: Path { MissingBelow(a, b, name, path, check); }
        if name in a.entries {
          AdmissibleMeans(a.entries[name], b.entries[name], check);
          NamedIsThere(a, name);
        } else {
          ImportableMeans(name, b.entries[name], check);
        }
        hide MayCopy, IsMissing, Admissible, Importable;
      }
      Finished(a, b, check);
      forall path: Path | IsMissing(a, path) ensures path[0] in b.entries || MayCopy("", b, path, check) { }
      hide MayCopy, IsMissing, NameAdmissible, Admissible;
      assert forall path: Path | path != [] :: path == [path[0]] + path[1..];
    }
  }

  lemma BlockedOrNothing(tree: Node, path: Path)
    ensures EntryAt(tree, path) != Nothing ==> !Blocked(tree, path)
  {
    if path != [] && tree.Dir? && path[0] in tree.entries { BlockedOrNothing(tree.entries[path[0]], path[1..]); }
  }

  /** A merge reports a change exactly when the union is not the left tree. */
  lemma {:induction false} AddsMeansChange(a: Node, b: Node)
    ensures Adds(a, b) <==> Union(a, b) != a
    decreases b
  {
    if a.Dir? && b.Dir? {
      forall name | name in a.entries && name in b.entries
        ensures Adds(a.entries[name], b.entries[name]) <==> Union(a.entries[name], b.entries[name]) != a.entries[name]
      {
        AddsMeansChange(a.entries[name], b.entries[name]);
      }
      var u := Union(a, b).entries;
      if Adds(a, b) {
        var name :| name in b.entries && (name !in a.entries || Adds(a.entries[name], b.entries[name]));
        if name !in a.entries { assert name in u; } else { assert u[name] != a.entries[name]; }
      } else {
        assert u == a.entries;
      }
    }
  }

  /** Importing the same tree again adds nothing. */
  lemma {:induction false} UnionIsIdempotent(a: Node, b: Node)
    ensures Union(Union(a, b), b) == Union(a, b)
    decreases b
  {
    if a.Dir? && b.Dir? {
      forall name | name in a.entries && name in b.entries
        ensures Union(Union(a.entries[name], b.entries[name]), b.entries[name]) == Union(a.entries[name], b.entries[name])
      {
        UnionIsIdempotent(a.entries[name], b.entries[name]);
      }
      forall name | name in b.entries ensures Union(b.entries[name], b.entries[name]) == b.entries[name] {
        UnionWithSelf(b.entries[name]);
      }
      assert Union(Union(a, b), b).entries == Union(a, b).entries;
    }
  }

  lemma {:induction false} UnionWithSelf(a: Node)
    ensures Union(a, a) == a
    decreases a
  {
    if a.Dir? {
      forall name | name in a.entries ensures Union(a.entries[name], a.entries[name]) == a.entries[name] { UnionWithSelf(a.entries[name]); }
      assert Union(a, a).entries == a.entries;
    }
  }

  lemma CopyIsWhole(b: Node)
    requires b.Dir?
    ensures Union(EMPTY, b) == b
  {
    assert Union(EMPTY, b).entries == b.entries;
  }

  // ----- The merge as it runs ----------------------------------------------------------------

  /** The merge after these names. */
  function Partly(a: Node, b: Node, done: set<Name>): map<Name, Node>
    requires a.Dir? && b.Dir? && done <= b.entries.Keys
  {
    map name | name in a.entries.Keys + done ::
      if name !in done then a.entries[name]
      else if name !in a.entries then b.entries[name]
      else Union(a.entries[name], b.entries[name])
  }

  /** How many file operations succeed before one fails; none fails without a number. */
  type Luck = Option<nat>

  method Operate(luck: Luck) returns (ok: bool, rest: Luck)
    ensures luck.None? ==> ok && rest.None?
  {
    if luck == Some(0) { return false, luck; }
    return true, if luck.Some? then Some(luck.value - 1) else None;
  }

  /** Merges a directory, its names in any order; an error stops it where it is. */
  method MergeDirectory(source: Node, destination: Node, check: Check, luck: Luck)
    returns (ok: bool, result: Node, changed: bool, rest: Luck)
    requires source.Dir? && destination.Dir?
    ensures ok ==> Admissible(destination, source, check) && result == Union(destination, source) && changed == Adds(destination, source)
    ensures luck.None? && Admissible(destination, source, check) ==> ok
    ensures luck.None? ==> rest.None?
    decreases source, 0
  {
    result, changed := destination, false;
    ok, rest := Operate(luck);
    if !ok { return; }
    var left := source.entries.Keys;
    assert Partly(destination, source, {}) == destination.entries;
    while left != {}
      invariant left <= source.entries.Keys && (luck.None? ==> rest.None?)
      invariant result == Dir(Partly(destination, source, source.entries.Keys - left))
      invariant forall name | name in source.entries.Keys - left :: NameAdmissible(destination, source, name, check)
      invariant changed == exists name | name in source.entries.Keys - left :: NameAdds(destination, source, name)
      decreases left
    {
      var name :| name in left;
      var child := source.entries[name];
      var added, node;
      PartlyNext(destination, source, source.entries.Keys - left, name);
      assert source.entries.Keys - (left - {name}) == source.entries.Keys - left + {name};
      AdmissibleName(destination, source, name, check);
      if name in destination.entries {
        node, added := destination.entries[name], false;
        if destination.entries[name].Dir? && child.Dir? {
          ok, node, added, rest := MergeDirectory(child, destination.entries[name], check, rest);
          if !ok { return; }
        }
      } else {
        ok, node, rest := CopyNode(name, child, check, rest);
        if !ok { return; }
        added := true;
      }
      assert added == NameAdds(destination, source, name);
      hide Partly, NameAdmissible, NameAdds, Admissible, Importable;
      result := Dir(result.entries[name := node]);
      changed := changed || added;
      left := left - {name};
    }
    Finished(destination, source, check);
  }

  predicate NameAdmissible(a: Node, b: Node, name: Name, check: Check)
    requires a.Dir? && b.Dir? && name in b.entries
  {
    if name in a.entries then Admissible(a.entries[name], b.entries[name], check) else Importable(name, b.entries[name], check)
  }

  predicate NameAdds(a: Node, b: Node, name: Name)
    requires a.Dir? && b.Dir? && name in b.entries
  {
    name !in a.entries || Adds(a.entries[name], b.entries[name])
  }

  lemma AdmissibleName(a: Node, b: Node, name: Name, check: Check)
    requires a.Dir? && b.Dir? && name in b.entries
    ensures Admissible(a, b, check) ==> NameAdmissible(a, b, name, check)
  {
  }

  lemma PartlyNext(a: Node, b: Node, done: set<Name>, name: Name)
    requires a.Dir? && b.Dir? && done <= b.entries.Keys && name in b.entries
    ensures Partly(a, b, done + {name})
      == Partly(a, b, done)[name := if name in a.entries then Union(a.entries[name], b.entries[name]) else b.entries[name]]
  {
    hide Union;
  }

  lemma Finished(a: Node, b: Node, check: Check)
    requires a.Dir? && b.Dir?
    ensures Dir(Partly(a, b, b.entries.Keys)) == Union(a, b)
    ensures Admissible(a, b, check) <==> forall name | name in b.entries :: NameAdmissible(a, b, name, check)
    ensures Adds(a, b) <==> exists name | name in b.entries :: NameAdds(a, b, name)
  {
  }

  /** Copies what is missing on the left: a directory by merging it into a new one. */
  method CopyNode(name: Name, child: Node, check: Check, luck: Luck) returns (ok: bool, node: Node, rest: Luck)
    ensures ok ==> node == child && Importable(name, child, check)
    ensures luck.None? && Importable(name, child, check) ==> ok
    ensures luck.None? ==> rest.None?
    decreases child, 1
  {
    node, rest := child, luck;
    match child {
      case Dir(_) =>
        ok, rest := Operate(luck);
        if ok {
          var changed;
          ok, node, changed, rest := MergeDirectory(child, EMPTY, check, rest);
          CopyIsWhole(child);
        }
      case File(content) =>
        ok := check(name, content);
        if ok { ok, rest := Operate(luck); }
      case Special => ok := false;
    }
  }
}

/** Lists kept by group, and how often an element is in its group. */
module Grouping {
  import opened Prelude
  import StableSort

  function One(b: bool): nat {
    if b then 1 else 0
  }

  function ListOf<G, T>(groups: map<G, seq<T>>, id: G): seq<T> {
    if id in groups then groups[id] else []
  }

  function Put<G, T>(groups: map<G, seq<T>>, id: G, x: T): map<G, seq<T>> {
    groups[id := ListOf(groups, id) + [x]]
  }

  /** Times an element is in a group. */
  ghost function Held<G, T>(groups: map<G, seq<T>>, id: G, x: T): nat {
    multiset(ListOf(groups, id))[x]
  }

  lemma PutHolds<G, T>(groups: map<G, seq<T>>, id: G, x: T, other: G, y: T)
    ensures Held(Put(groups, id, x), other, y) == Held(groups, other, y) + One(id == other && x == y)
  {
  }

  /** Elements of a list that have this key. */
  function WithKey<T, K(==)>(list: seq<T>, keyOf: T -> K, key: K): nat {
    if list == [] then 0 else WithKey(list[..|list| - 1], keyOf, key) + One(keyOf(list[|list| - 1]) == key)
  }

  /** When one element alone can have the key, its occurrences are counted. */
  lemma {:induction false} WithKeyIsCount<T, K>(list: seq<T>, keyOf: T -> K, key: K, only: T)
    requires keyOf(only) == key && forall x | x in list && keyOf(x) == key :: x == only
    ensures WithKey(list, keyOf, key) == multiset(list)[only]
  {
    if list != [] {
      var init, last := list[..|list| - 1], list[|list| - 1];
      assert list == init + [last];
      assert last in list;
      WithKeyIsCount(init, keyOf, key, only);
    }
  }

  lemma {:induction false} NoneWithKey<T, K>(list: seq<T>, keyOf: T -> K, key: K)
    requires forall x | x in list :: keyOf(x) != key
    ensures WithKey(list, keyOf, key) == 0
  {
    if list != [] {
      assert list[|list| - 1] in list;
      NoneWithKey(list[..|list| - 1], keyOf, key);
    }
  }

  lemma {:induction false} SomeWithKey<T, K>(list: seq<T>, keyOf: T -> K, key: K)
    ensures WithKey(list, keyOf, key) > 0 <==> exists x :: x in list && keyOf(x) == key
  {
    if list != [] {
      var init, last := list[..|list| - 1], list[|list| - 1];
      assert list == init + [last];
      SomeWithKey(init, keyOf, key);
      assert last in list;
    }
  }

  // ----- Lists of lists ---------------------------------------------------------------

  function Flat<I, T>(items: seq<I>, listIn: I -> seq<T>): seq<T> {
    if items == [] then [] else Flat(items[..|items| - 1], listIn) + listIn(items[|items| - 1])
  }

  lemma FlatSnoc<I, T>(items: seq<I>, last: I, listIn: I -> seq<T>)
    ensures Flat(items + [last], listIn) == Flat(items, listIn) + listIn(last)
  {
    assert (items + [last])[..|items|] == items;
  }

  lemma {:induction false} FlatParts<I, T>(a: seq<I>, b: seq<I>, listIn: I -> seq<T>)
    ensures Flat(a + b, listIn) == Flat(a, listIn) + Flat(b, listIn)
  {
    if b == [] {
      assert a + b == a;
    } else {
      var init, last := b[..|b| - 1], b[|b| - 1];
      FlatParts(a, init, listIn);
      FlatSnoc(a + init, last, listIn);
      FlatSnoc(init, last, listIn);
      assert a + b == a + init + [last] && b == init + [last];
      Assoc(Flat(a, listIn), Flat(init, listIn), listIn(last));
      hide Flat;
    }
  }

  lemma {:induction false} FlatInsert<I, T>(before: (I, I) -> bool, items: seq<I>, x: I, listIn: I -> seq<T>)
    ensures multiset(Flat(StableSort.Insert(before, items, x), listIn)) == multiset(Flat(items, listIn)) + multiset(listIn(x))
  {
    FlatSnoc(items, x, listIn);
    if items != [] && before(x, items[|items| - 1]) {
      var init, last := items[..|items| - 1], items[|items| - 1];
      FlatInsert(before, init, x, listIn);
      FlatSnoc(StableSort.Insert(before, init, x), last, listIn);
      FlatSnoc(init, last, listIn);
      assert items == init + [last];
    }
  }

  /** Sorting the lists rearranges what they hold together. */
  lemma {:induction false} FlatSort<I, T>(before: (I, I) -> bool, items: seq<I>, listIn: I -> seq<T>)
    ensures multiset(Flat(StableSort.Sort(before, items), listIn)) == multiset(Flat(items, listIn))
  {
    if items != [] {
      var init, last := items[..|items| - 1], items[|items| - 1];
      FlatSort(before, init, listIn);
      FlatInsert(before, StableSort.Sort(before, init), last, listIn);
    }
  }

  lemma {:induction false} FlatHolds<I, T>(items: seq<I>, listIn: I -> seq<T>, x: T)
    ensures x in Flat(items, listIn) <==> exists i :: i in items && x in listIn(i)
  {
    if items != [] {
      var init, last := items[..|items| - 1], items[|items| - 1];
      FlatHolds(init, listIn, x);
      assert items == init + [last];
      assert last in items;
    }
  }
}

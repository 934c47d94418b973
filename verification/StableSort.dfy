/** A stable sort by a comparison, as both languages' libraries provide it. */
module StableSort {

  /** A strict order in which being neither before nor after is an equivalence. */
  ghost predicate StrictWeak<T(!new)>(before: (T, T) -> bool) {
    && (forall a, b :: before(a, b) ==> !before(b, a))
    && (forall a, b, c :: before(a, c) ==> before(a, b) || before(b, c))
  }

  ghost predicate Ordered<T>(before: (T, T) -> bool, s: seq<T>) {
    forall i, j | 0 <= i < j < |s| :: !before(s[j], s[i])
  }

  function Insert<T>(before: (T, T) -> bool, sorted: seq<T>, x: T): (result: seq<T>)
    ensures |result| == |sorted| + 1
  {
    if sorted == [] || !before(x, sorted[|sorted| - 1]) then sorted + [x]
    else Insert(before, sorted[..|sorted| - 1], x) + [sorted[|sorted| - 1]]
  }

  function Sort<T>(before: (T, T) -> bool, s: seq<T>): (result: seq<T>)
    ensures |result| == |s|
  {
    if s == [] then [] else Insert(before, Sort(before, s[..|s| - 1]), s[|s| - 1])
  }

  lemma {:induction false} InsertKeepsAll<T>(before: (T, T) -> bool, sorted: seq<T>, x: T)
    ensures multiset(Insert(before, sorted, x)) == multiset(sorted) + multiset{x}
  {
    if sorted != [] && before(x, sorted[|sorted| - 1]) {
      InsertKeepsAll(before, sorted[..|sorted| - 1], x);
      assert sorted == sorted[..|sorted| - 1] + [sorted[|sorted| - 1]];
    }
  }

  /** Sorting only rearranges. */
  lemma {:induction false} SortKeepsAll<T>(before: (T, T) -> bool, s: seq<T>)
    ensures multiset(Sort(before, s)) == multiset(s)
  {
    if s != [] {
      SortKeepsAll(before, s[..|s| - 1]);
      InsertKeepsAll(before, Sort(before, s[..|s| - 1]), s[|s| - 1]);
      assert s == s[..|s| - 1] + [s[|s| - 1]];
    }
  }

  lemma AppendOrdered<T(!new)>(before: (T, T) -> bool, s: seq<T>, x: T)
    requires StrictWeak(before) && Ordered(before, s) && (s != [] ==> !before(x, s[|s| - 1]))
    ensures Ordered(before, s + [x])
  {
    forall i | 0 <= i < |s| ensures !before(x, s[i]) {
      var last := s[|s| - 1];
      assert before(x, last) || before(last, s[i]) || !before(x, s[i]);
    }
  }

  lemma {:induction false} InsertKeepsOrder<T(!new)>(before: (T, T) -> bool, sorted: seq<T>, x: T)
    requires StrictWeak(before) && Ordered(before, sorted)
    ensures var result := Insert(before, sorted, x);
      Ordered(before, result) && (result[|result| - 1] == x || (sorted != [] && result[|result| - 1] == sorted[|sorted| - 1]))
  {
    if sorted == [] || !before(x, sorted[|sorted| - 1]) {
      AppendOrdered(before, sorted, x);
    } else {
      var init, last := sorted[..|sorted| - 1], sorted[|sorted| - 1];
      InsertKeepsOrder(before, init, x);
      AppendOrdered(before, Insert(before, init, x), last);
    }
  }

  /** No element is before an earlier one. */
  lemma {:induction false} SortOrders<T(!new)>(before: (T, T) -> bool, s: seq<T>)
    requires StrictWeak(before)
    ensures Ordered(before, Sort(before, s))
  {
    if s != [] {
      SortOrders(before, s[..|s| - 1]);
      InsertKeepsOrder(before, Sort(before, s[..|s| - 1]), s[|s| - 1]);
    }
  }

  lemma {:induction false} InsertAgrees<T>(before: (T, T) -> bool, other: (T, T) -> bool, sorted: seq<T>, x: T)
    requires forall y | y in sorted :: before(x, y) == other(x, y)
    ensures Insert(before, sorted, x) == Insert(other, sorted, x)
  {
    if sorted != [] && before(x, sorted[|sorted| - 1]) { InsertAgrees(before, other, sorted[..|sorted| - 1], x); }
  }

  /** A sort depends on nothing but how the elements of the list compare. */
  lemma {:induction false} SortAgrees<T>(before: (T, T) -> bool, other: (T, T) -> bool, s: seq<T>)
    requires forall x, y | x in s && y in s :: before(x, y) == other(x, y)
    ensures Sort(before, s) == Sort(other, s)
  {
    if s != [] {
      var init, last := s[..|s| - 1], s[|s| - 1];
      SortAgrees(before, other, init);
      SortKeepsAll(before, init);
      forall y | y in Sort(before, init) ensures y in s { assert y in multiset(init); }
      InsertAgrees(before, other, Sort(before, init), last);
    }
  }

  /** The elements of one class, in their order. */
  function Pick<T>(inClass: T -> bool, s: seq<T>): seq<T> {
    if s == [] then [] else Pick(inClass, s[..|s| - 1]) + if inClass(s[|s| - 1]) then [s[|s| - 1]] else []
  }

  lemma PickSnoc<T>(inClass: T -> bool, s: seq<T>, x: T)
    ensures Pick(inClass, s + [x]) == Pick(inClass, s) + if inClass(x) then [x] else []
  {
    assert (s + [x])[..|s|] == s;
  }

  lemma {:induction false} PickCounts<T>(inClass: T -> bool, s: seq<T>, x: T)
    ensures multiset(Pick(inClass, s))[x] == if inClass(x) then multiset(s)[x] else 0
  {
    if s != [] {
      PickCounts(inClass, s[..|s| - 1], x);
      assert s == s[..|s| - 1] + [s[|s| - 1]];
    }
  }

  lemma {:induction false} InsertIsStable<T(!new)>(before: (T, T) -> bool, inClass: T -> bool, sorted: seq<T>, x: T)
    requires forall a, b :: inClass(a) && inClass(b) ==> !before(a, b)
    ensures Pick(inClass, Insert(before, sorted, x)) == Pick(inClass, sorted) + if inClass(x) then [x] else []
  {
    if sorted == [] || !before(x, sorted[|sorted| - 1]) {
      PickSnoc(inClass, sorted, x);
    } else {
      var init, last := sorted[..|sorted| - 1], sorted[|sorted| - 1];
      InsertIsStable(before, inClass, init, x);
      assert sorted == init + [last];
      PickSnoc(inClass, init, last);
      PickSnoc(inClass, Insert(before, init, x), last);
      assert Insert(before, sorted, x) == Insert(before, init, x) + [last];
      hide Pick, Insert;
      if !inClass(x) { assert Pick(inClass, init) + [] == Pick(inClass, init); }
    }
  }

  /** Elements that are not ordered among themselves keep their order. */
  lemma {:induction false} SortIsStable<T(!new)>(before: (T, T) -> bool, inClass: T -> bool, s: seq<T>)
    requires forall a, b :: inClass(a) && inClass(b) ==> !before(a, b)
    ensures Pick(inClass, Sort(before, s)) == Pick(inClass, s)
  {
    if s != [] {
      var init, last := s[..|s| - 1], s[|s| - 1];
      SortIsStable(before, inClass, init);
      InsertIsStable(before, inClass, Sort(before, init), last);
      PickSnoc(inClass, init, last);
      assert Sort(before, s) == Insert(before, Sort(before, init), last);
      hide Pick, Sort, Insert;
      assert s == init + [last];
    }
  }

  /** What is in order already stays as it is. */
  lemma {:induction false} SortedStays<T>(before: (T, T) -> bool, s: seq<T>)
    requires Ordered(before, s)
    ensures Sort(before, s) == s
  {
    if s != [] {
      SortedStays(before, s[..|s| - 1]);
      assert s == s[..|s| - 1] + [s[|s| - 1]];
    }
  }

  lemma {:induction false} PickParts<T>(inClass: T -> bool, a: seq<T>, b: seq<T>)
    ensures Pick(inClass, a + b) == Pick(inClass, a) + Pick(inClass, b)
  {
    if b == [] {
      assert a + b == a;
    } else {
      var init, last := b[..|b| - 1], b[|b| - 1];
      assert b == init + [last] && a + b == (a + init) + [last];
      PickParts(inClass, a, init);
      PickSnoc(inClass, init, last);
      PickSnoc(inClass, a + init, last);
    }
  }

  lemma {:induction false} PickIsIn<T>(inClass: T -> bool, s: seq<T>)
    ensures forall x | x in Pick(inClass, s) :: inClass(x) && x in s
  {
    if s != [] { PickIsIn(inClass, s[..|s| - 1]); }
  }

  lemma InsertSnoc<T>(before: (T, T) -> bool, sorted: seq<T>, last: T, x: T)
    ensures Insert(before, sorted + [last], x) == if before(x, last) then Insert(before, sorted, x) + [last] else sorted + [last] + [x]
  {
    assert (sorted + [last])[..|sorted|] == sorted;
  }

  lemma SortSnoc<T>(before: (T, T) -> bool, s: seq<T>, x: T)
    ensures Sort(before, s + [x]) == Insert(before, Sort(before, s), x)
  {
    assert (s + [x])[..|s|] == s;
  }

  lemma InsertLast<T>(before: (T, T) -> bool, sorted: seq<T>, x: T)
    requires forall y | y in sorted :: !before(x, y)
    ensures Insert(before, sorted, x) == sorted + [x]
  {
  }

  lemma NoneIsAfter<T(!new)>(before: (T, T) -> bool, sorted: seq<T>, x: T)
    requires StrictWeak(before) && Ordered(before, sorted) && (sorted != [] ==> !before(x, sorted[|sorted| - 1]))
    ensures forall y | y in sorted :: !before(x, y)
  {
    forall y | y in sorted ensures !before(x, y) {
      var k :| 0 <= k < |sorted| && sorted[k] == y;
      assert k < |sorted| - 1 ==> !before(sorted[|sorted| - 1], sorted[k]);
    }
  }

  lemma {:induction false} PickOfInsert<T(!new)>(before: (T, T) -> bool, inClass: T -> bool, sorted: seq<T>, x: T)
    requires StrictWeak(before) && Ordered(before, sorted)
    ensures Pick(inClass, Insert(before, sorted, x)) == if inClass(x) then Insert(before, Pick(inClass, sorted), x) else Pick(inClass, sorted)
  {
    if sorted == [] || !before(x, sorted[|sorted| - 1]) {
      PickSnoc(inClass, sorted, x);
      PickIsIn(inClass, sorted);
      NoneIsAfter(before, sorted, x);
      InsertLast(before, sorted, x);
      hide Pick, Insert, StrictWeak, Ordered;
      if inClass(x) {
        InsertLast(before, Pick(inClass, sorted), x);
      } else {
        assert Pick(inClass, sorted) + [] == Pick(inClass, sorted);
      }
    } else {
      var init, last := sorted[..|sorted| - 1], sorted[|sorted| - 1];
      PickOfInsert(before, inClass, init, x);
      assert sorted == init + [last];
      PickSnoc(inClass, init, last);
      InsertSnoc(before, init, last, x);
      PickSnoc(inClass, Insert(before, init, x), last);
      InsertSnoc(before, Pick(inClass, init), last, x);
      hide Pick, Insert, StrictWeak, Ordered;
      if !inClass(last) {
        assert Pick(inClass, init) + [] == Pick(inClass, init) && Pick(inClass, Insert(before, init, x)) + [] == Pick(inClass, Insert(before, init, x));
      }
    }
  }

  /** Sorting and picking commute. */
  lemma {:induction false} PickOfSort<T(!new)>(before: (T, T) -> bool, inClass: T -> bool, s: seq<T>)
    requires StrictWeak(before)
    ensures Pick(inClass, Sort(before, s)) == Sort(before, Pick(inClass, s))
  {
    if s != [] {
      var init, last := s[..|s| - 1], s[|s| - 1];
      assert s == init + [last];
      PickOfSort(before, inClass, init);
      SortOrders(before, init);
      PickOfInsert(before, inClass, Sort(before, init), last);
      PickSnoc(inClass, init, last);
      SortSnoc(before, init, last);
      SortSnoc(before, Pick(inClass, init), last);
      hide Pick, Sort, Insert, StrictWeak, Ordered;
      assert forall s: seq<T> :: s + [] == s;
    }
  }

  function Map<T, U>(f: T -> U, s: seq<T>): (result: seq<U>)
    ensures |result| == |s| && forall i | 0 <= i < |s| :: result[i] == f(s[i])
  {
    seq(|s|, i requires 0 <= i < |s| => f(s[i]))
  }

  lemma {:induction false} InsertOfMap<T(!new), U>(before: (U, U) -> bool, f: T -> U, mapped: (T, T) -> bool, sorted: seq<T>, x: T)
    requires forall a, b :: mapped(a, b) == before(f(a), f(b))
    ensures Insert(before, Map(f, sorted), f(x)) == Map(f, Insert(mapped, sorted, x))
  {
    if sorted != [] && before(f(x), f(sorted[|sorted| - 1])) {
      InsertOfMap(before, f, mapped, sorted[..|sorted| - 1], x);
      assert Map(f, sorted)[..|sorted| - 1] == Map(f, sorted[..|sorted| - 1]);
    }
  }

  /** Sorting by what elements are mapped to, before or after mapping them. */
  lemma {:induction false} SortOfMap<T(!new), U>(before: (U, U) -> bool, f: T -> U, mapped: (T, T) -> bool, s: seq<T>)
    requires forall a, b :: mapped(a, b) == before(f(a), f(b))
    ensures Sort(before, Map(f, s)) == Map(f, Sort(mapped, s))
  {
    if s != [] {
      SortOfMap(before, f, mapped, s[..|s| - 1]);
      assert Map(f, s)[..|s| - 1] == Map(f, s[..|s| - 1]);
      InsertOfMap(before, f, mapped, Sort(mapped, s[..|s| - 1]), s[|s| - 1]);
    }
  }

  // ----- Text ---------------------------------------------------------------------

  predicate TextBefore(a: string, b: string) {
    b != [] && (a == [] || a[0] < b[0] || (a[0] == b[0] && TextBefore(a[1..], b[1..])))
  }

  lemma {:induction false} TextBeforeIsStrict(a: string, b: string, c: string)
    ensures TextBefore(a, b) ==> !TextBefore(b, a)
    ensures TextBefore(a, c) ==> TextBefore(a, b) || TextBefore(b, c)
    ensures !TextBefore(a, b) && !TextBefore(b, a) ==> a == b
  {
    if a != [] && b != [] { TextBeforeIsStrict(a[1..], b[1..], if c != [] then c[1..] else []); }
  }
}

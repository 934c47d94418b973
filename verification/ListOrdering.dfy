/**
 The stable order of listed projects and tasks: a remembered list of ids that
 refreshes only extend, and that a pin toggle changes for one id.
 */
module ListOrdering {
  import opened Prelude
  import StableSort

  type Id = string

  // ----- The remembered order -----------------------------------------------------------

  /** Every id but the empty one, at its first place. */
  function Distinct(ids: seq<Id>): seq<Id> {
    if ids == [] then []
    else
      var init, last := Distinct(ids[..|ids| - 1]), ids[|ids| - 1];
      if last == "" || last in init then init else init + [last]
  }

  predicate Clean(ids: seq<Id>) {
    "" !in ids && forall i, j | 0 <= i < j < |ids| :: ids[i] != ids[j]
  }

  method Reconcile(previous: seq<Id>, candidates: seq<Id>) returns (result: seq<Id>)
    ensures result == Distinct(previous + candidates)
  {
    var all := previous + candidates;
    var seen: set<Id> := {};
    result := [];
    for i := 0 to |all|
      invariant result == Distinct(all[..i]) && forall id :: id in seen <==> id in result
    {
      assert all[..i + 1][..i] == all[..i];
      var id := all[i];
      if id != "" && id !in seen { seen, result := seen + {id}, result + [id]; }
    }
    assert all[..|all|] == all;
  }

  lemma {:induction false} DistinctIsClean(ids: seq<Id>)
    ensures Clean(Distinct(ids)) && forall id :: id in Distinct(ids) <==> id in ids && id != ""
  {
    if ids != [] {
      DistinctIsClean(ids[..|ids| - 1]);
      assert ids == ids[..|ids| - 1] + [ids[|ids| - 1]];
    }
  }

  lemma {:induction false} CleanStays(ids: seq<Id>)
    requires Clean(ids)
    ensures Distinct(ids) == ids
  {
    if ids != [] {
      CleanStays(ids[..|ids| - 1]);
      assert ids == ids[..|ids| - 1] + [ids[|ids| - 1]];
    }
  }

  /** Reconciling only appends: what was remembered keeps its place. */
  lemma {:induction false} ReconcileAppends(previous: seq<Id>, candidates: seq<Id>)
    ensures Distinct(previous) <= Distinct(previous + candidates)
    ensures Clean(previous) ==> previous <= Distinct(previous + candidates)
  {
    if candidates == [] {
      assert previous + candidates == previous;
    } else {
      var init := candidates[..|candidates| - 1];
      ReconcileAppends(previous, init);
      assert (previous + candidates)[..|previous + candidates| - 1] == previous + init;
    }
    if Clean(previous) { CleanStays(previous); }
  }

  // ----- Moving one id -----------------------------------------------------------------------

  function Without(ids: seq<Id>, id: Id): seq<Id> {
    if ids == [] then [] else Without(ids[..|ids| - 1], id) + if ids[|ids| - 1] == id then [] else [ids[|ids| - 1]]
  }

  /** The place after the last pinned id, or the front. */
  function AfterPinned(ids: seq<Id>, pinned: set<Id>): (place: nat)
    ensures place <= |ids|
    ensures forall i | place <= i < |ids| :: ids[i] !in pinned
    ensures place > 0 ==> ids[place - 1] in pinned
  {
    if ids == [] then 0
    else if ids[|ids| - 1] in pinned then |ids|
    else AfterPinned(ids[..|ids| - 1], pinned)
  }

  function Moved(id: Id, order: seq<Id>, toPinned: bool, pinned: set<Id>): seq<Id> {
    var others := Without(Distinct(order + [id]), id);
    if toPinned then
      var place := AfterPinned(others, pinned);
      others[..place] + [id] + others[place..]
    else others + [id]
  }

  method Move(id: Id, order: seq<Id>, toPinned: bool, pinned: set<Id>) returns (result: seq<Id>)
    ensures result == Moved(id, order, toPinned, pinned)
  {
    result := Reconcile(order, [id]);
    result := RemoveAll(result, id);
    if toPinned {
      var place := |result|;
      while place > 0 && result[place - 1] !in pinned
        invariant 0 <= place <= |result| && AfterPinned(result[..place], pinned) == AfterPinned(result, pinned)
      {
        assert result[..place][..place - 1] == result[..place - 1];
        place := place - 1;
      }
      result := result[..place] + [id] + result[place..];
    } else {
      result := result + [id];
    }
  }

  method RemoveAll(ids: seq<Id>, id: Id) returns (result: seq<Id>)
    ensures result == Without(ids, id)
  {
    result := [];
    for i := 0 to |ids|
      invariant result == Without(ids[..i], id)
    {
      assert ids[..i + 1][..i] == ids[..i];
      if ids[i] != id { result := result + [ids[i]]; }
    }
    assert ids[..|ids|] == ids;
  }

  lemma {:induction false} WithoutParts(a: seq<Id>, b: seq<Id>, id: Id)
    ensures Without(a + b, id) == Without(a, id) + Without(b, id)
  {
    if b == [] {
      assert a + b == a;
    } else {
      assert (a + b)[..|a + b| - 1] == a + b[..|b| - 1];
      WithoutParts(a, b[..|b| - 1], id);
    }
  }

  lemma {:induction false} WithoutMember(ids: seq<Id>, id: Id, x: Id)
    ensures x in Without(ids, id) <==> x in ids && x != id
  {
    if ids != [] {
      WithoutMember(ids[..|ids| - 1], id, x);
      assert ids == ids[..|ids| - 1] + [ids[|ids| - 1]];
    }
  }

  lemma {:induction false} WithoutAbsent(ids: seq<Id>, id: Id)
    requires id !in ids
    ensures Without(ids, id) == ids
  {
    if ids != [] {
      WithoutAbsent(ids[..|ids| - 1], id);
      assert ids == ids[..|ids| - 1] + [ids[|ids| - 1]];
    }
  }

  lemma {:induction false} WithoutIsClean(ids: seq<Id>, id: Id)
    requires Clean(ids)
    ensures Clean(Without(ids, id))
  {
    if ids != [] {
      var init, last := ids[..|ids| - 1], ids[|ids| - 1];
      WithoutIsClean(init, id);
      WithoutMember(init, id, last);
      WithoutMember(init, id, "");
      assert last !in init && last != "";
    }
  }

  /** An id put into a list is taken out of it again. */
  lemma InsertedAndRemoved(front: seq<Id>, id: Id, back: seq<Id>)
    requires id !in front && id !in back
    ensures Without(front + [id] + back, id) == front + back
  {
    WithoutParts(front + [id], back, id);
    WithoutParts(front, [id], id);
    WithoutAbsent(front, id);
    WithoutAbsent(back, id);
    assert [id][..0] == [] && Without([id], id) == [];
    hide Without;
    assert front + [] == front;
  }

  /** The other ids, before the moved one is put back. */
  lemma OthersOf(id: Id, order: seq<Id>)
    ensures Without(Distinct(order + [id]), id) == Without(Distinct(order), id)
    ensures id !in Without(Distinct(order), id) && Clean(Without(Distinct(order), id))
  {
    assert (order + [id])[..|order|] == order;
    WithoutParts(Distinct(order), [id], id);
    assert [id][..0] == [] && Without([id], id) == [];
    DistinctIsClean(order);
    WithoutIsClean(Distinct(order), id);
    WithoutMember(Distinct(order), id, id);
  }

  /** The id stands at one place of the list, among the others as they were. */
  predicate StandsAt(result: seq<Id>, id: Id, others: seq<Id>, k: nat) {
    k < |result| && result[k] == id && result[..k] + result[k + 1..] == others
  }

  lemma InsertionIsClean(front: seq<Id>, id: Id, back: seq<Id>)
    requires Clean(front + back) && id != "" && id !in front + back
    ensures Clean(front + [id] + back)
  {
    var result, others := front + [id] + back, front + back;
    forall i, j | 0 <= i < j < |result| ensures result[i] != result[j] {
      assert i < |front| ==> result[i] == others[i];
      assert i > |front| ==> result[i] == others[i - 1];
      assert j < |front| ==> result[j] == others[j];
      assert j > |front| ==> result[j] == others[j - 1];
    }
    assert forall x | x in result :: x == id || x in front || x in back;
    assert forall x | x in front || x in back :: x in others;
  }

  lemma MovedIsInsertion(id: Id, order: seq<Id>, toPinned: bool, pinned: set<Id>) returns (place: nat)
    ensures var others := Without(Distinct(order), id);
      place <= |others| && Moved(id, order, toPinned, pinned) == others[..place] + [id] + others[place..]
  {
    OthersOf(id, order);
    hide Distinct, Without;
    var others := Without(Distinct(order), id);
    place := if toPinned then AfterPinned(others, pinned) else |others|;
    assert others[..|others|] == others && others[|others|..] == [];
  }

  /** Moving relocates its own id, and nothing else. */
  lemma MovingRelocatesOnlyItsId(id: Id, order: seq<Id>, toPinned: bool, pinned: set<Id>)
    ensures var result, others := Moved(id, order, toPinned, pinned), Without(Distinct(order), id);
      Without(result, id) == others && (exists k: nat :: StandsAt(result, id, others, k)) && (id != "" ==> Clean(result))
  {
    var place := MovedIsInsertion(id, order, toPinned, pinned);
    OthersOf(id, order);
    var others := Without(Distinct(order), id);
    hide Distinct, Without, Moved;
    var front, back := others[..place], others[place..];
    var result := front + [id] + back;
    assert others == front + back;
    assert id !in front && id !in back;
    InsertedAndRemoved(front, id, back);
    if id != "" { InsertionIsClean(front, id, back); }
    assert result[..place] + result[place + 1..] == others;
    assert StandsAt(result, id, others, place);
  }

  // ----- Runs of refreshes and toggles -------------------------------------------------------------

  datatype Op = Refresh(candidates: seq<Id>) | Toggle(id: Id, toPinned: bool, pinned: set<Id>)

  function Do(order: seq<Id>, op: Op): seq<Id> {
    match op
    case Refresh(candidates) => Distinct(order + candidates)
    case Toggle(id, toPinned, pinned) => Moved(id, order, toPinned, pinned)
  }

  function DoAll(order: seq<Id>, ops: seq<Op>): seq<Id> {
    if ops == [] then order else Do(DoAll(order, ops[..|ops| - 1]), ops[|ops| - 1])
  }

  /** The two ids as they stand in the order. */
  function Among(order: seq<Id>, x: Id, y: Id): seq<Id> {
    StableSort.Pick((id: Id) => id == x || id == y, order)
  }

  predicate Spares(op: Op, x: Id, y: Id) {
    op.Toggle? ==> op.id != "" && op.id != x && op.id != y
  }

  lemma {:induction false} AmongParts(a: seq<Id>, b: seq<Id>, x: Id, y: Id)
    ensures Among(a + b, x, y) == Among(a, x, y) + Among(b, x, y)
  {
    if b == [] {
      assert a + b == a;
    } else {
      assert (a + b)[..|a + b| - 1] == a + b[..|b| - 1];
      AmongParts(a, b[..|b| - 1], x, y);
    }
  }

  lemma {:induction false} NoneAmong(ids: seq<Id>, x: Id, y: Id)
    requires x !in ids && y !in ids
    ensures Among(ids, x, y) == []
  {
    if ids != [] { NoneAmong(ids[..|ids| - 1], x, y); }
  }

  lemma {:induction false} AmongWithout(ids: seq<Id>, id: Id, x: Id, y: Id)
    requires id != x && id != y
    ensures Among(Without(ids, id), x, y) == Among(ids, x, y)
  {
    if ids != [] {
      var init, last := ids[..|ids| - 1], ids[|ids| - 1];
      AmongWithout(init, id, x, y);
      AmongParts(Without(init, id), if last == id then [] else [last], x, y);
      AmongParts(init, [last], x, y);
      assert ids == init + [last];
      assert [last][..0] == [];
    }
  }

  lemma OpKeepsPair(order: seq<Id>, op: Op, x: Id, y: Id)
    requires Clean(order) && x in order && y in order && Spares(op, x, y)
    ensures Clean(Do(order, op)) && x in Do(order, op) && y in Do(order, op)
    ensures Among(Do(order, op), x, y) == Among(order, x, y)
  {
    match op
    case Refresh(candidates) =>
      ReconcileAppends(order, candidates);
      DistinctIsClean(order + candidates);
      var result := Distinct(order + candidates);
      var added := result[|order|..];
      assert result == order + added;
      assert x !in added && y !in added by { PrefixHolds(result, |order|, x, y); }
      AmongParts(order, added, x, y);
      NoneAmong(added, x, y);
    case Toggle(id, toPinned, pinned) =>
      MovingRelocatesOnlyItsId(id, order, toPinned, pinned);
      CleanStays(order);
      var result := Moved(id, order, toPinned, pinned);
      AmongWithout(result, id, x, y);
      AmongWithout(order, id, x, y);
      WithoutHolds(order, result, id, x, y);
  }

  lemma PrefixHolds(ids: seq<Id>, n: nat, x: Id, y: Id)
    requires Clean(ids) && n <= |ids| && x in ids[..n] && y in ids[..n]
    ensures x !in ids[n..] && y !in ids[n..]
  {
  }

  lemma WithoutHolds(order: seq<Id>, result: seq<Id>, id: Id, x: Id, y: Id)
    requires Without(result, id) == Without(order, id) && x in order && y in order && id != x && id != y
    ensures x in result && y in result
  {
    WithoutMember(order, id, x);
    WithoutMember(order, id, y);
    WithoutMember(result, id, x);
    WithoutMember(result, id, y);
  }

  /** Whatever is refreshed, and whichever others are toggled, two remembered ids keep their places. */
  lemma {:induction false} PairKeepsPlaces(order: seq<Id>, ops: seq<Op>, x: Id, y: Id)
    requires Clean(order) && x in order && y in order && forall op | op in ops :: Spares(op, x, y)
    ensures var result := DoAll(order, ops); Clean(result) && x in result && y in result && Among(result, x, y) == Among(order, x, y)
  {
    if ops != [] {
      var init, last := ops[..|ops| - 1], ops[|ops| - 1];
      assert last in ops;
      PairKeepsPlaces(order, init, x, y);
      OpKeepsPair(DoAll(order, init), last, x, y);
    }
  }

  // ----- Sorting projects ------------------------------------------------------------------------------------

  datatype Item = Item(id: Id, unassigned: bool, pinned: bool)

  function Place(order: seq<Id>, id: Id): nat {
    if order == [] || order[0] == id then 0 else 1 + Place(order[1..], id)
  }

  lemma {:induction false} PlaceIsFirst(order: seq<Id>, id: Id)
    requires id in order
    ensures Place(order, id) < |order| && order[Place(order, id)] == id && id !in order[..Place(order, id)]
  {
    if order[0] != id {
      PlaceIsFirst(order[1..], id);
      assert order[..Place(order, id)] == [order[0]] + order[1..][..Place(order, id) - 1];
    }
  }

  function PlaceOfItem(items: seq<Item>, id: Id): nat {
    if items == [] || items[0].id == id then 0 else 1 + PlaceOfItem(items[1..], id)
  }

  /** Remembered ids by their place, then the others as they came. */
  function Position(order: seq<Id>, items: seq<Item>, id: Id): nat {
    if id in order then Place(order, id) else |set i | i in order| + PlaceOfItem(items, id)
  }

  predicate Before(order: seq<Id>, items: seq<Item>, a: Item, b: Item) {
    if a.unassigned != b.unassigned then a.unassigned
    else if a.pinned != b.pinned then a.pinned
    else if Position(order, items, a.id) != Position(order, items, b.id) then Position(order, items, a.id) < Position(order, items, b.id)
    else StableSort.TextBefore(a.id, b.id)
  }

  function SortItems(items: seq<Item>, order: seq<Id>): seq<Item> {
    StableSort.Sort((a: Item, b: Item) => Before(order, items, a, b), items)
  }

  lemma BeforeIsStrict(order: seq<Id>, items: seq<Item>)
    ensures StableSort.StrictWeak((a: Item, b: Item) => Before(order, items, a, b))
  {
    forall a: Item, b: Item, c: Item
      ensures (Before(order, items, a, b) ==> !Before(order, items, b, a))
        && (Before(order, items, a, c) ==> Before(order, items, a, b) || Before(order, items, b, c))
    {
      StableSort.TextBeforeIsStrict(a.id, b.id, c.id);
      hide Position;
    }
  }

  function ItemIds(items: seq<Item>): seq<Id> {
    StableSort.Map((item: Item) => item.id, items)
  }

  /** The sort keeps a dictionary of places; with a repeated id there is no result, since that traps. */
  ghost function ItemsSorted(items: seq<Item>, order: seq<Id>): Option<seq<Item>> {
    if NoRepeats(ItemIds(items)) then Some(SortItems(items, order)) else None
  }

  /** There is a sorted list unless ids repeat; it holds the same projects, and none stands before one that comes first. */
  lemma SortingItems(items: seq<Item>, order: seq<Id>)
    ensures ItemsSorted(items, order).Some? <==> forall i, j | 0 <= i < j < |items| :: items[i].id != items[j].id
    ensures ItemsSorted(items, order).Some? ==>
      var sorted := ItemsSorted(items, order).value;
      && multiset(sorted) == multiset(items)
      && forall i, j | 0 <= i < j < |items| :: !Before(order, items, sorted[j], sorted[i])
  {
    BeforeIsStrict(order, items);
    StableSort.SortKeepsAll((a: Item, b: Item) => Before(order, items, a, b), items);
    StableSort.SortOrders((a: Item, b: Item) => Before(order, items, a, b), items);
    hide Before;
  }

  /** Two ids of a list, one after the other, and nothing else of the pair. */
  lemma PairInParts(a: seq<Id>, x: Id, b: seq<Id>, y: Id, c: seq<Id>)
    requires x !in a && y !in a && x !in b && y !in b && x !in c && y !in c
    ensures Among(a + [x] + b + [y] + c, x, y) == [x, y] == Among(a + [x] + b + [y] + c, y, x)
  {
    forall u, v | (u == x && v == y) || (u == y && v == x) ensures Among(a + [x] + b + [y] + c, u, v) == [x, y] {
      NoneAmong(a, u, v);
      NoneAmong(b, u, v);
      NoneAmong(c, u, v);
      AmongParts(a + [x] + b + [y], c, u, v);
      AmongParts(a + [x] + b, [y], u, v);
      AmongParts(a + [x], b, u, v);
      AmongParts(a, [x], u, v);
      assert [x][..0] == [] && [y][..0] == [];
    }
  }

  lemma SplitAtTwo(order: seq<Id>, i: nat, j: nat)
    requires Clean(order) && i < j < |order|
    ensures var x, y := order[i], order[j];
      var a, b, c := order[..i], order[i + 1..j], order[j + 1..];
      order == a + [x] + b + [y] + c && x !in a && y !in a && x !in b && y !in b && x !in c && y !in c
  {
  }

  /** Which of two remembered ids comes first shows in the pair alone. */
  lemma PairTellsPlaces(order: seq<Id>, x: Id, y: Id)
    requires Clean(order) && x in order && y in order && x != y
    ensures Place(order, x) != Place(order, y)
    ensures Among(order, x, y) == if Place(order, x) < Place(order, y) then [x, y] else [y, x]
  {
    PlaceIsFirst(order, x);
    PlaceIsFirst(order, y);
    var i, j := Place(order, x), Place(order, y);
    var first, last := if i < j then i else j, if i < j then j else i;
    SplitAtTwo(order, first, last);
    hide Place, Clean, Among;
    PairInParts(order[..first], order[first], order[first + 1..last], order[last], order[last + 1..]);
  }

  lemma SameSideOfPair(order: seq<Id>, later: seq<Id>, x: Id, y: Id)
    requires Clean(order) && Clean(later) && x in order && y in order && x in later && y in later && x != y
    requires Among(order, x, y) == Among(later, x, y)
    ensures Place(order, x) < Place(order, y) <==> Place(later, x) < Place(later, y)
    ensures Place(order, x) != Place(order, y) && Place(later, x) != Place(later, y)
  {
    PairTellsPlaces(order, x, y);
    PairTellsPlaces(later, x, y);
    PlaceIsFirst(order, x);
    PlaceIsFirst(order, y);
    PlaceIsFirst(later, x);
    PlaceIsFirst(later, y);
    assert [x, y][0] != [y, x][0];
  }

  /**
   Two listed projects whose flags are what they were never swap: not after any
   refreshes, nor after any toggles of other projects.
   */
  lemma NeverSwap(items: seq<Item>, later: seq<Item>, order: seq<Id>, ops: seq<Op>, x: Item, y: Item, i: nat, j: nat, k: nat, l: nat)
    requires Clean(order) && x.id in order && y.id in order && x.id != y.id
    requires forall op | op in ops :: Spares(op, x.id, y.id)
    requires ItemsSorted(items, order).Some? && ItemsSorted(later, DoAll(order, ops)).Some?
    requires i < j < |items| && ItemsSorted(items, order).value[i] == x && ItemsSorted(items, order).value[j] == y
    requires k < |later| && l < |later|
    requires ItemsSorted(later, DoAll(order, ops)).value[k] == x && ItemsSorted(later, DoAll(order, ops)).value[l] == y
    ensures k < l
  {
    var end := DoAll(order, ops);
    PairKeepsPlaces(order, ops, x.id, y.id);
    SameSideOfPair(order, end, x.id, y.id);
    SortingItems(items, order);
    SortingItems(later, end);
    hide NoRepeats;
    assert !Before(order, items, y, x);
    assert Before(end, later, x, y) by { hide SortItems; }
    hide Before;
    assert l < k ==> !Before(end, later, x, y);
    assert k != l;
  }

  /**
   In a sorted list the unassigned item comes first, then the pinned ones, then the
   others; of each kind remembered ids stand by their places, and, if the order repeats
   none, before those that are not remembered.
   */
  lemma SortedItemsStand(items: seq<Item>, order: seq<Id>, i: nat, j: nat)
    requires ItemsSorted(items, order).Some? && i < j < |ItemsSorted(items, order).value|
    ensures var a, b := ItemsSorted(items, order).value[i], ItemsSorted(items, order).value[j];
      && (b.unassigned ==> a.unassigned)
      && (a.unassigned == b.unassigned ==>
            && (b.pinned ==> a.pinned)
            && (a.pinned == b.pinned ==>
                  && (NoRepeats(order) && b.id in order ==> a.id in order)
                  && (a.id in order && b.id in order ==>
                        exists k, l | 0 <= k <= l < |order| ::
                          order[k] == a.id && order[l] == b.id && a.id !in order[..k] && b.id !in order[..l])))
  {
    SortingItems(items, order);
    hide ItemsSorted;
    var a, b := ItemsSorted(items, order).value[i], ItemsSorted(items, order).value[j];
    assert |ItemsSorted(items, order).value| == |items| by { assert |multiset(items)| == |multiset(ItemsSorted(items, order).value)|; }
    assert !Before(order, items, b, a);
    if a.id in order { PlaceIsFirst(order, a.id); }
    if b.id in order { PlaceIsFirst(order, b.id); }
    if NoRepeats(order) { DistinctCount(order); }
    hide StableSort.TextBefore;
  }

  lemma {:induction false} DistinctCount(order: seq<Id>)
    requires NoRepeats(order)
    ensures |set i | i in order| == |order|
  {
    if order != [] {
      var init, last := order[..|order| - 1], order[|order| - 1];
      assert order == init + [last];
      DistinctCount(init);
      assert (set i | i in order) == (set i | i in init) + {last};
    }
  }

  /** A moved id stands last when it is unpinned; pinned, it stands first of all or right after a pinned one, and before no pinned one. */
  lemma MovedStands(id: Id, order: seq<Id>, toPinned: bool, pinned: set<Id>)
    ensures var others, result := Without(Distinct(order), id), Moved(id, order, toPinned, pinned);
      && (!toPinned ==> result == others + [id])
      && (toPinned ==> exists k | 0 <= k <= |others| ::
            && result == others[..k] + [id] + others[k..]
            && (k > 0 ==> others[k - 1] in pinned) && forall l | k <= l < |others| :: others[l] !in pinned)
  {
    OthersOf(id, order);
    var others := Without(Distinct(order), id);
    if toPinned { assert Moved(id, order, toPinned, pinned) == others[..AfterPinned(others, pinned)] + [id] + others[AfterPinned(others, pinned)..]; }
  }

  // ----- Tasks ------------------------------------------------------------------------------------------------

  datatype TaskItem = TaskItem(id: Id, createdAt: int)

  predicate Older(a: TaskItem, b: TaskItem) {
    a.createdAt < b.createdAt || (a.createdAt == b.createdAt && StableSort.TextBefore(a.id, b.id))
  }

  function TaskOf(tasks: seq<TaskItem>, id: Id): seq<TaskItem> {
    StableSort.Pick((t: TaskItem) => t.id == id, tasks)
  }

  /** The remembered tasks in their order. */
  function Known(tasks: seq<TaskItem>, order: seq<Id>): seq<TaskItem> {
    if order == [] then [] else Known(tasks, order[..|order| - 1]) + TaskOf(tasks, order[|order| - 1])
  }

  function SortTasks(tasks: seq<TaskItem>, order: seq<Id>): seq<TaskItem> {
    Known(tasks, order) + StableSort.Sort(Older, StableSort.Pick((t: TaskItem) => t.id !in order, tasks))
  }

  lemma KnownSnoc(tasks: seq<TaskItem>, order: seq<Id>, last: Id, t: TaskItem)
    ensures multiset(Known(tasks, order + [last]))[t] == multiset(Known(tasks, order))[t] + if last == t.id then multiset(tasks)[t] else 0
  {
    assert (order + [last])[..|order|] == order;
    StableSort.PickCounts((t: TaskItem) => t.id == last, tasks, t);
    assert Known(tasks, order + [last]) == Known(tasks, order) + TaskOf(tasks, last);
  }

  /** `n` for each time the id is remembered. */
  function Weight(order: seq<Id>, id: Id, n: nat): nat {
    if order == [] then 0 else Weight(order[..|order| - 1], id, n) + if order[|order| - 1] == id then n else 0
  }

  lemma {:induction false} WeightIsProduct(order: seq<Id>, id: Id, n: nat)
    ensures Weight(order, id, n) == n * Times(order, id)
  {
    if order != [] {
      var k := Times(order[..|order| - 1], id);
      WeightIsProduct(order[..|order| - 1], id, n);
      assert n * (k + 1) == n * k + n;
    }
  }

  lemma {:induction false} KnownCounts(tasks: seq<TaskItem>, order: seq<Id>, t: TaskItem)
    ensures multiset(Known(tasks, order))[t] == Weight(order, t.id, multiset(tasks)[t])
  {
    if order != [] {
      var init, last := order[..|order| - 1], order[|order| - 1];
      KnownCounts(tasks, init, t);
      KnownSnoc(tasks, init, last, t);
      hide Known;
      assert order == init + [last];
    }
  }

  lemma {:induction false} TimesOfClean(order: seq<Id>, id: Id)
    ensures id in order <==> Times(order, id) > 0
    ensures Clean(order) ==> Times(order, id) <= 1
  {
    if order != [] {
      TimesOfClean(order[..|order| - 1], id);
      assert order == order[..|order| - 1] + [order[|order| - 1]];
    }
  }

  lemma NewTaskCounts(tasks: seq<TaskItem>, order: seq<Id>, t: TaskItem)
    ensures multiset(StableSort.Sort(Older, StableSort.Pick((t: TaskItem) => t.id !in order, tasks)))[t]
      == if t.id in order then 0 else multiset(tasks)[t]
  {
    StableSort.PickCounts((t: TaskItem) => t.id !in order, tasks, t);
    StableSort.SortKeepsAll(Older, StableSort.Pick((t: TaskItem) => t.id !in order, tasks));
  }

  lemma SortTasksParts(tasks: seq<TaskItem>, order: seq<Id>, t: TaskItem)
    ensures multiset(SortTasks(tasks, order))[t] == multiset(Known(tasks, order))[t] + if t.id in order then 0 else multiset(tasks)[t]
  {
    NewTaskCounts(tasks, order, t);
    hide Known, StableSort.Sort, StableSort.Pick;
  }

  /** How often a task is in the sorted list: as often as its id is remembered, or once. */
  lemma SortedTaskCounts(tasks: seq<TaskItem>, order: seq<Id>, t: TaskItem)
    ensures multiset(SortTasks(tasks, order))[t] == multiset(tasks)[t] * if t.id in order then Times(order, t.id) else 1
  {
    KnownCounts(tasks, order, t);
    WeightIsProduct(order, t.id, multiset(tasks)[t]);
    TimesOfClean(order, t.id);
    SortTasksParts(tasks, order, t);
    hide *;
    var n := multiset(tasks)[t];
    assert n * 0 == 0 && n * 1 == n;
  }

  /** This sort, too, keeps a dictionary, and traps on a repeated id. */
  ghost function TasksSorted(tasks: seq<TaskItem>, order: seq<Id>): Option<seq<TaskItem>> {
    if NoRepeats(IdsOf(tasks)) then Some(SortTasks(tasks, order)) else None
  }

  /** Tasks of different ids are sorted, and all kept once each exactly when none is remembered twice. */
  lemma SortingTasksIsPermutation(tasks: seq<TaskItem>, order: seq<Id>)
    ensures TasksSorted(tasks, order).Some? <==> forall i, j | 0 <= i < j < |tasks| :: tasks[i].id != tasks[j].id
    ensures TasksSorted(tasks, order).Some? ==>
      (multiset(TasksSorted(tasks, order).value) == multiset(tasks) <==> forall t | t in tasks :: Times(order, t.id) <= 1)
  {
    KeepsTasksOnce(tasks, order);
  }

  lemma KeepsTasksOnce(tasks: seq<TaskItem>, order: seq<Id>)
    ensures multiset(SortTasks(tasks, order)) == multiset(tasks) <==> forall t | t in tasks :: Times(order, t.id) <= 1
  {
    forall t ensures multiset(SortTasks(tasks, order))[t] == multiset(tasks)[t] <==> (t in tasks ==> Times(order, t.id) <= 1) {
      SortedTaskCounts(tasks, order, t);
      TimesOfClean(order, t.id);
      assert t in tasks <==> multiset(tasks)[t] > 0;
      TimesMoreThanOne(multiset(tasks)[t], Times(order, t.id));
    }
    hide SortTasks, Times;
    if forall t | t in tasks :: Times(order, t.id) <= 1 {
      assert forall t :: multiset(SortTasks(tasks, order))[t] == multiset(tasks)[t];
    }
  }

  lemma TimesMoreThanOne(n: nat, k: nat)
    ensures n * k == n <==> n == 0 || k == 1
  {
    if n > 0 && k > 1 { assert n * k >= n * 2; }
    if n > 0 && k == 0 { assert n * k == 0; }
  }

  /** The ids added at the end, each once. The source drops an empty id from what was remembered, but not from what is new. */
  function Added(order: seq<Id>, ids: seq<Id>): seq<Id> {
    if ids == [] then order
    else
      var init, last := Added(order, ids[..|ids| - 1]), ids[|ids| - 1];
      if last in init then init else init + [last]
  }

  function NewTasks(order: seq<Id>, candidates: seq<TaskItem>): seq<TaskItem> {
    StableSort.Sort(Older, StableSort.Pick((t: TaskItem) => t.id !in order, candidates))
  }

  function IdsOf(tasks: seq<TaskItem>): (ids: seq<Id>)
    ensures |ids| == |tasks| && forall i | 0 <= i < |ids| :: ids[i] == tasks[i].id
  {
    seq(|tasks|, i requires 0 <= i < |tasks| => tasks[i].id)
  }

  /** What is remembered after a refresh. */
  function Remembered(previous: seq<Id>, candidates: seq<TaskItem>): seq<Id> {
    Added(Distinct(previous), IdsOf(NewTasks(Distinct(previous), candidates)))
  }

  method ReconcileTasks(previous: seq<Id>, candidates: seq<TaskItem>) returns (result: seq<Id>)
    ensures result == Remembered(previous, candidates)
  {
    result := Reconcile(previous, []);
    assert previous + [] == previous;
    ghost var known := result;
    var newTasks := NewTasks(result, candidates);
    ghost var ids := IdsOf(newTasks);
    var seen := set id | id in result;
    for i := 0 to |newTasks|
      invariant result == Added(known, ids[..i]) && forall id :: id in seen <==> id in result
    {
      assert ids[..i + 1][..i] == ids[..i];
      var id := newTasks[i].id;
      if id !in seen { seen, result := seen + {id}, result + [id]; }
    }
    assert ids[..|newTasks|] == ids;
  }

  ghost predicate NoRepeats(ids: seq<Id>) {
    forall i, j | 0 <= i < j < |ids| :: ids[i] != ids[j]
  }

  lemma {:induction false} AddedExtends(order: seq<Id>, ids: seq<Id>)
    requires NoRepeats(order)
    ensures order <= Added(order, ids) && NoRepeats(Added(order, ids))
    ensures forall id :: id in Added(order, ids) <==> id in order || id in ids
  {
    if ids != [] {
      AddedExtends(order, ids[..|ids| - 1]);
      assert ids == ids[..|ids| - 1] + [ids[|ids| - 1]];
    }
  }

  lemma {:induction false} TimesWithoutRepeats(order: seq<Id>, id: Id)
    requires NoRepeats(order)
    ensures Times(order, id) <= 1
  {
    if order != [] {
      TimesWithoutRepeats(order[..|order| - 1], id);
      TimesOfClean(order[..|order| - 1], id);
    }
  }

  lemma NewTasksAre(order: seq<Id>, candidates: seq<TaskItem>, t: TaskItem)
    ensures t in NewTasks(order, candidates) <==> t in candidates && t.id !in order
  {
    NewTaskCounts(candidates, order, t);
    assert t in NewTasks(order, candidates) <==> multiset(NewTasks(order, candidates))[t] > 0;
    assert t in candidates <==> multiset(candidates)[t] > 0;
  }

  /** A refresh only appends, remembers every listed task, and leaves an order in which sorting tasks is a permutation. */
  lemma ReconciledTasksSortSafely(previous: seq<Id>, candidates: seq<TaskItem>)
    ensures var order := Remembered(previous, candidates);
      && Distinct(previous) <= order && NoRepeats(order) && (Clean(previous) ==> previous <= order)
      && (forall t | t in candidates :: t.id in order)
      && (TasksSorted(candidates, order).Some? ==> multiset(TasksSorted(candidates, order).value) == multiset(candidates))
  {
    var start, order := Distinct(previous), Remembered(previous, candidates);
    var news := NewTasks(start, candidates);
    DistinctIsClean(previous);
    if Clean(previous) { CleanStays(previous); }
    AddedExtends(start, IdsOf(news));
    forall t | t in candidates ensures t.id in order && Times(order, t.id) <= 1 {
      TimesWithoutRepeats(order, t.id);
      NewTasksAre(start, candidates, t);
      if t in news { var k :| 0 <= k < |news| && news[k] == t; assert IdsOf(news)[k] in IdsOf(news); }
    }
    SortingTasksIsPermutation(candidates, order);
  }

  /** Two listed tasks stand as their ids are remembered; a task not remembered stands after, the older first. */
  predicate TaskBefore(order: seq<Id>, a: TaskItem, b: TaskItem) {
    if a.id in order && b.id in order then Place(order, a.id) < Place(order, b.id)
    else if a.id in order || b.id in order then a.id in order
    else Older(a, b)
  }

  lemma {:induction false} PlaceInFront(front: seq<Id>, back: seq<Id>, id: Id)
    ensures id in front ==> Place(front + back, id) == Place(front, id) < |front|
    ensures id !in front ==> Place(front + back, id) == |front| + Place(back, id)
  {
    if front != [] && front[0] != id {
      PlaceInFront(front[1..], back, id);
      assert (front + back)[1..] == front[1..] + back;
    } else if front == [] {
      assert front + back == back;
    }
  }

  lemma {:induction false} KnownInOrder(tasks: seq<TaskItem>, order: seq<Id>)
    requires NoRepeats(order)
    ensures var known := Known(tasks, order);
      && (forall t | t in known :: t.id in order)
      && forall i, j | 0 <= i < j < |known| :: Place(order, known[i].id) <= Place(order, known[j].id)
  {
    if order != [] {
      var init, last := order[..|order| - 1], order[|order| - 1];
      assert order == init + [last];
      KnownInOrder(tasks, init);
      StableSort.PickIsIn((t: TaskItem) => t.id == last, tasks);
      assert last !in init;
      forall id ensures (id in init ==> Place(order, id) == Place(init, id) < |init|) && (id == last ==> Place(order, id) == |init|) {
        PlaceInFront(init, [last], id);
      }
      var front, back := Known(tasks, init), TaskOf(tasks, last);
      assert Known(tasks, order) == front + back;
      hide *;
      forall t | t in back ensures t.id == last { }
      assert forall i | 0 <= i < |front| :: front[i] in front && front[i].id in init;
      assert forall i | 0 <= i < |back| :: back[i] in back && back[i].id == last;
    }
  }

  lemma OlderIsStrict()
    ensures StableSort.StrictWeak(Older)
  {
    forall a: TaskItem, b: TaskItem, c: TaskItem
      ensures (Older(a, b) ==> !Older(b, a)) && (Older(a, c) ==> Older(a, b) || Older(b, c))
    {
      StableSort.TextBeforeIsStrict(a.id, b.id, c.id);
    }
  }

  /** Sorted tasks follow the remembered order, then age. */
  lemma SortedTasksFollowOrder(tasks: seq<TaskItem>, order: seq<Id>)
    requires NoRepeats(order)
    ensures StableSort.Ordered((a: TaskItem, b: TaskItem) => TaskBefore(order, a, b), SortTasks(tasks, order))
  {
    var known, unknown := Known(tasks, order), NewTasks(order, tasks);
    KnownInOrder(tasks, order);
    OlderIsStrict();
    StableSort.SortOrders(Older, StableSort.Pick((t: TaskItem) => t.id !in order, tasks));
    forall t | t in unknown ensures t.id !in order { NewTasksAre(order, tasks, t); }
    hide Place, Older, Known;
    assert SortTasks(tasks, order) == known + unknown;
  }
}

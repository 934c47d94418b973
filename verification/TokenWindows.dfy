/**
 One file, read up to two different ends. Which record of a repeated request is
 chosen depends on the end, so what a day counts may depend on whether it is read
 alone or within a longer span. The lemmas below say exactly when it does.
 */
module TokenWindows {
  import opened Prelude
  import StableSort
  import opened TokenDeltas
  import opened TokenSamples

  /** The samples of a file that is read up to `end`. */
  function SamplesTo(candidates: seq<Candidate>, end: int): seq<Sample> {
    SortByDate(SamplesOf(Chosen(candidates, {}, end)))
  }

  /** Request records have keys, counter snapshots have none. */
  predicate Keyed(candidates: seq<Candidate>) {
    forall c | c in candidates :: c.key.Some? <==> c.sample.request
  }

  lemma {:induction false} AnnotatedAreKeyed(o: Owner, lines: seq<Line>, sources: Catalog, file: string)
    ensures Keyed(Annotate(o, lines, sources, file))
    decreases |lines|
  {
    if lines != [] {
      var next := NextOwner(o, lines[0].provenance, sources, file);
      AnnotatedAreKeyed(next, lines[1..], sources, file);
      assert Keyed(Offers(next, lines[0]));
      hide Offers;
    }
  }

  // ----- Both choices side by side ------------------------------------------------------------

  /** A candidate's sample, and whether the earlier and the later end choose it. */
  datatype Mark = Mark(sample: Sample, early: bool, late: bool)

  function Marks(candidates: seq<Candidate>, seenE: set<Key>, seenL: set<Key>, e: int, l: int): seq<Mark>
    decreases |candidates|
  {
    if candidates == [] then []
    else
      var c := candidates[0];
      [Mark(c.sample, Taken(c, seenE, e), Taken(c, seenL, l))] + Marks(candidates[1..], Note(c, seenE, e), Note(c, seenL, l), e, l)
  }

  /** The samples marked as early, and as late. */
  function Early(marks: seq<Mark>): seq<Sample> {
    if marks == [] then [] else (if marks[0].early then [marks[0].sample] else []) + Early(marks[1..])
  }

  function Late(marks: seq<Mark>): seq<Sample> {
    if marks == [] then [] else (if marks[0].late then [marks[0].sample] else []) + Late(marks[1..])
  }

  lemma {:induction false} EarlyIsPicked(marks: seq<Mark>)
    ensures Early(marks) == StableSort.Map((m: Mark) => m.sample, StableSort.Pick((m: Mark) => m.early, marks))
    ensures Late(marks) == StableSort.Map((m: Mark) => m.sample, StableSort.Pick((m: Mark) => m.late, marks))
  {
    if marks != [] {
      var head, tail := [marks[0]], marks[1..];
      assert marks == head + tail && head[..0] == [];
      EarlyIsPicked(tail);
      StableSort.PickParts((m: Mark) => m.early, head, tail);
      StableSort.PickParts((m: Mark) => m.late, head, tail);
      StableSort.PickSnoc((m: Mark) => m.early, [], marks[0]);
      StableSort.PickSnoc((m: Mark) => m.late, [], marks[0]);
      assert head == [] + head;
      hide StableSort.Pick;
    }
  }

  lemma {:induction false} MarksAreChosen(candidates: seq<Candidate>, seenE: set<Key>, seenL: set<Key>, e: int, l: int)
    ensures SamplesOf(Chosen(candidates, seenE, e)) == Early(Marks(candidates, seenE, seenL, e, l))
    ensures SamplesOf(Chosen(candidates, seenL, l)) == Late(Marks(candidates, seenE, seenL, e, l))
    decreases |candidates|
  {
    if candidates != [] {
      var c, tail := candidates[0], candidates[1..];
      var nextE, nextL := Note(c, seenE, e), Note(c, seenL, l);
      MarksAreChosen(tail, nextE, nextL, e, l);
      var marks := Marks(candidates, seenE, seenL, e, l);
      assert marks[0] == Mark(c.sample, Taken(c, seenE, e), Taken(c, seenL, l)) && marks[1..] == Marks(tail, nextE, nextL, e, l);
      assert Chosen(candidates, seenE, e) == (if Taken(c, seenE, e) then [c] else []) + Chosen(tail, nextE, e);
      assert Chosen(candidates, seenL, l) == (if Taken(c, seenL, l) then [c] else []) + Chosen(tail, nextL, l);
      hide Chosen, Marks, Taken, Note;
    }
  }

  /** A shift by one candidate, whatever the first one is. */
  lemma HiddenInTail(candidates: seq<Candidate>, seenE: set<Key>, seenL: set<Key>, e: int, l: int, j: nat)
    requires seenE <= seenL && e <= l && j + 1 < |candidates|
    ensures Hidden(candidates, seenE, seenL, e, l, j + 1)
      <==> Hidden(candidates[1..], Note(candidates[0], seenE, e), Note(candidates[0], seenL, l), e, l, j)
  {
    var head, tail := candidates[0], candidates[1..];
    if HeadHidden(head, seenE, seenL, e) {
      var key := candidates[j + 1].key;
      assert forall h: nat | h < j :: tail[h] == candidates[h + 1];
      assert forall h: nat | 0 < h < j + 1 :: candidates[h] == tail[h - 1];
      assert tail[j] == candidates[j + 1];
      if key.Some? { EarlierShifts(candidates, j, key.value, e, l); }
    } else {
      ShiftHidden(candidates, seenE, seenL, e, l, j);
    }
  }

  /** Only the early end takes the hidden records, only the late one takes what is dated after the early end. */
  lemma {:induction false} MarksMean(candidates: seq<Candidate>, seenE: set<Key>, seenL: set<Key>, e: int, l: int, j: nat)
    requires seenE <= seenL && e <= l && j < |candidates|
    ensures var marks := Marks(candidates, seenE, seenL, e, l);
      && |marks| == |candidates| && marks[j].sample == candidates[j].sample
      && (marks[j].early && !marks[j].late <==> Hidden(candidates, seenE, seenL, e, l, j))
      && (marks[j].early ==> marks[j].sample.date < e)
      && (marks[j].late && !marks[j].early ==> marks[j].sample.date >= e)
    decreases |candidates|
  {
    var c, tail := candidates[0], candidates[1..];
    if j == 0 {
      if tail != [] { MarksMean(tail, Note(c, seenE, e), Note(c, seenL, l), e, l, 0); }
    } else {
      MarksMean(tail, Note(c, seenE, e), Note(c, seenL, l), e, l, j - 1);
      HiddenInTail(candidates, seenE, seenL, e, l, j - 1);
      hide Hidden, Taken;
    }
  }

  // ----- The sorted marks ----------------------------------------------------------------------

  predicate EarlierMark(a: Mark, b: Mark) {
    a.sample.date < b.sample.date
  }

  function SortedMarks(candidates: seq<Candidate>, e: int, l: int): seq<Mark> {
    StableSort.Sort(EarlierMark, Marks(candidates, {}, {}, e, l))
  }

  lemma PickedThenSorted(marks: seq<Mark>, inClass: Mark -> bool)
    ensures SortByDate(StableSort.Map((m: Mark) => m.sample, StableSort.Pick(inClass, marks)))
      == StableSort.Map((m: Mark) => m.sample, StableSort.Pick(inClass, StableSort.Sort(EarlierMark, marks)))
  {
    StableSort.PickOfSort(EarlierMark, inClass, marks);
    StableSort.SortOfMap(Earlier, (m: Mark) => m.sample, EarlierMark, StableSort.Pick(inClass, marks));
  }

  lemma MarksAreSorted(candidates: seq<Candidate>, e: int, l: int)
    ensures SamplesTo(candidates, e) == Early(SortedMarks(candidates, e, l))
    ensures SamplesTo(candidates, l) == Late(SortedMarks(candidates, e, l))
  {
    var marks := Marks(candidates, {}, {}, e, l);
    MarksAreChosen(candidates, {}, {}, e, l);
    EarlyIsPicked(marks);
    EarlyIsPicked(StableSort.Sort(EarlierMark, marks));
    PickedThenSorted(marks, (m: Mark) => m.early);
    PickedThenSorted(marks, (m: Mark) => m.late);
    hide StableSort.Sort, StableSort.Pick, Early, Late, Marks, Chosen;
  }

  predicate IsHidden(m: Mark) {
    m.early && !m.late
  }

  /** Marks in order of date; hidden ones are requests before e, and only late ones are not before e. */
  ghost predicate InOrder(marks: seq<Mark>, e: int) {
    && (forall i, j | 0 <= i < j < |marks| :: marks[i].sample.date <= marks[j].sample.date)
    && (forall m | m in marks :: IsHidden(m) ==> m.sample.request && m.sample.date < e)
    && (forall m | m in marks :: m.late && !m.early ==> m.sample.date >= e)
  }

  lemma {:induction false} MarksLength(candidates: seq<Candidate>, seenE: set<Key>, seenL: set<Key>, e: int, l: int)
    ensures |Marks(candidates, seenE, seenL, e, l)| == |candidates|
    decreases |candidates|
  {
    if candidates != [] { MarksLength(candidates[1..], Note(candidates[0], seenE, e), Note(candidates[0], seenL, l), e, l); }
  }

  /** What a mark says, and where it comes from. */
  ghost predicate Says(candidates: seq<Candidate>, e: int, l: int, m: Mark, j: nat) {
    && j < |candidates| && m.sample == candidates[j].sample
    && (IsHidden(m) <==> Hidden(candidates, {}, {}, e, l, j))
  }

  lemma MarkFacts(candidates: seq<Candidate>, e: int, l: int, m: Mark) returns (j: nat)
    requires Keyed(candidates) && e <= l && m in Marks(candidates, {}, {}, e, l)
    ensures Says(candidates, e, l, m, j)
    ensures IsHidden(m) ==> m.sample.request && m.sample.date < e
    ensures m.late && !m.early ==> m.sample.date >= e
  {
    MarksLength(candidates, {}, {}, e, l);
    j :| 0 <= j < |candidates| && Marks(candidates, {}, {}, e, l)[j] == m;
    MarksMean(candidates, {}, {}, e, l, j);
    hide Marks;
    assert candidates[j] in candidates;
  }

  lemma SameMarks(candidates: seq<Candidate>, e: int, l: int)
    ensures forall m :: m in SortedMarks(candidates, e, l) <==> m in Marks(candidates, {}, {}, e, l)
    ensures forall i, j | 0 <= i < j < |SortedMarks(candidates, e, l)| ::
      SortedMarks(candidates, e, l)[i].sample.date <= SortedMarks(candidates, e, l)[j].sample.date
  {
    var marks, sorted := Marks(candidates, {}, {}, e, l), SortedMarks(candidates, e, l);
    StableSort.SortKeepsAll(EarlierMark, marks);
    StableSort.SortOrders(EarlierMark, marks);
    hide StableSort.Sort, Marks;
    forall m ensures m in sorted <==> m in marks { assert m in multiset(sorted) <==> m in multiset(marks); }
    assert forall i, j | 0 <= i < j < |sorted| :: !EarlierMark(sorted[j], sorted[i]);
  }

  lemma SortedMarksInOrder(candidates: seq<Candidate>, e: int, l: int)
    requires Keyed(candidates) && e <= l
    ensures InOrder(SortedMarks(candidates, e, l), e)
  {
    SameMarks(candidates, e, l);
    hide SortedMarks, Marks;
    forall m | m in SortedMarks(candidates, e, l)
      ensures (IsHidden(m) ==> m.sample.request && m.sample.date < e) && (m.late && !m.early ==> m.sample.date >= e)
    {
      var _ := MarkFacts(candidates, e, l, m);
    }
  }

  // ----- What the day counts -----------------------------------------------------------------------

  /** A hidden record of the file's own session: read to the early end only, it counts. */
  predicate IsVisible(m: Mark) {
    IsHidden(m) && !m.sample.inherited
  }

  lemma {:induction false} NothingAfter(c: Counter, samples: seq<Sample>, start: int, end: int)
    requires forall s | s in samples :: s.date >= end
    ensures Deltas(c, samples, start, end) == [] && RequestDeltas(samples, start, end) == []
    decreases |samples|
  {
    if samples != [] {
      assert samples[0] in samples;
      NothingAfter(Advance(c, samples[0], start, end), samples[1..], start, end);
    }
  }

  lemma {:induction false} AllAfter(marks: seq<Mark>, e: int)
    requires forall m | m in marks :: m.sample.date >= e
    ensures forall s | s in Early(marks) || s in Late(marks) :: s.date >= e
  {
    if marks != [] {
      assert marks[0] in marks && forall m | m in marks[1..] :: m in marks;
      AllAfter(marks[1..], e);
    }
  }

  /** From the end on, neither choice counts anything. */
  lemma NoneLeft(marks: seq<Mark>, c: Counter, d: Counter, b: int, e: int)
    requires InOrder(marks, e) && marks != [] && marks[0].sample.date >= e
    ensures Deltas(c, Early(marks), b, e) == [] == Deltas(d, Late(marks), b, e)
    ensures RequestDeltas(Early(marks), b, e) == [] == RequestDeltas(Late(marks), b, e)
  {
    assert forall m | m in marks :: m.sample.date >= e;
    AllAfter(marks, e);
    NothingAfter(c, Early(marks), b, e);
    NothingAfter(d, Late(marks), b, e);
  }

  lemma TailInOrder(marks: seq<Mark>, e: int)
    requires InOrder(marks, e) && marks != []
    ensures InOrder(marks[1..], e)
    ensures forall m :: m in marks <==> m == marks[0] || m in marks[1..]
  {
    assert marks == [marks[0]] + marks[1..];
  }

  lemma OneMarkMore(marks: seq<Mark>, c: Counter, b: int, e: int)
    requires marks != []
    ensures var s, m := marks[0].sample, marks[0];
      && Deltas(c, Early(marks), b, e)
        == (if m.early then Emitted(c, s, b, e) else []) + Deltas(if m.early then Advance(c, s, b, e) else c, Early(marks[1..]), b, e)
      && Deltas(c, Late(marks), b, e)
        == (if m.late then Emitted(c, s, b, e) else []) + Deltas(if m.late then Advance(c, s, b, e) else c, Late(marks[1..]), b, e)
  {
    var m := marks[0];
    if m.early { assert Early(marks)[1..] == Early(marks[1..]); }
    if m.late { assert Late(marks)[1..] == Late(marks[1..]); }
    hide Emitted, Advance;
    assert forall x: seq<Sample> :: [] + x == x;
    assert forall x: seq<Delta> :: [] + x == x;
  }

  /** Without visible records both choices count the same. */
  lemma {:induction false} SameWithoutVisible(marks: seq<Mark>, c: Counter, b: int, e: int)
    requires InOrder(marks, e) && forall m | m in marks :: !IsVisible(m)
    ensures Deltas(c, Early(marks), b, e) == Deltas(c, Late(marks), b, e)
  {
    if marks != [] {
      var m := marks[0];
      if m.sample.date >= e {
        NoneLeft(marks, c, c, b, e);
      } else {
        TailInOrder(marks, e);
        OneMarkMore(marks, c, b, e);
        assert m in marks;
        SameWithoutVisible(marks[1..], if m.early then Advance(c, m.sample, b, e) else c, b, e);
      }
    }
  }

  function VisibleOnDay(marks: seq<Mark>, b: int): nat {
    if marks == [] then 0 else (if IsVisible(marks[0]) && b <= marks[0].sample.date then 1 else 0) + VisibleOnDay(marks[1..], b)
  }

  lemma {:induction false} VisibleCounts(marks: seq<Mark>, b: int)
    ensures VisibleOnDay(marks, b) > 0 <==> exists m :: m in marks && IsVisible(m) && b <= m.sample.date
  {
    if marks != [] {
      VisibleCounts(marks[1..], b);
      assert marks == [marks[0]] + marks[1..];
      assert marks[0] in marks;
    }
  }

  /** The early choice counts the same requests, and in addition the visible ones of the day. */
  lemma {:induction false} RequestsDiffer(marks: seq<Mark>, b: int, e: int)
    requires InOrder(marks, e)
    ensures var early, late := RequestDeltas(Early(marks), b, e), RequestDeltas(Late(marks), b, e);
      |early| == |late| + VisibleOnDay(marks, b) && (VisibleOnDay(marks, b) == 0 ==> early == late)
  {
    if marks != [] {
      var m := marks[0];
      TailInOrder(marks, e);
      RequestsDiffer(marks[1..], b, e);
      if m.sample.date >= e {
        NoneLeft(marks, FRESH, FRESH, b, e);
        VisibleCounts(marks, b);
        assert forall x | x in marks :: x.sample.date >= e;
      } else {
        assert m in marks;
        RequestsOneMore(marks, b, e);
        hide InOrder;
      }
    }
  }

  function RequestDelta(s: Sample, b: int, e: int): seq<Delta> {
    if s.request && !s.inherited && b <= s.date < e then [Delta(s.date, s.total, BreakdownDelta(s, None, s.total), true)] else []
  }

  lemma RequestsSplit(s: Sample, rest: seq<Sample>, b: int, e: int)
    ensures RequestDeltas([s] + rest, b, e) == RequestDelta(s, b, e) + RequestDeltas(rest, b, e)
  {
    hide BreakdownDelta;
    assert ([s] + rest)[1..] == rest && ([s] + rest)[0] == s;
  }

  lemma RequestsOneMore(marks: seq<Mark>, b: int, e: int)
    requires marks != []
    ensures var m := marks[0];
      var one := RequestDelta(m.sample, b, e);
      && |one| == (if m.sample.request && !m.sample.inherited && b <= m.sample.date < e then 1 else 0)
      && RequestDeltas(Early(marks), b, e) == (if m.early then one else []) + RequestDeltas(Early(marks[1..]), b, e)
      && RequestDeltas(Late(marks), b, e) == (if m.late then one else []) + RequestDeltas(Late(marks[1..]), b, e)
  {
    var m := marks[0];
    RequestsSplit(m.sample, Early(marks[1..]), b, e);
    RequestsSplit(m.sample, Late(marks[1..]), b, e);
    hide RequestDeltas, BreakdownDelta;
    assert Early(marks) == (if m.early then [m.sample] else []) + Early(marks[1..]);
    assert Late(marks) == (if m.late then [m.sample] else []) + Late(marks[1..]);
    hide Early, Late;
    if !m.early { assert [] + Early(marks[1..]) == Early(marks[1..]); }
    if !m.late { assert [] + Late(marks[1..]) == Late(marks[1..]); }
  }

  function Requests(deltas: seq<Delta>): seq<Delta> {
    if deltas == [] then [] else (if deltas[0].request then [deltas[0]] else []) + Requests(deltas[1..])
  }

  lemma {:induction false} RequestsInParts(x: seq<Delta>, y: seq<Delta>)
    ensures Requests(x + y) == Requests(x) + Requests(y)
  {
    if x == [] {
      assert x + y == y;
    } else {
      var head := if x[0].request then [x[0]] else [];
      assert (x + y)[1..] == x[1..] + y && (x + y)[0] == x[0];
      RequestsInParts(x[1..], y);
      assert Requests(x + y) == head + Requests(x[1..] + y) && Requests(x) == head + Requests(x[1..]);
      hide Requests;
      Assoc(head, Requests(x[1..]), Requests(y));
    }
  }

  lemma {:induction false} AllAreRequests(deltas: seq<Delta>)
    requires OnlyRequests(deltas)
    ensures Requests(deltas) == deltas
  {
    if deltas != [] {
      assert deltas[0] in deltas;
      AllAreRequests(deltas[1..]);
    }
  }

  /** The requests that are counted do not depend on the counters. */
  lemma {:induction false} RequestsAreCounted(c: Counter, samples: seq<Sample>, start: int, end: int)
    ensures Requests(Deltas(c, samples, start, end)) == RequestDeltas(samples, start, end)
    decreases |samples|
  {
    if samples != [] {
      var emitted, rest := Emitted(c, samples[0], start, end), Deltas(Advance(c, samples[0], start, end), samples[1..], start, end);
      RequestsAreCounted(Advance(c, samples[0], start, end), samples[1..], start, end);
      RequestsInParts(emitted, rest);
      assert emitted != [] ==> emitted[1..] == [];
      hide Deltas, Advance;
    }
  }

  lemma {:induction false} RequestDeltasOnly(samples: seq<Sample>, start: int, end: int)
    ensures OnlyRequests(RequestDeltas(samples, start, end))
  {
    if samples != [] { RequestDeltasOnly(samples[1..], start, end); }
  }

  /** A visible record before the day leaves only requests to count. */
  lemma {:induction false} VisibleStopsCounters(marks: seq<Mark>, c: Counter, b: int, e: int)
    requires InOrder(marks, e) && b <= e && exists m :: m in marks && IsVisible(m) && m.sample.date < b
    ensures OnlyRequests(Deltas(c, Early(marks), b, e))
  {
    var m := marks[0];
    TailInOrder(marks, e);
    OneMarkMore(marks, c, b, e);
    assert m in marks;
    assert m.sample.date < b;
    if IsVisible(m) {
      RequestsReplaceCounters(c.previous, Early(marks[1..]), b, e);
      RequestDeltasOnly(Early(marks[1..]), b, e);
    } else {
      VisibleStopsCounters(marks[1..], if m.early then Advance(c, m.sample, b, e) else c, b, e);
    }
  }

  /** Both choices count the same on the day, exactly when the visible records make no difference. */
  lemma SameOnDay(marks: seq<Mark>, b: int, e: int)
    requires InOrder(marks, e) && b <= e
    ensures Deltas(FRESH, Early(marks), b, e) == Deltas(FRESH, Late(marks), b, e)
      <==> && (forall m | m in marks && IsVisible(m) :: m.sample.date < b)
           && ((exists m :: m in marks && IsVisible(m) && m.sample.date < b) ==> OnlyRequests(Deltas(FRESH, Late(marks), b, e)))
  {
    var early, late := Deltas(FRESH, Early(marks), b, e), Deltas(FRESH, Late(marks), b, e);
    RequestsAreCounted(FRESH, Early(marks), b, e);
    RequestsAreCounted(FRESH, Late(marks), b, e);
    RequestsDiffer(marks, b, e);
    VisibleCounts(marks, b);
    if m :| m in marks && IsVisible(m) && b <= m.sample.date {
    } else if m :| m in marks && IsVisible(m) && m.sample.date < b {
      VisibleStopsCounters(marks, FRESH, b, e);
      AllAreRequests(early);
      if OnlyRequests(late) { AllAreRequests(late); }
    } else {
      SameWithoutVisible(marks, FRESH, b, e);
    }
  }

  // ----- One file, two ends ---------------------------------------------------------------------------

  /** An own record dated on the day is chosen only when the file is read no further than the day. */
  ghost predicate HidesOnDay(candidates: seq<Candidate>, b: int, e: int, l: int) {
    exists j: nat :: Hidden(candidates, {}, {}, e, l, j) && !candidates[j].sample.inherited && b <= candidates[j].sample.date
  }

  /** The same of a record dated before the day. */
  ghost predicate HidesBefore(candidates: seq<Candidate>, b: int, e: int, l: int) {
    exists j: nat :: Hidden(candidates, {}, {}, e, l, j) && !candidates[j].sample.inherited && candidates[j].sample.date < b
  }

  lemma HiddenAreMarked(candidates: seq<Candidate>, b: int, e: int, l: int)
    requires Keyed(candidates) && e <= l
    ensures HidesOnDay(candidates, b, e, l) <==> exists m :: m in SortedMarks(candidates, e, l) && IsVisible(m) && b <= m.sample.date
    ensures HidesBefore(candidates, b, e, l) <==> exists m :: m in SortedMarks(candidates, e, l) && IsVisible(m) && m.sample.date < b
  {
    SameMarks(candidates, e, l);
    hide SortedMarks;
    var marks := Marks(candidates, {}, {}, e, l);
    forall m | m in marks && IsVisible(m)
      ensures exists j: nat :: Hidden(candidates, {}, {}, e, l, j) && candidates[j].sample == m.sample
    {
      hide Hidden;
      var j := MarkFacts(candidates, e, l, m);
    }
    forall j: nat | Hidden(candidates, {}, {}, e, l, j)
      ensures exists m :: m in marks && IsHidden(m) && m.sample == candidates[j].sample
    {
      MarksMean(candidates, {}, {}, e, l, j);
      hide Hidden, Marks;
      assert marks[j] in marks;
    }
    hide Hidden, Marks;
  }

  /** Each own sample of the window that counts is a request. */
  ghost predicate NoCounterCounts(samples: seq<Sample>, b: int, e: int) {
    forall i: nat :: Counts(FRESH, samples, i, b, e) ==> samples[i].request
  }

  ghost predicate NothingCounts(samples: seq<Sample>, b: int, e: int) {
    forall i: nat :: !Counts(FRESH, samples, i, b, e)
  }

  /**
   On one day, what a file counts when it is read to the end of the day is what it
   counts when read further, if and only if no own record of the day is hidden by one
   of the same request dated later, and, if an own record is hidden before the day, no
   counter of the day counts in the longer reading.
   */
  lemma EndMattersForDay(candidates: seq<Candidate>, b: int, e: int, l: int)
    requires Keyed(candidates) && b <= e <= l
    ensures Deltas(FRESH, SamplesTo(candidates, e), b, e) == Deltas(FRESH, SamplesTo(candidates, l), b, e)
      <==> && !HidesOnDay(candidates, b, e, l)
           && (HidesBefore(candidates, b, e, l) ==> NoCounterCounts(SamplesTo(candidates, l), b, e))
  {
    WhatCounts(FRESH, SamplesTo(candidates, l), b, e);
    MarksAreSorted(candidates, e, l);
    SortedMarksInOrder(candidates, e, l);
    SameOnDay(SortedMarks(candidates, e, l), b, e);
    HiddenAreMarked(candidates, b, e, l);
    hide HidesOnDay, HidesBefore, SortedMarks, InOrder, OnlyRequests, Deltas, Counts, SamplesTo;
  }

  // ----- Session files -----------------------------------------------------------------------------------

  /** `identity` is the session that the file's name tells. */
  datatype File = File(identity: string, lines: seq<Line>, modified: int)

  function Offered(file: File, sources: Catalog): seq<Candidate> {
    Annotate(UNKNOWN, file.lines, sources, file.identity)
  }

  /** What the file counts in a window; it is read up to the window's end. */
  function LineDeltas(file: File, sources: Catalog, start: int, end: int): seq<Delta> {
    Deltas(FRESH, SamplesTo(Offered(file, sources), end), start, end)
  }

  /** A file that was not modified since the window began is passed over. */
  function FileDeltas(file: File, sources: Catalog, start: int, end: int): seq<Delta> {
    if file.modified < start then [] else LineDeltas(file, sources, start, end)
  }

  /** Neither hidden records of the window, nor earlier ones that would stop its counters. */
  ghost predicate EndIsIrrelevant(file: File, sources: Catalog, b: int, e: int, l: int) {
    && !HidesOnDay(Offered(file, sources), b, e, l)
    && (HidesBefore(Offered(file, sources), b, e, l) ==> NoCounterCounts(SamplesTo(Offered(file, sources), l), b, e))
  }

  lemma SamplesAreSorted(candidates: seq<Candidate>, end: int)
    ensures Sorted(SamplesTo(candidates, end))
  {
    SortIsStable(SamplesOf(Chosen(candidates, {}, end)), 0);
  }

  /** Over the lines of a file, adjoining windows add up if and only if the middle is an irrelevant end of the first. */
  lemma LineWindowsAdd(file: File, sources: Catalog, a: int, b: int, c: int)
    requires a <= b <= c
    ensures LineDeltas(file, sources, a, c) == LineDeltas(file, sources, a, b) + LineDeltas(file, sources, b, c)
      <==> EndIsIrrelevant(file, sources, a, b, c)
  {
    var offered := Offered(file, sources);
    AnnotatedAreKeyed(UNKNOWN, file.lines, sources, file.identity);
    EndMattersForDay(offered, a, b, c);
    SamplesAreSorted(offered, c);
    WindowsAdd(SamplesTo(offered, c), a, b, c);
    var first, second, rest := LineDeltas(file, sources, a, b), Deltas(FRESH, SamplesTo(offered, c), a, b), LineDeltas(file, sources, b, c);
    assert LineDeltas(file, sources, a, c) == second + rest;
    hide Deltas, HidesOnDay, HidesBefore, NoCounterCounts, SamplesTo, Offered;
    if first + rest == second + rest {
      assert |first| == |second|;
      assert (first + rest)[..|first|] == first && (second + rest)[..|second|] == second;
    }
  }

  /**
   A day read alone counts what the history of a longer span counts for it, if and
   only if its end is irrelevant, or, when the file was not modified since the day
   began, it was not since the span began or none of its samples of the day counts.
   */
  lemma DayReadAlone(file: File, sources: Catalog, start: int, b: int, e: int, end: int)
    requires start <= b <= e <= end
    ensures var day := Within(FileDeltas(file, sources, start, end), b, e);
      FileDeltas(file, sources, b, e) == day
      <==> if file.modified < b then file.modified < start || NothingCounts(SamplesTo(Offered(file, sources), end), b, e)
           else EndIsIrrelevant(file, sources, b, e, end)
  {
    var offered := Offered(file, sources);
    AnnotatedAreKeyed(UNKNOWN, file.lines, sources, file.identity);
    EndMattersForDay(offered, b, e, end);
    SamplesAreSorted(offered, end);
    NarrowerWindow(FRESH, SamplesTo(offered, end), start, b, e, end);
    WhatCounts(FRESH, SamplesTo(offered, end), b, e);
    assert Within([], b, e) == [];
    hide Deltas, HidesOnDay, HidesBefore, NoCounterCounts, SamplesTo, Offered, Within, Counts;
  }

  const USAGE := Sample(15, 40, None, false, true)

  /** A request recorded with a date of the next day, and again, later in the file, with one of the day. */
  const REPEATED := File("thread", [Line(Record("thread", "response", Some(USAGE)), None),
                                    Line(Record("thread", "response", Some(USAGE.(date := 5))), None)], 30)

  /** Read alone, the day counts the tokens of the request; in the history of both days it counts nothing. */
  lemma DayCanDiffer()
    ensures FileDeltas(REPEATED, map[], 0, 10) == [Delta(5, 40, None, true)]
    ensures Within(FileDeltas(REPEATED, map[], 0, 20), 0, 10) == []
    ensures LineDeltas(REPEATED, map[], 0, 20) != LineDeltas(REPEATED, map[], 0, 10) + LineDeltas(REPEATED, map[], 10, 20)
  {
    var key := Some(("thread", "response"));
    var late, early := Candidate(key, USAGE), Candidate(key, USAGE.(date := 5));
    var lines := REPEATED.lines;
    assert lines[1..] == [lines[1]] && lines[1..][1..] == [];
    var owner := NextOwner(UNKNOWN, lines[0].provenance, map[], "thread");
    assert Annotate(owner, lines[1..], map[], "thread") == [early];
    assert Annotate(UNKNOWN, lines, map[], "thread") == [late, early];
    ReadTo([late, early]);
    OneSample(early.sample, 0, 10);
    OneSample(late.sample, 0, 20);
    OneSample(late.sample, 10, 20);
    hide SamplesTo, Deltas, Annotate;
    assert Within([Delta(15, 40, None, true)], 0, 10) == [];
  }

  lemma OneSample(s: Sample, start: int, end: int)
    requires s.request && !s.inherited && s.breakdown.None? && start <= s.date < end
    ensures Deltas(FRESH, [s], start, end) == [Delta(s.date, s.total, None, true)]
  {
    assert [s][1..] == [];
  }

  lemma ReadTo(candidates: seq<Candidate>)
    requires candidates == [Candidate(Some(("thread", "response")), USAGE), Candidate(Some(("thread", "response")), USAGE.(date := 5))]
    ensures SamplesTo(candidates, 10) == [USAGE.(date := 5)] && SamplesTo(candidates, 20) == [USAGE]
  {
    assert candidates[1..] == [candidates[1]] && candidates[1..][1..] == [];
    var key := ("thread", "response");
    assert Note(candidates[0], {}, 10) == {} && Note(candidates[0], {}, 20) == {key};
    assert Chosen([candidates[1]], {}, 10) == [candidates[1]] by { assert [candidates[1]][1..] == []; }
    assert Chosen([candidates[1]], {key}, 20) == [] by { assert [candidates[1]][1..] == []; }
    assert Chosen(candidates, {}, 10) == [] + Chosen(candidates[1..], {}, 10);
    assert Chosen(candidates, {}, 20) == [candidates[0]] + Chosen(candidates[1..], {key}, 20);
    StableSort.SortedStays(Earlier, [USAGE.(date := 5)]);
    StableSort.SortedStays(Earlier, [USAGE]);
  }
}

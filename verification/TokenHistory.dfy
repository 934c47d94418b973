/**
 The saved token history: one record a day, merged with each new observation.
 Dates are numbered in their order; paths, permissions and encoding are left out,
 but the file may be missing or damaged, and writing it may fail.
 */
module TokenHistory {
  import opened Prelude
  import StableSort
  import opened TokenDeltas

  /** A date, by its number in the calendar. */
  datatype Day = Day(number: int)

  datatype Bucket = Bucket(day: Day, tokens: int, breakdown: Option<Breakdown>)

  datatype Record = Record(date: Day, total: int, regular: Option<int>, cached: Option<int>, output: Option<int>, seenAt: int)

  datatype Document = Document(protocol: string, updatedAt: int, days: seq<Record>)

  datatype File = Absent | Unreadable | Stored(document: Document)

  datatype Error = Corrupted | DuplicateDate | WriteFailed | AttributesFailed

  datatype Result<T> = Ok(value: T) | Err(error: Error)

  const PROTOCOL := "codex-local-token-history-v2"

  // ----- Buckets and records ------------------------------------------------------

  predicate IsValid(b: Bucket) {
    b.tokens >= 0
    && match b.breakdown
       case None => true
       case Some(p) => p.regular >= 0 && p.cached >= 0 && p.output >= 0 && p.Total() == b.tokens
  }

  predicate IsValidRecord(r: Record) {
    && r.total >= 0
    && ((r.regular.None? && r.cached.None? && r.output.None?)
        || (r.regular.Some? && r.cached.Some? && r.output.Some?
            && r.regular.value >= 0 && r.cached.value >= 0 && r.output.value >= 0
            && r.regular.value + r.cached.value + r.output.value == r.total))
  }

  function ToRecord(b: Bucket, at: int): Record {
    match b.breakdown
    case None => Record(b.day, b.tokens, None, None, None, at)
    case Some(p) => Record(b.day, b.tokens, Some(p.regular), Some(p.cached), Some(p.output), at)
  }

  function ToBucket(r: Record): Bucket {
    Bucket(r.date, r.total,
      if r.regular.Some? && r.cached.Some? && r.output.Some?
      then Some(Breakdown(r.regular.value, r.cached.value, r.output.value)) else None)
  }

  /** What is saved has each number in its field, passes the check on loading, and reads back as the same day. */
  lemma RecordRoundTrip(b: Bucket, at: int)
    ensures var r := ToRecord(b, at);
      && r.date == b.day && r.total == b.tokens && r.seenAt == at
      && (b.breakdown.None? ==> r.regular.None? && r.cached.None? && r.output.None?)
      && (b.breakdown.Some? ==>
            r.regular == Some(b.breakdown.value.regular) && r.cached == Some(b.breakdown.value.cached) && r.output == Some(b.breakdown.value.output))
    ensures ToBucket(ToRecord(b, at)) == b
    ensures IsValid(b) <==> IsValidRecord(ToRecord(b, at))
  {
  }

  lemma ValidRecordReadsValid(r: Record)
    requires IsValidRecord(r)
    ensures IsValid(ToBucket(r)) && forall at :: ToRecord(ToBucket(r), at) == r.(seenAt := at)
  {
  }

  // ----- The order of observations ----------------------------------------------------

  /** More tokens rank higher; of the same number, the one with a breakdown. */
  predicate Below(a: Bucket, b: Bucket) {
    a.tokens < b.tokens || (a.tokens == b.tokens && a.breakdown.None? && b.breakdown.Some?)
  }

  predicate SameRank(a: Bucket, b: Bucket) {
    a.tokens == b.tokens && a.breakdown.Some? == b.breakdown.Some?
  }

  function MergeOne(byDate: map<Day, Record>, candidate: Bucket, at: int): map<Day, Record> {
    if !IsValid(candidate) then byDate
    else if candidate.day !in byDate || Below(ToBucket(byDate[candidate.day]), candidate)
    then byDate[candidate.day := ToRecord(candidate, at)]
    else byDate[candidate.day := ToRecord(ToBucket(byDate[candidate.day]), at)]
  }

  function MergeAll(byDate: map<Day, Record>, observed: seq<Bucket>, at: int): map<Day, Record> {
    if observed == [] then byDate
    else MergeOne(MergeAll(byDate, observed[..|observed| - 1], at), observed[|observed| - 1], at)
  }

  /** Each record is kept under its own date and passes the check. */
  predicate Sound(byDate: map<Day, Record>) {
    forall day | day in byDate :: byDate[day].date == day && IsValidRecord(byDate[day])
  }

  function At(byDate: map<Day, Record>, day: Day): Option<Bucket> {
    if day in byDate then Some(ToBucket(byDate[day])) else None
  }

  predicate Offered(observed: seq<Bucket>, day: Day, bucket: Bucket) {
    bucket in observed && bucket.day == day && IsValid(bucket)
  }

  lemma OneMergeIsSound(byDate: map<Day, Record>, candidate: Bucket, at: int)
    requires Sound(byDate)
    ensures Sound(MergeOne(byDate, candidate, at))
  {
    RecordRoundTrip(candidate, at);
    if candidate.day in byDate {
      ValidRecordReadsValid(byDate[candidate.day]);
      RecordRoundTrip(ToBucket(byDate[candidate.day]), at);
    }
    hide IsValid, IsValidRecord, Below;
  }

  lemma OneMerge(byDate: map<Day, Record>, candidate: Bucket, at: int, day: Day)
    ensures var before, after := At(byDate, day), At(MergeOne(byDate, candidate, at), day);
      if !IsValid(candidate) || candidate.day != day then after == before
      else after == Some(if before.None? || Below(before.value, candidate) then candidate else before.value)
  {
    RecordRoundTrip(candidate, at);
    if candidate.day in byDate { RecordRoundTrip(ToBucket(byDate[candidate.day]), at); }
    hide IsValid, Below, ToBucket, ToRecord;
  }

  lemma {:induction false} MergeIsSound(byDate: map<Day, Record>, observed: seq<Bucket>, at: int)
    requires Sound(byDate)
    ensures Sound(MergeAll(byDate, observed, at))
  {
    if observed != [] {
      MergeIsSound(byDate, observed[..|observed| - 1], at);
      OneMergeIsSound(MergeAll(byDate, observed[..|observed| - 1], at), observed[|observed| - 1], at);
    }
  }

  /**
   The join of a day: what was saved or one of the valid observations, and none
   of them ranks higher.
   */
  lemma {:induction false} MergeIsJoin(byDate: map<Day, Record>, observed: seq<Bucket>, at: int, day: Day)
    requires Sound(byDate)
    ensures var before, after := At(byDate, day), At(MergeAll(byDate, observed, at), day);
      && (after.Some? <==> before.Some? || exists b :: Offered(observed, day, b))
      && (after.Some? ==>
            && (after == before || Offered(observed, day, after.value))
            && (before.Some? ==> !Below(after.value, before.value))
            && (forall b | Offered(observed, day, b) :: !Below(after.value, b)))
  {
    if observed != [] {
      var init, last := observed[..|observed| - 1], observed[|observed| - 1];
      assert observed == init + [last];
      MergeIsSound(byDate, init, at);
      MergeIsJoin(byDate, init, at, day);
      OneMerge(MergeAll(byDate, init, at), last, at, day);
      assert forall b | Offered(observed, day, b) :: b == last || Offered(init, day, b);
      assert forall b | Offered(init, day, b) :: Offered(observed, day, b);
      assert IsValid(last) && last.day == day ==> Offered(observed, day, last);
      hide MergeOne, IsValid, ToBucket;
    }
  }

  /** A day that was observed says when, whether or not its record was replaced. */
  lemma {:induction false} ObservedDaysAreDated(byDate: map<Day, Record>, observed: seq<Bucket>, at: int, day: Day)
    ensures var after := MergeAll(byDate, observed, at);
      if exists b :: Offered(observed, day, b) then day in after && after[day].seenAt == at
      else (day in after <==> day in byDate) && (day in byDate ==> after[day] == byDate[day])
  {
    if observed != [] {
      var init, last := observed[..|observed| - 1], observed[|observed| - 1];
      assert observed == init + [last];
      ObservedDaysAreDated(byDate, init, at, day);
      assert forall b | Offered(init, day, b) :: Offered(observed, day, b);
      assert forall b | Offered(observed, day, b) :: b == last || Offered(init, day, b);
      assert IsValid(last) && last.day == day ==> Offered(observed, day, last);
      MergeOneDates(MergeAll(byDate, init, at), last, at, day);
      hide MergeOne, IsValid;
    }
  }

  lemma MergeOneDates(byDate: map<Day, Record>, candidate: Bucket, at: int, day: Day)
    ensures var after := MergeOne(byDate, candidate, at);
      if IsValid(candidate) && candidate.day == day then day in after && after[day].seenAt == at
      else (day in after <==> day in byDate) && (day in byDate ==> after[day] == byDate[day])
  {
    hide IsValid, Below;
  }

  /** No day is lost, no total falls, and a breakdown goes only when the total rises. */
  lemma NothingIsLost(byDate: map<Day, Record>, observed: seq<Bucket>, at: int, day: Day)
    requires Sound(byDate) && day in byDate
    ensures var before, after := At(byDate, day), At(MergeAll(byDate, observed, at), day);
      && after.Some? && after.value.tokens >= before.value.tokens
      && (before.value.breakdown.Some? && after.value.breakdown.None? ==> after.value.tokens > before.value.tokens)
  {
    MergeIsJoin(byDate, observed, at, day);
    hide MergeAll;
  }

  /** The same observations in another order, or repeated, give the same rank on every day. */
  lemma OrderKeepsRank(byDate: map<Day, Record>, a: seq<Bucket>, b: seq<Bucket>, at: int, day: Day)
    requires Sound(byDate) && forall x :: x in a <==> x in b
    ensures var x, y := At(MergeAll(byDate, a, at), day), At(MergeAll(byDate, b, at), day);
      (x.Some? <==> y.Some?) && (x.Some? ==> SameRank(x.value, y.value))
  {
    MergeIsJoin(byDate, a, at, day);
    MergeIsJoin(byDate, b, at, day);
    assert forall x :: Offered(a, day, x) <==> Offered(b, day, x);
    hide MergeAll;
  }

  /** A valid observation of the day of the highest rank, and above what was saved. */
  ghost predicate IsTop(byDate: map<Day, Record>, observed: seq<Bucket>, day: Day, x: Bucket) {
    && Offered(observed, day, x) && (forall b | Offered(observed, day, b) :: !Below(x, b))
    && (At(byDate, day).Some? ==> Below(At(byDate, day).value, x))
  }

  /** Two of them that are told apart by their breakdowns. */
  ghost predicate HasRivals(byDate: map<Day, Record>, observed: seq<Bucket>, day: Day) {
    exists x, y :: IsTop(byDate, observed, day, x) && IsTop(byDate, observed, day, y) && x.breakdown != y.breakdown
  }

  lemma {:induction false} MergeInParts(byDate: map<Day, Record>, a: seq<Bucket>, b: seq<Bucket>, at: int)
    ensures MergeAll(byDate, a + b, at) == MergeAll(MergeAll(byDate, a, at), b, at)
  {
    if b == [] {
      assert a + b == a;
    } else {
      assert (a + b)[..|a + b| - 1] == a + b[..|b| - 1];
      MergeInParts(byDate, a, b[..|b| - 1], at);
    }
  }

  /** What the day becomes: what was saved, when nothing ranks above it, and otherwise a top observation. */
  lemma MergedIsTop(byDate: map<Day, Record>, observed: seq<Bucket>, at: int, day: Day)
    requires Sound(byDate)
    ensures var before, after := At(byDate, day), At(MergeAll(byDate, observed, at), day);
      if exists b :: Offered(observed, day, b) && (before.Some? ==> Below(before.value, b))
      then after.Some? && IsTop(byDate, observed, day, after.value)
      else after == before
  {
    MergeIsJoin(byDate, observed, at, day);
    var before := At(byDate, day);
    if !exists b :: Offered(observed, day, b) && (before.Some? ==> Below(before.value, b)) {
      if before.Some? { NothingBetter(byDate, observed, at, day); }
    }
    hide MergeAll;
  }

  /** Of the top observations, the first one stays. */
  lemma FirstTopStays(byDate: map<Day, Record>, observed: seq<Bucket>, at: int, day: Day, x: Bucket) returns (order: seq<Bucket>)
    requires Sound(byDate) && IsTop(byDate, observed, day, x)
    ensures multiset(order) == multiset(observed) && At(MergeAll(byDate, order, at), day) == Some(x)
  {
    var i :| 0 <= i < |observed| && observed[i] == x;
    var front, back := observed[..i], observed[i + 1..];
    assert observed == front + [x] + back;
    order := [x] + (front + back);
    MergeInParts(byDate, [x], front + back, at);
    assert [x][..0] == [] && MergeAll(byDate, [x], at) == MergeOne(byDate, x, at);
    OneMerge(byDate, x, at, day);
    OneMergeIsSound(byDate, x, at);
    forall b | Offered(front + back, day, b) ensures !Below(x, b) { assert Offered(observed, day, b); }
    NothingBetter(MergeOne(byDate, x, at), front + back, at, day);
  }

  /**
   Reordering the observations can change a day, if and only if two valid ones of the
   highest rank, above what was saved, differ in their breakdowns.
   */
  lemma OrderMattersOnlyForRivals(byDate: map<Day, Record>, observed: seq<Bucket>, at: int, day: Day)
    requires Sound(byDate)
    ensures (exists order :: multiset(order) == multiset(observed)
                             && At(MergeAll(byDate, order, at), day) != At(MergeAll(byDate, observed, at), day))
      <==> HasRivals(byDate, observed, day)
  {
    if HasRivals(byDate, observed, day) {
      var x, y :| IsTop(byDate, observed, day, x) && IsTop(byDate, observed, day, y) && x.breakdown != y.breakdown;
      var first := FirstTopStays(byDate, observed, at, day, x);
      var second := FirstTopStays(byDate, observed, at, day, y);
      hide MergeAll, IsTop;
      assert At(MergeAll(byDate, first, at), day) != At(MergeAll(byDate, second, at), day);
    } else {
      forall order: seq<Bucket> | multiset(order) == multiset(observed)
        ensures At(MergeAll(byDate, order, at), day) == At(MergeAll(byDate, observed, at), day)
      {
        SameWithoutRivals(byDate, order, observed, at, day);
      }
    }
  }

  lemma SameWithoutRivals(byDate: map<Day, Record>, order: seq<Bucket>, observed: seq<Bucket>, at: int, day: Day)
    requires Sound(byDate) && multiset(order) == multiset(observed) && !HasRivals(byDate, observed, day)
    ensures At(MergeAll(byDate, order, at), day) == At(MergeAll(byDate, observed, at), day)
  {
    MergedIsTop(byDate, order, at, day);
    MergedIsTop(byDate, observed, at, day);
    forall x ensures Offered(order, day, x) <==> Offered(observed, day, x) { assert x in multiset(order) <==> x in multiset(observed); }
    hide MergeAll, IsValid;
    var x, y := At(MergeAll(byDate, order, at), day), At(MergeAll(byDate, observed, at), day);
    if x.Some? && IsTop(byDate, order, day, x.value) {
      assert IsTop(byDate, observed, day, x.value);
    }
  }

  /** With rivals it can: the first breakdown seen is kept. */
  lemma OrderCanMatter()
    ensures exists x: Bucket, y: Bucket ::
      HasRivals(map[], [x, y], Day(1)) && At(MergeAll(map[], [x, y], 0), Day(1)) != At(MergeAll(map[], [y, x], 0), Day(1))
  {
    var x, y := Bucket(Day(1), 5, Some(Breakdown(5, 0, 0))), Bucket(Day(1), 5, Some(Breakdown(0, 5, 0)));
    MergeTwo(x, y);
    MergeTwo(y, x);
    RivalPair(x, y);
    hide MergeAll, HasRivals, Sound, ToBucket;
  }

  lemma RivalPair(x: Bucket, y: Bucket)
    requires IsValid(x) && IsValid(y) && x.day == y.day && SameRank(x, y) && x.breakdown != y.breakdown
    ensures HasRivals(map[], [x, y], x.day)
  {
    assert Offered([x, y], x.day, x) && Offered([x, y], x.day, y);
    hide IsValid;
    assert forall b | Offered([x, y], x.day, b) :: b == x || b == y;
    hide Offered;
    assert IsTop(map[], [x, y], x.day, x) && IsTop(map[], [x, y], x.day, y);
  }

  lemma MergeTwo(x: Bucket, y: Bucket)
    requires IsValid(x) && IsValid(y) && x.day == y.day && SameRank(x, y)
    ensures At(MergeAll(map[], [x, y], 0), x.day) == Some(x)
  {
    assert [x, y][..1] == [x] && [x][..0] == [];
    assert MergeAll(map[], [x], 0) == MergeOne(map[], x, 0);
    OneMerge(map[], x, 0, x.day);
    OneMerge(MergeOne(map[], x, 0), y, 0, x.day);
  }

  /** Merging the same observations again changes no day. */
  lemma MergeIsIdempotent(byDate: map<Day, Record>, observed: seq<Bucket>, at: int, later: int, day: Day)
    requires Sound(byDate)
    ensures var once := MergeAll(byDate, observed, at);
      At(MergeAll(once, observed, later), day) == At(once, day)
  {
    MergeIsSound(byDate, observed, at);
    MergeIsJoin(byDate, observed, at, day);
    NothingBetter(MergeAll(byDate, observed, at), observed, later, day);
  }

  lemma {:induction false} NothingBetter(byDate: map<Day, Record>, observed: seq<Bucket>, at: int, day: Day)
    requires Sound(byDate)
    requires forall b | Offered(observed, day, b) :: At(byDate, day).Some? && !Below(At(byDate, day).value, b)
    ensures At(MergeAll(byDate, observed, at), day) == At(byDate, day)
  {
    if observed != [] {
      var init, last := observed[..|observed| - 1], observed[|observed| - 1];
      assert observed == init + [last];
      assert forall b | Offered(init, day, b) :: Offered(observed, day, b);
      MergeIsSound(byDate, init, at);
      NothingBetter(byDate, init, at, day);
      OneMerge(MergeAll(byDate, init, at), last, at, day);
      assert IsValid(last) && last.day == day ==> Offered(observed, day, last);
    }
  }

  // ----- Documents ----------------------------------------------------------------------------

  ghost predicate ByDate(records: seq<Record>, byDate: map<Day, Record>) {
    && (forall i, j | 0 <= i < j < |records| :: records[i].date.number < records[j].date.number)
    && (forall r | r in records :: r.date in byDate && byDate[r.date] == r)
    && (forall day | day in byDate :: HasDay(records, day))
  }

  function Buckets(records: seq<Record>): (buckets: seq<Bucket>)
    ensures |buckets| == |records| && forall i | 0 <= i < |buckets| :: buckets[i] == ToBucket(records[i])
  {
    seq(|records|, i requires 0 <= i < |records| => ToBucket(records[i]))
  }

  predicate DistinctDates(records: seq<Record>) {
    forall i, j | 0 <= i < j < |records| :: records[i].date != records[j].date
  }

  function Index(records: seq<Record>): (byDate: map<Day, Record>)
    ensures forall day | day in byDate :: byDate[day] in records && byDate[day].date == day
    ensures forall r | r in records :: r.date in byDate
    ensures DistinctDates(records) ==> forall i | 0 <= i < |records| :: byDate[records[i].date] == records[i]
  {
    if records == [] then map[]
    else
      var init, last := records[..|records| - 1], records[|records| - 1];
      assert records == init + [last];
      Index(init)[last.date := last]
  }

  /** The check on loading: the right protocol, and sound records. Dates may still repeat. */
  function LoadDocument(file: File): Result<Option<Document>> {
    match file
    case Absent => Ok(None)
    case Unreadable => Err(Corrupted)
    case Stored(d) =>
      if d.protocol == PROTOCOL && forall r | r in d.days :: IsValidRecord(r) then Ok(Some(d)) else Err(Corrupted)
  }

  lemma {:induction false} EarliestExists(days: set<Day>, some: Day) returns (first: Day)
    requires some in days
    ensures first in days && forall d | d in days :: first.number <= d.number
  {
    first := some;
    if next :| next in days && next != some {
      var other := EarliestExists(days - {some}, next);
      if other.number < some.number { first := other; }
      forall d | d in days ensures first.number <= d.number { assert d == some || d in days - {some}; }
    }
  }

  predicate HasDay(records: seq<Record>, day: Day) {
    exists r | r in records :: r.date == day
  }

  /** The records so far: in order, all before the days that are left. */
  ghost predicate SortedSoFar(records: seq<Record>, byDate: map<Day, Record>, left: set<Day>) {
    && (forall i, j | 0 <= i < j < |records| :: records[i].date.number < records[j].date.number)
    && (forall r | r in records :: r.date in byDate && byDate[r.date] == r)
    && (forall r, day | r in records && day in left :: r.date.number < day.number)
    && (forall day | day in byDate && day !in left :: HasDay(records, day))
  }

  lemma HasDaySnoc(records: seq<Record>, r: Record, day: Day)
    ensures HasDay(records + [r], day) <==> HasDay(records, day) || r.date == day
  {
    if x :| x in records && x.date == day { assert x in records + [r]; }
    assert r in records + [r];
  }

  /** A later record goes to the end. */
  lemma AppendInOrder(records: seq<Record>, r: Record)
    requires forall i, j | 0 <= i < j < |records| :: records[i].date.number < records[j].date.number
    requires forall x | x in records :: x.date.number < r.date.number
    ensures var more := records + [r]; forall i, j | 0 <= i < j < |more| :: more[i].date.number < more[j].date.number
  {
    forall i | 0 <= i < |records| ensures records[i].date.number < r.date.number { assert records[i] in records; }
  }

  lemma NextRecord(records: seq<Record>, byDate: map<Day, Record>, left: set<Day>, day: Day)
    requires SortedSoFar(records, byDate, left) && day in byDate && byDate[day].date == day
    requires day in left && forall d | d in left :: day.number <= d.number
    ensures SortedSoFar(records + [byDate[day]], byDate, left - {day})
  {
    forall d { HasDaySnoc(records, byDate[day], d); }
    AppendInOrder(records, byDate[day]);
    hide HasDay;
    assert forall x | x in records + [byDate[day]] :: x in records || x == byDate[day];
  }

  method SortedRecords(byDate: map<Day, Record>) returns (records: seq<Record>)
    requires Sound(byDate)
    ensures ByDate(records, byDate)
  {
    records := [];
    var left := byDate.Keys;
    while left != {}
      invariant left <= byDate.Keys && SortedSoFar(records, byDate, left)
      decreases left
    {
      ghost var some :| some in left;
      ghost var earliest := EarliestExists(left, some);
      var day :| day in left && forall d | d in left :: day.number <= d.number;
      NextRecord(records, byDate, left, day);
      hide SortedSoFar;
      records := records + [byDate[day]];
      left := left - {day};
    }
  }

  datatype Snapshot = Snapshot(updatedAt: int, days: seq<Bucket>)

  datatype Disk = Fine | NoWrite | NoAttributes

  class HistoryStore {
    var file: File

    constructor ()
      ensures file == Absent
    {
      file := Absent;
    }

    method Load() returns (result: Result<Snapshot>)
      ensures LoadDocument(file).Err? ==> result.Err?
      ensures LoadDocument(file) == Ok(None) ==> result == Ok(Snapshot(0, []))
      ensures LoadDocument(file).Ok? && LoadDocument(file).value.Some? ==>
        var document := LoadDocument(file).value.value;
        result.Ok? && result.value.updatedAt == document.updatedAt && SortedBuckets(document.days, result.value.days)
    {
      match LoadDocument(file) {
        case Err(error) => result := Err(error);
        case Ok(None) => result := Ok(Snapshot(0, []));
        case Ok(Some(document)) =>
          var days := SortBuckets(Buckets(document.days));
          SortingKeepsDays(Buckets(document.days));
          result := Ok(Snapshot(document.updatedAt, days));
      }
    }

    /** Merges the observations into the saved days; the file changes only when it is written. */
    method MergeAndSave(observed: seq<Bucket>, observedAt: int, disk: Disk) returns (result: Result<Snapshot>)
      modifies this
      ensures LoadDocument(old(file)).Err? ==> result.Err? && file == old(file)
      ensures LoadDocument(old(file)).Ok? && !DistinctDates(Days(old(file))) ==> result == Err(DuplicateDate) && file == old(file)
      ensures LoadDocument(old(file)).Ok? && DistinctDates(Days(old(file))) && disk == NoWrite ==>
        result == Err(WriteFailed) && file == old(file)
      ensures LoadDocument(old(file)).Ok? && DistinctDates(Days(old(file))) && disk != NoWrite ==>
        && file.Stored? && file.document.protocol == PROTOCOL && file.document.updatedAt == observedAt
        && ByDate(file.document.days, MergeAll(Index(Days(old(file))), observed, observedAt))
        && result == if disk == Fine then Ok(Snapshot(observedAt, Buckets(file.document.days))) else Err(AttributesFailed)
    {
      var loaded := LoadDocument(file);
      if loaded.Err? { return Err(loaded.error); }
      var existing := if loaded.value.Some? then loaded.value.value.days else [];
      assert existing == Days(file);
      LoadedIsSound(file);
      hide *;
      if !DistinctDates(existing) { return Err(DuplicateDate); }
      var byDate := ObserveAll(Index(existing), observed, observedAt);
      MergeIsSound(Index(existing), observed, observedAt);
      var records := SortedRecords(byDate);
      if disk == NoWrite { return Err(WriteFailed); }
      file := Stored(Document(PROTOCOL, observedAt, records));
      result := if disk == Fine then Ok(Snapshot(observedAt, Buckets(records))) else Err(AttributesFailed);
    }
  }

  lemma LoadedIsSound(file: File)
    requires LoadDocument(file).Ok?
    ensures Sound(Index(Days(file)))
  {
    hide IsValidRecord;
  }

  method ObserveAll(byDate: map<Day, Record>, observed: seq<Bucket>, at: int) returns (result: map<Day, Record>)
    ensures result == MergeAll(byDate, observed, at)
  {
    result := byDate;
    for i := 0 to |observed|
      invariant result == MergeAll(byDate, observed[..i], at)
    {
      assert observed[..i + 1][..i] == observed[..i];
      result := Observe(result, observed[i], at);
    }
    assert observed[..|observed|] == observed;
  }

  /** One observation, as the loop body decides it. */
  method Observe(byDate: map<Day, Record>, candidate: Bucket, at: int) returns (result: map<Day, Record>)
    ensures result == MergeOne(byDate, candidate, at)
  {
    if !IsValid(candidate) { return byDate; }
    if candidate.day !in byDate { return byDate[candidate.day := ToRecord(candidate, at)]; }
    var current := ToBucket(byDate[candidate.day]);
    if candidate.tokens > current.tokens
       || (candidate.tokens == current.tokens && current.breakdown.None?
           && candidate.breakdown.Some? && candidate.breakdown.value.Total() == candidate.tokens) {
      return byDate[candidate.day := ToRecord(candidate, at)];
    }
    return byDate[candidate.day := ToRecord(current, at)];
  }

  function Days(file: File): seq<Record> {
    if file.Stored? then file.document.days else []
  }

  // ----- Sorting on load -----------------------------------------------------------------------------

  ghost predicate SortedBuckets(records: seq<Record>, days: seq<Bucket>) {
    multiset(days) == multiset(Buckets(records)) && InOrder(days) && (InOrder(Buckets(records)) ==> days == Buckets(records))
  }

  ghost predicate InOrder(buckets: seq<Bucket>) {
    forall i, j | 0 <= i < j < |buckets| :: buckets[i].day.number <= buckets[j].day.number
  }

  predicate EarlierDay(a: Bucket, b: Bucket) {
    a.day.number < b.day.number
  }

  function SortBuckets(buckets: seq<Bucket>): seq<Bucket> {
    StableSort.Sort(EarlierDay, buckets)
  }

  lemma SortingKeepsDays(buckets: seq<Bucket>)
    ensures multiset(SortBuckets(buckets)) == multiset(buckets) && InOrder(SortBuckets(buckets))
    ensures InOrder(buckets) ==> SortBuckets(buckets) == buckets
  {
    StableSort.SortKeepsAll(EarlierDay, buckets);
    StableSort.SortOrders(EarlierDay, buckets);
    if InOrder(buckets) { StableSort.SortedStays(EarlierDay, buckets); }
  }

  lemma SavedIsValid(byDate: map<Day, Record>, records: seq<Record>)
    requires Sound(byDate) && ByDate(records, byDate)
    ensures forall r | r in records :: IsValidRecord(r)
  {
    hide IsValidRecord;
    forall r | r in records ensures IsValidRecord(r) { assert byDate[r.date] == r; }
  }

  lemma SavedIsIndexed(byDate: map<Day, Record>, records: seq<Record>, day: Day)
    requires ByDate(records, byDate) && DistinctDates(records)
    ensures day in byDate <==> day in Index(records)
    ensures day in byDate ==> Index(records)[day] == byDate[day]
  {
    if day in byDate {
      var r :| r in records && r.date == day;
      var i :| 0 <= i < |records| && records[i] == r;
    }
  }

  lemma SavedIndexes(byDate: map<Day, Record>, records: seq<Record>)
    requires ByDate(records, byDate)
    ensures DistinctDates(records) && Index(records) == byDate
  {
    assert DistinctDates(records);
    hide ByDate, Index;
    forall day ensures (day in byDate <==> day in Index(records)) && (day in byDate ==> Index(records)[day] == byDate[day]) {
      SavedIsIndexed(byDate, records, day);
    }
  }

  /** What is saved passes the load check, has each date once, and reads back as the days reported. */
  lemma SavedReadsBack(byDate: map<Day, Record>, records: seq<Record>, at: int)
    requires Sound(byDate) && ByDate(records, byDate)
    ensures var file := Stored(Document(PROTOCOL, at, records));
      && LoadDocument(file) == Ok(Some(file.document)) && DistinctDates(records) && Index(records) == byDate
    ensures forall days :: SortedBuckets(records, days) ==> days == Buckets(records)
  {
    SavedIsValid(byDate, records);
    SavedIndexes(byDate, records);
    assert InOrder(Buckets(records));
    hide IsValidRecord, Index;
  }

  /** A document that passes the load check may still name a date twice, and then cannot be merged. */
  lemma LoadCheckAllowsDuplicates()
    ensures exists file: File :: LoadDocument(file).Ok? && !DistinctDates(Days(file))
  {
    var record := Record(Day(1), 0, None, None, None, 0);
    var file := Stored(Document(PROTOCOL, 0, [record, record]));
    assert LoadDocument(file).Ok?;
    assert Days(file)[0].date == Days(file)[1].date;
  }
}

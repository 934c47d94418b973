/**
 Adding increments up: one accumulator for a file, for a day, and for all files.
 `DayOf` stands for the calendar, which names the day of each date.
 */
module TokenAccounts {
  import opened Prelude
  import opened TokenDeltas
  import opened TokenSamples
  import opened TokenWindows

  type Day = string

  datatype Usage = Usage(total: int, regular: int, cached: int, output: int, complete: bool)

  const NOTHING := Usage(0, 0, 0, 0, true)

  function Add(u: Usage, d: Delta): Usage {
    if d.total < 0 then u
    else
      var v := u.(total := u.total + d.total);
      match d.breakdown
      case None => if d.total > 0 then v.(complete := false) else v
      case Some(b) => v.(regular := v.regular + b.regular, cached := v.cached + b.cached, output := v.output + b.output)
  }

  function Merge(u: Usage, v: Usage): Usage {
    Usage(u.total + v.total, u.regular + v.regular, u.cached + v.cached, u.output + v.output,
          u.complete && !(v.total > 0 && !v.complete))
  }

  /** What the accumulator reports: all three parts, or none. */
  function Report(u: Usage): Option<Breakdown> {
    var b := Breakdown(u.regular, u.cached, u.output);
    if u.complete && u.regular >= 0 && u.cached >= 0 && u.output >= 0 && b.Total() == u.total then Some(b) else None
  }

  function Sum(deltas: seq<Delta>): Usage {
    if deltas == [] then NOTHING else Add(Sum(deltas[..|deltas| - 1]), deltas[|deltas| - 1])
  }

  // ----- Sums of sums --------------------------------------------------------------

  /** What every sum satisfies: an incomplete one counted something. */
  predicate Coherent(u: Usage) {
    u.total >= 0 && (!u.complete ==> u.total > 0)
  }

  lemma {:induction false} SumIsCoherent(deltas: seq<Delta>)
    ensures Coherent(Sum(deltas))
  {
    if deltas != [] { SumIsCoherent(deltas[..|deltas| - 1]); }
  }

  lemma SumSnoc(deltas: seq<Delta>, d: Delta)
    ensures Sum(deltas + [d]) == Add(Sum(deltas), d)
  {
    hide Add;
    assert (deltas + [d])[..|deltas|] == deltas;
  }

  lemma AddThenMerge(u: Usage, v: Usage, d: Delta)
    requires Coherent(u) && Coherent(v)
    ensures Merge(u, Add(v, d)) == Add(Merge(u, v), d) == Merge(Add(u, d), v)
  {
  }

  /** Counting part by part and merging is one pass over everything. */
  lemma {:induction false} MergeIsOnePass(a: seq<Delta>, b: seq<Delta>)
    ensures Sum(a + b) == Merge(Sum(a), Sum(b))
  {
    if b == [] {
      assert a + b == a;
    } else {
      var init, d := b[..|b| - 1], b[|b| - 1];
      MergeIsOnePass(a, init);
      SumIsCoherent(a);
      SumIsCoherent(init);
      AddThenMerge(Sum(a), Sum(init), d);
      SumSnoc(init, d);
      SumSnoc(a + init, d);
      assert b == init + [d] && a + b == a + init + [d];
    }
  }

  lemma TakeOut(front: seq<Delta>, d: Delta, back: seq<Delta>)
    ensures Sum(front + [d] + back) == Add(Sum(front + back), d)
  {
    SumSnoc(front, d);
    MergeIsOnePass(front + [d], back);
    MergeIsOnePass(front, back);
    SumIsCoherent(front);
    SumIsCoherent(back);
    AddThenMerge(Sum(front), Sum(back), d);
  }

  lemma Remove(a: seq<Delta>, front: seq<Delta>, d: Delta, back: seq<Delta>)
    requires multiset(a + [d]) == multiset(front + [d] + back)
    ensures multiset(a) == multiset(front + back)
  {
    assert multiset(a + [d]) == multiset(a) + multiset{d};
    assert multiset(front + [d] + back) == multiset(front) + multiset{d} + multiset(back);
    assert multiset(front + back) == multiset(front) + multiset(back);
    assert multiset(a) == multiset(a + [d]) - multiset{d};
  }

  /** The order of the increments does not matter. */
  lemma {:induction false} OrderDoesNotMatter(a: seq<Delta>, b: seq<Delta>)
    requires multiset(a) == multiset(b)
    ensures Sum(a) == Sum(b)
    decreases |a|
  {
    hide Add;
    if a == [] {
      assert |b| == |multiset(b)| == |multiset(a)| == 0;
    } else {
      var d := a[|a| - 1];
      var init := a[..|a| - 1];
      assert a == init + [d];
      assert d in multiset(b);
      var i :| 0 <= i < |b| && b[i] == d;
      var front, back := b[..i], b[i + 1..];
      assert b == front + [d] + back;
      Remove(init, front, d, back);
      OrderDoesNotMatter(init, front + back);
      TakeOut(front, d, back);
    }
  }

  /** When the breakdown is complete its three signed parts add up to the total. */
  lemma {:induction false} CompletePartsAddUp(deltas: seq<Delta>)
    requires forall d | d in deltas :: Accountable(d)
    ensures var u := Sum(deltas); u.complete ==> u.regular + u.cached + u.output == u.total
  {
    if deltas != [] {
      assert deltas[|deltas| - 1] in deltas;
      CompletePartsAddUp(deltas[..|deltas| - 1]);
    }
  }

  /** The final reconciliation never withholds a breakdown: only a gap or a negative part does. */
  lemma ReconciliationNeverWithholds(deltas: seq<Delta>)
    requires forall d | d in deltas :: Accountable(d)
    ensures var u := Sum(deltas);
      Report(u).None? <==> !u.complete || u.regular < 0 || u.cached < 0 || u.output < 0
  {
    CompletePartsAddUp(deltas);
  }

  /** A breakdown is complete exactly when no positive increment lacks its parts. */
  lemma {:induction false} CompleteMeansNoGap(deltas: seq<Delta>)
    ensures Sum(deltas).complete <==> forall d | d in deltas :: d.total > 0 ==> d.breakdown.Some?
  {
    if deltas != [] {
      var init, last := deltas[..|deltas| - 1], deltas[|deltas| - 1];
      CompleteMeansNoGap(init);
      assert deltas == init + [last];
    }
  }

  /** The sum of one part over the increments that have parts. */
  function PartOf(deltas: seq<Delta>, part: Breakdown -> int): int {
    if deltas == [] then 0
    else
      var last := deltas[|deltas| - 1];
      PartOf(deltas[..|deltas| - 1], part) + if last.total >= 0 && last.breakdown.Some? then part(last.breakdown.value) else 0
  }

  /** Each part of an account is the sum of that part, and a reported breakdown has each in its place. */
  lemma {:induction false} SumParts(deltas: seq<Delta>)
    ensures var u := Sum(deltas);
      && u.regular == PartOf(deltas, (b: Breakdown) => b.regular) && u.cached == PartOf(deltas, (b: Breakdown) => b.cached) && u.output == PartOf(deltas, (b: Breakdown) => b.output)
      && (Report(u).Some? ==> Report(u).value == Breakdown(u.regular, u.cached, u.output))
  {
    if deltas != [] { SumParts(deltas[..|deltas| - 1]); }
  }

  lemma {:induction false} SumTotal(deltas: seq<Delta>)
    requires forall d | d in deltas :: d.total >= 0
    ensures Sum(deltas).total == Total(deltas)
  {
    if deltas != [] {
      SumTotal(deltas[..|deltas| - 1]);
      TotalOfParts(deltas[..|deltas| - 1], deltas[|deltas| - 1..]);
      assert deltas == deltas[..|deltas| - 1] + deltas[|deltas| - 1..];
    }
  }

  lemma {:induction false} TotalOfParts(a: seq<Delta>, b: seq<Delta>)
    ensures Total(a + b) == Total(a) + Total(b)
  {
    if a == [] {
      assert a + b == b;
    } else {
      assert (a + b)[1..] == a[1..] + b;
      TotalOfParts(a[1..], b);
    }
  }

  /** A file without records and without inherited counters. */
  predicate IsPlainFile(file: File, sources: Catalog) {
    forall c | c in Offered(file, sources) :: !c.sample.request && !c.sample.inherited && c.sample.total >= 0
  }

  lemma PlainSamples(file: File, sources: Catalog, end: int)
    requires IsPlainFile(file, sources)
    ensures Plain(SamplesTo(Offered(file, sources), end)) && NonNegative(SamplesTo(Offered(file, sources), end))
  {
    var chosen := Chosen(Offered(file, sources), {}, end);
    var samples := SamplesOf(chosen);
    RequestsCountOnce(Offered(file, sources), {}, end);
    SortIsStable(samples, 0);
    forall s | s in SortByDate(samples) ensures !s.inherited && !s.request && s.total >= 0 {
      assert s in multiset(samples);
      var i :| 0 <= i < |samples| && samples[i] == s;
      assert chosen[i] in chosen;
    }
  }

  /**
   What such a file adds to the account: the peaks of the runs of its counter that do
   not fall, less the baseline that the window began with.
   */
  lemma PlainFileTotal(file: File, sources: Catalog, start: int, end: int)
    requires IsPlainFile(file, sources) && start <= end
    ensures var samples := SamplesTo(Offered(file, sources), end);
      var carried := Carried(None, samples, start);
      |carried| <= 1 && Sum(LineDeltas(file, sources, start, end)).total == Peaks(carried + Values(samples, start, end)) - SumOf(carried)
  {
    var samples := SamplesTo(Offered(file, sources), end);
    PlainSamples(file, sources, end);
    SamplesAreSorted(Offered(file, sources), end);
    PlainTotal(samples, start, end);
    DeltasAreAccountable(FRESH, samples, start, end);
    SumTotal(LineDeltas(file, sources, start, end));
  }

  // ----- Days ----------------------------------------------------------------------------

  function OnDay(deltas: seq<Delta>, dayOf: int -> Day, day: Day): seq<Delta> {
    if deltas == [] then []
    else
      OnDay(deltas[..|deltas| - 1], dayOf, day)
      + if dayOf(deltas[|deltas| - 1].date) == day then [deltas[|deltas| - 1]] else []
  }

  lemma {:induction false} OnDayOfParts(a: seq<Delta>, b: seq<Delta>, dayOf: int -> Day, day: Day)
    ensures OnDay(a + b, dayOf, day) == OnDay(a, dayOf, day) + OnDay(b, dayOf, day)
  {
    if b == [] {
      assert a + b == a;
    } else {
      assert (a + b)[..|a + b| - 1] == a + b[..|b| - 1];
      OnDayOfParts(a, b[..|b| - 1], dayOf, day);
    }
  }

  function At(usages: map<Day, Usage>, day: Day): Usage {
    if day in usages then usages[day] else NOTHING
  }

  /** The increments of one file, read up to the end of the window. */
  method FindDeltas(file: File, sources: Catalog, start: int, end: int) returns (deltas: seq<Delta>)
    ensures deltas == LineDeltas(file, sources, start, end)
  {
    var samples := CollectSamples(file.lines, sources, file.identity, end);
    deltas := CountDeltas(samples, start, end);
  }

  /** One file in one sum. */
  method TokensUsed(file: File, sources: Catalog, start: int, end: int) returns (accumulated: Usage)
    ensures accumulated == Sum(LineDeltas(file, sources, start, end))
  {
    var deltas := FindDeltas(file, sources, start, end);
    accumulated := NOTHING;
    for i := 0 to |deltas|
      invariant accumulated == Sum(deltas[..i])
    {
      assert deltas[..i + 1][..i] == deltas[..i];
      accumulated := Add(accumulated, deltas[i]);
    }
    assert deltas[..|deltas|] == deltas;
  }

  /** Each day has the sum of its increments. */
  ghost predicate CountsDays(usages: map<Day, Usage>, deltas: seq<Delta>, dayOf: int -> Day) {
    forall day :: At(usages, day) == Sum(OnDay(deltas, dayOf, day))
  }

  lemma CountOneMore(usages: map<Day, Usage>, deltas: seq<Delta>, d: Delta, dayOf: int -> Day)
    requires CountsDays(usages, deltas, dayOf)
    ensures CountsDays(usages[dayOf(d.date) := Add(At(usages, dayOf(d.date)), d)], deltas + [d], dayOf)
  {
    forall day { SumOneMore(deltas, d, dayOf, day); }
    hide Sum, OnDay, Add;
  }

  /** One file, day by day. */
  method TokensUsedByDay(file: File, sources: Catalog, start: int, end: int, dayOf: int -> Day) returns (usageByDate: map<Day, Usage>)
    ensures CountsDays(usageByDate, LineDeltas(file, sources, start, end), dayOf)
  {
    var deltas := FindDeltas(file, sources, start, end);
    usageByDate := map[];
    for i := 0 to |deltas|
      invariant CountsDays(usageByDate, deltas[..i], dayOf)
    {
      var date := dayOf(deltas[i].date);
      CountOneMore(usageByDate, deltas[..i], deltas[i], dayOf);
      assert deltas[..i + 1] == deltas[..i] + [deltas[i]];
      hide CountsDays, Add, LineDeltas;
      usageByDate := usageByDate[date := Add(if date in usageByDate then usageByDate[date] else NOTHING, deltas[i])];
    }
    assert deltas[..|deltas|] == deltas;
  }

  lemma SumOneMore(deltas: seq<Delta>, d: Delta, dayOf: int -> Day, day: Day)
    ensures Sum(OnDay(deltas + [d], dayOf, day))
      == if dayOf(d.date) == day then Add(Sum(OnDay(deltas, dayOf, day)), d) else Sum(OnDay(deltas, dayOf, day))
  {
    var before := OnDay(deltas, dayOf, day);
    assert (deltas + [d])[..|deltas|] == deltas;
    assert OnDay(deltas + [d], dayOf, day) == before + if dayOf(d.date) == day then [d] else [];
    SumSnoc(before, d);
    hide Add, Sum, OnDay;
    assert before + [] == before;
  }

  function AllDeltas(files: seq<File>, sources: Catalog, start: int, end: int): seq<Delta> {
    if files == [] then []
    else AllDeltas(files[..|files| - 1], sources, start, end) + FileDeltas(files[|files| - 1], sources, start, end)
  }

  lemma OneFileMore(files: seq<File>, i: nat, sources: Catalog, start: int, end: int)
    requires i < |files|
    ensures AllDeltas(files[..i + 1], sources, start, end)
      == if files[i].modified < start then AllDeltas(files[..i], sources, start, end)
         else AllDeltas(files[..i], sources, start, end) + LineDeltas(files[i], sources, start, end)
  {
    hide LineDeltas;
    assert files[..i + 1][..i] == files[..i];
    assert AllDeltas(files[..i], sources, start, end) + [] == AllDeltas(files[..i], sources, start, end);
  }

  /** Adds a file's days to the days counted so far, in any order of the days. */
  method MergeDays(into: map<Day, Usage>, fileUsage: map<Day, Usage>) returns (usageByDate: map<Day, Usage>)
    ensures forall day :: At(usageByDate, day) == Merge(At(into, day), At(fileUsage, day))
  {
    usageByDate := into;
    var left := fileUsage.Keys;
    while left != {}
      invariant left <= fileUsage.Keys
      invariant forall day ::
        At(usageByDate, day)
        == if day in fileUsage && day !in left then Merge(At(into, day), fileUsage[day]) else At(into, day)
      decreases left
    {
      var date :| date in left;
      var accumulated := if date in usageByDate then usageByDate[date] else NOTHING;
      usageByDate := usageByDate[date := Merge(accumulated, fileUsage[date])];
      left := left - {date};
    }
  }

  /** All files modified since the span began, day by day: as if all their increments had been taken in one pass. */
  method CountDays(files: seq<File>, sources: Catalog, start: int, end: int, dayOf: int -> Day) returns (usageByDate: map<Day, Usage>)
    ensures forall day :: At(usageByDate, day) == Sum(OnDay(AllDeltas(files, sources, start, end), dayOf, day))
  {
    usageByDate := map[];
    for i := 0 to |files|
      invariant forall day :: At(usageByDate, day) == Sum(OnDay(AllDeltas(files[..i], sources, start, end), dayOf, day))
    {
      OneFileMore(files, i, sources, start, end);
      DaysMerge(AllDeltas(files[..i], sources, start, end), LineDeltas(files[i], sources, start, end), dayOf);
      hide Sum, OnDay, AllDeltas, LineDeltas, Merge;
      if files[i].modified >= start {
        var fileUsage := TokensUsedByDay(files[i], sources, start, end, dayOf);
        usageByDate := MergeDays(usageByDate, fileUsage);
      }
    }
    assert files[..|files|] == files;
  }

  lemma DaysMerge(a: seq<Delta>, b: seq<Delta>, dayOf: int -> Day)
    ensures forall day :: Sum(OnDay(a + b, dayOf, day)) == Merge(Sum(OnDay(a, dayOf, day)), Sum(OnDay(b, dayOf, day)))
  {
    forall day ensures Sum(OnDay(a + b, dayOf, day)) == Merge(Sum(OnDay(a, dayOf, day)), Sum(OnDay(b, dayOf, day))) {
      OnDayOfParts(a, b, dayOf, day);
      MergeIsOnePass(OnDay(a, dayOf, day), OnDay(b, dayOf, day));
    }
  }

  /** Counted is what the files modified since then hold, and nothing else. */
  lemma {:induction false} ModifiedCount(files: seq<File>, sources: Catalog, start: int, end: int, d: Delta)
    ensures d in AllDeltas(files, sources, start, end)
      <==> exists i | 0 <= i < |files| :: start <= files[i].modified && d in LineDeltas(files[i], sources, start, end)
  {
    hide LineDeltas;
    if files != [] {
      var n := |files| - 1;
      ModifiedCount(files[..n], sources, start, end, d);
      assert forall i | 0 <= i < n :: files[..n][i] == files[i];
    }
  }

  /** A day has exactly the increments dated on it, as often as they are there. */
  lemma {:induction false} DayHasItsOwn(deltas: seq<Delta>, dayOf: int -> Day, day: Day, d: Delta)
    ensures multiset(OnDay(deltas, dayOf, day))[d] == if dayOf(d.date) == day then multiset(deltas)[d] else 0
  {
    if deltas != [] {
      var init, last := deltas[..|deltas| - 1], deltas[|deltas| - 1];
      DayHasItsOwn(init, dayOf, day, d);
      assert deltas == init + [last];
    }
  }

  datatype Bucket = Bucket(day: Day, tokens: int, breakdown: Option<Breakdown>)

  /** The history of these days: one bucket for each, in their order. */
  method ReadHistory(files: seq<File>, sources: Catalog, days: seq<Day>, start: int, end: int, dayOf: int -> Day) returns (history: seq<Bucket>)
    ensures |history| == |days|
    ensures forall i | 0 <= i < |days| ::
      var u := Sum(OnDay(AllDeltas(files, sources, start, end), dayOf, days[i]));
      history[i] == Bucket(days[i], u.total, Report(u))
  {
    var usageByDate := CountDays(files, sources, start, end, dayOf);
    history := seq(|days|, i requires 0 <= i < |days| =>
      var usage := At(usageByDate, days[i]);
      Bucket(days[i], usage.total, Report(usage)));
  }

  /** A single day: the sums of the files modified since it began, merged. */
  method ReadDay(files: seq<File>, sources: Catalog, day: Day, start: int, end: int) returns (bucket: Bucket)
    ensures var u := Sum(AllDeltas(files, sources, start, end)); bucket == Bucket(day, u.total, Report(u))
  {
    var usage := NOTHING;
    for i := 0 to |files|
      invariant usage == Sum(AllDeltas(files[..i], sources, start, end))
    {
      OneFileMore(files, i, sources, start, end);
      MergeIsOnePass(AllDeltas(files[..i], sources, start, end), LineDeltas(files[i], sources, start, end));
      hide *;
      if files[i].modified >= start {
        var fileUsage := TokensUsed(files[i], sources, start, end);
        usage := Merge(usage, fileUsage);
      }
    }
    assert files[..|files|] == files;
    bucket := Bucket(day, usage.total, Report(usage));
  }

  // ----- One day, read alone or as part of a history ------------------------------------------

  lemma {:induction false} OnDayIsWithin(deltas: seq<Delta>, dayOf: int -> Day, day: Day, b: int, e: int)
    requires forall d | d in deltas :: dayOf(d.date) == day <==> b <= d.date < e
    ensures OnDay(deltas, dayOf, day) == Within(deltas, b, e)
  {
    if deltas != [] {
      var init, last := deltas[..|deltas| - 1], deltas[|deltas| - 1..];
      assert deltas == init + last && last[1..] == [];
      OnDayIsWithin(init, dayOf, day, b, e);
      WithinParts(init, last, b, e);
    }
  }

  /** When reading the file for the day alone agrees with the history. */
  ghost predicate DayAgrees(file: File, sources: Catalog, start: int, b: int, e: int, end: int) {
    if file.modified < b then file.modified < start || NothingCounts(SamplesTo(Offered(file, sources), end), b, e)
    else EndIsIrrelevant(file, sources, b, e, end)
  }

  lemma FileDeltasAreDated(file: File, sources: Catalog, dayOf: int -> Day, day: Day, start: int, b: int, e: int, end: int)
    requires forall t :: dayOf(t) == day <==> b <= t < e
    ensures OnDay(FileDeltas(file, sources, start, end), dayOf, day) == Within(FileDeltas(file, sources, start, end), b, e)
  {
    OnDayIsWithin(FileDeltas(file, sources, start, end), dayOf, day, b, e);
  }

  /**
   Reading one day counts for every file what the history of a longer span has for
   it, if and only if the file agrees; if all do, the day is the history's.
   */
  lemma {:induction false} DayIsPartOfHistory(files: seq<File>, sources: Catalog, dayOf: int -> Day, day: Day, start: int, b: int, e: int, end: int)
    requires start <= b <= e <= end && forall t :: dayOf(t) == day <==> b <= t < e
    ensures forall file | file in files ::
      FileDeltas(file, sources, b, e) == OnDay(FileDeltas(file, sources, start, end), dayOf, day) <==> DayAgrees(file, sources, start, b, e, end)
    ensures (forall file | file in files :: DayAgrees(file, sources, start, b, e, end)) ==>
      AllDeltas(files, sources, b, e) == OnDay(AllDeltas(files, sources, start, end), dayOf, day)
  {
    if files != [] {
      var init, last := files[..|files| - 1], files[|files| - 1];
      assert files == init + [last];
      DayIsPartOfHistory(init, sources, dayOf, day, start, b, e, end);
      DayReadAlone(last, sources, start, b, e, end);
      FileDeltasAreDated(last, sources, dayOf, day, start, b, e, end);
      OnDayOfParts(AllDeltas(init, sources, start, end), FileDeltas(last, sources, start, end), dayOf, day);
      hide FileDeltas, EndIsIrrelevant, NothingCounts, Within, OnDay;
    }
  }

  /** A file whose day has tokens when it is read alone, and none in the history of two days. */
  lemma DayCanDifferFromHistory(dayOf: int -> Day, day: Day)
    requires forall t :: dayOf(t) == day <==> 0 <= t < 10
    ensures Sum(AllDeltas([REPEATED], map[], 0, 10)).total == 40
    ensures Sum(OnDay(AllDeltas([REPEATED], map[], 0, 20), dayOf, day)).total == 0
  {
    DayCanDiffer();
    OneFile(REPEATED, map[], 0, 10);
    OneFile(REPEATED, map[], 0, 20);
    FileDeltasAreDated(REPEATED, map[], dayOf, day, 0, 0, 10, 20);
    hide FileDeltas, OnDay, AllDeltas;
    SumSnoc([], Delta(5, 40, None, true));
    assert [] + [Delta(5, 40, None, true)] == [Delta(5, 40, None, true)];
  }

  lemma OneFile(file: File, sources: Catalog, start: int, end: int)
    ensures AllDeltas([file], sources, start, end) == FileDeltas(file, sources, start, end)
  {
    assert [file][..0] == [];
  }

  // ----- No token is lost between the days ------------------------------------------------------

  function SumOfDays(deltas: seq<Delta>, dayOf: int -> Day, days: seq<Day>): int {
    if days == [] then 0 else Sum(OnDay(deltas, dayOf, days[0])).total + SumOfDays(deltas, dayOf, days[1..])
  }

  predicate Listed(d: Delta, dayOf: int -> Day, days: seq<Day>) {
    dayOf(d.date) in days
  }

  lemma AddTotal(u: Usage, d: Delta)
    requires d.total >= 0
    ensures Add(u, d).total == u.total + d.total
  {
  }

  lemma ListedInParts(d: Delta, dayOf: int -> Day, day: Day, rest: seq<Day>)
    ensures Listed(d, dayOf, [day] + rest) <==> dayOf(d.date) == day || Listed(d, dayOf, rest)
    ensures Listed(d, dayOf, rest) && dayOf(d.date) == day ==> day in rest
  {
  }

  lemma {:induction false} OneDeltaOverDays(deltas: seq<Delta>, d: Delta, dayOf: int -> Day, days: seq<Day>)
    requires d.total >= 0 && forall i, j | 0 <= i < j < |days| :: days[i] != days[j]
    ensures SumOfDays(deltas + [d], dayOf, days) == SumOfDays(deltas, dayOf, days) + if Listed(d, dayOf, days) then d.total else 0
  {
    if days != [] {
      var day, rest := days[0], days[1..];
      SumOneMore(deltas, d, dayOf, day);
      AddTotal(Sum(OnDay(deltas, dayOf, day)), d);
      OneDeltaOverDays(deltas, d, dayOf, rest);
      assert SumOfDays(deltas + [d], dayOf, days) == Sum(OnDay(deltas + [d], dayOf, day)).total + SumOfDays(deltas + [d], dayOf, rest);
      assert SumOfDays(deltas, dayOf, days) == Sum(OnDay(deltas, dayOf, day)).total + SumOfDays(deltas, dayOf, rest);
      hide *;
      ListedInParts(d, dayOf, day, rest);
      assert days == [day] + rest && day !in rest;
    }
  }

  lemma {:induction false} NoDeltaOverDays(dayOf: int -> Day, days: seq<Day>)
    ensures SumOfDays([], dayOf, days) == 0
  {
    if days != [] { NoDeltaOverDays(dayOf, days[1..]); }
  }

  /** The days of a span add up to the span: each increment is counted on one day. */
  lemma {:induction false} DaysAddUp(deltas: seq<Delta>, dayOf: int -> Day, days: seq<Day>)
    requires forall i, j | 0 <= i < j < |days| :: days[i] != days[j]
    requires forall d | d in deltas :: d.total >= 0 && Listed(d, dayOf, days)
    ensures SumOfDays(deltas, dayOf, days) == Sum(deltas).total
  {
    if deltas == [] {
      NoDeltaOverDays(dayOf, days);
    } else {
      var init, last := deltas[..|deltas| - 1], deltas[|deltas| - 1];
      assert deltas == init + [last];
      DaysAddUp(init, dayOf, days);
      OneDeltaOverDays(init, last, dayOf, days);
      AddTotal(Sum(init), last);
      SumSnoc(init, last);
      assert last in deltas;
      hide *;
    }
  }
}

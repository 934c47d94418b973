/**
 From cumulative token counters to increments. Counters may be reset, samples may
 be replayed from the source of a fork, and request records replace counters.
 Dates are integers and token counts are mathematical integers.
 */
module TokenDeltas {
  import opened Prelude

  datatype Cumulative = Cumulative(input: int, cached: int, output: int)

  datatype Sample = Sample(date: int, total: int, breakdown: Option<Cumulative>, inherited: bool, request: bool)

  datatype Breakdown = Breakdown(regular: int, cached: int, output: int) {
    function Total(): int {
      regular + cached + output
    }
  }

  /** `request` tells the increment of a request record from that of a counter; no account looks at it. */
  datatype Delta = Delta(date: int, total: int, breakdown: Option<Breakdown>, request: bool)

  // ----- One increment -------------------------------------------------------------

  function Max(a: int, b: int): int {
    if a < b then b else a
  }

  function BreakdownDelta(current: Sample, previous: Option<Sample>, totalDelta: int): Option<Breakdown> {
    if current.breakdown.None? || (previous.Some? && previous.value.breakdown.None?) then None
    else
      var now := current.breakdown.value;
      var change :=
        if previous.Some? then
          var before := previous.value.breakdown.value;
          Cumulative(now.input - before.input, now.cached - before.cached, now.output - before.output)
        else Cumulative(Max(0, now.input), Max(0, now.cached), Max(0, now.output));
      var result := Breakdown(change.input - change.cached, change.cached, change.output);
      if result.Total() == totalDelta then Some(result) else None
  }

  predicate IsReset(previous: Option<Sample>, sample: Sample) {
    previous.Some? && sample.total < previous.value.total
  }

  /** The counter's growth; after a reset it grew from nothing. */
  function Increment(previous: Option<Sample>, sample: Sample): Delta {
    var base := if IsReset(previous, sample) then None else previous;
    var total := if base.Some? then sample.total - base.value.total else sample.total;
    Delta(sample.date, total, BreakdownDelta(sample, base, total), sample.request)
  }

  // ----- A list of samples -----------------------------------------------------------

  datatype Counter = Counter(previous: Option<Sample>, usingRequests: bool)

  const FRESH := Counter(None, false)

  function Advance(c: Counter, sample: Sample, start: int, end: int): Counter {
    if sample.request then (if sample.inherited then c else c.(usingRequests := true))
    else if c.usingRequests then c
    else if sample.inherited || sample.date < end then c.(previous := Some(sample))
    else if sample.date < start then c.(previous := Some(sample))
    else c
  }

  function Emitted(c: Counter, sample: Sample, start: int, end: int): seq<Delta> {
    if sample.inherited || !(start <= sample.date < end) then []
    else if sample.request then [Increment(None, sample)]
    else if c.usingRequests then []
    else [Increment(c.previous, sample)]
  }

  function Deltas(c: Counter, samples: seq<Sample>, start: int, end: int): seq<Delta>
    decreases |samples|
  {
    if samples == [] then []
    else Emitted(c, samples[0], start, end) + Deltas(Advance(c, samples[0], start, end), samples[1..], start, end)
  }

  lemma OneSampleMore(c: Counter, samples: seq<Sample>, i: nat, start: int, end: int)
    requires i < |samples|
    ensures Deltas(c, samples[i..], start, end)
      == Emitted(c, samples[i], start, end) + Deltas(Advance(c, samples[i], start, end), samples[i + 1..], start, end)
  {
    assert samples[i..][0] == samples[i] && samples[i..][1..] == samples[i + 1..];
  }

  /** One turn of the loop: what the sample becomes for the next one, and what it adds. */
  method TakeSample(previous: Option<Sample>, usingRequests: bool, sample: Sample, start: int, end: int)
    returns (next: Option<Sample>, requests: bool, added: seq<Delta>)
    ensures Counter(next, requests) == Advance(Counter(previous, usingRequests), sample, start, end)
    ensures added == Emitted(Counter(previous, usingRequests), sample, start, end)
  {
    next, requests, added := previous, usingRequests, [];
    if sample.request {
      if sample.inherited { return; }
      requests := true;
      if sample.date >= start && sample.date < end {
        added := [Delta(sample.date, sample.total, BreakdownDelta(sample, None, sample.total), true)];
      }
      return;
    }
    if usingRequests { return; }
    if sample.inherited || sample.date < start {
      next := Some(sample);
      return;
    }
    if sample.date >= end { return; }
    var counterReset := previous.Some? && sample.total < previous.value.total;
    var totalDelta := sample.total;
    if previous.Some? && !counterReset { totalDelta := sample.total - previous.value.total; }
    added := [Delta(sample.date, totalDelta, BreakdownDelta(sample, if counterReset then None else previous, totalDelta), false)];
    next := Some(sample);
  }

  /** The loop over one file's samples. */
  method CountDeltas(samples: seq<Sample>, start: int, end: int) returns (deltas: seq<Delta>)
    ensures deltas == Deltas(FRESH, samples, start, end)
  {
    var previous: Option<Sample> := None;
    var usingRequests := false;
    deltas := [];
    assert samples[0..] == samples;
    for i := 0 to |samples|
      invariant deltas + Deltas(Counter(previous, usingRequests), samples[i..], start, end) == Deltas(FRESH, samples, start, end)
    {
      ghost var c := Counter(previous, usingRequests);
      OneSampleMore(c, samples, i, start, end);
      Assoc(deltas, Emitted(c, samples[i], start, end), Deltas(Advance(c, samples[i], start, end), samples[i + 1..], start, end));
      hide Deltas, Emitted, Advance;
      var added;
      previous, usingRequests, added := TakeSample(previous, usingRequests, samples[i], start, end);
      deltas := deltas + added;
    }
    assert samples[|samples|..] == [];
  }

  // ----- Windows ---------------------------------------------------------------------------

  ghost predicate Sorted(samples: seq<Sample>) {
    forall i, j | 0 <= i < j < |samples| :: samples[i].date <= samples[j].date
  }

  ghost predicate SortedDeltas(deltas: seq<Delta>) {
    forall i, j | 0 <= i < j < |deltas| :: deltas[i].date <= deltas[j].date
  }

  function Within(deltas: seq<Delta>, start: int, end: int): seq<Delta> {
    if deltas == [] then []
    else (if start <= deltas[0].date < end then [deltas[0]] else []) + Within(deltas[1..], start, end)
  }

  /** Deltas are dated in the window, in order, and not before the samples left. */
  lemma {:induction false} DeltasAreDated(c: Counter, samples: seq<Sample>, start: int, end: int)
    requires Sorted(samples)
    ensures SortedDeltas(Deltas(c, samples, start, end))
    ensures forall d | d in Deltas(c, samples, start, end) :: start <= d.date < end && samples != [] && samples[0].date <= d.date
    ensures samples != [] && samples[0].date >= end ==> Deltas(c, samples, start, end) == []
    decreases |samples|
  {
    if samples != [] { DeltasAreDated(Advance(c, samples[0], start, end), samples[1..], start, end); }
  }

  lemma {:induction false} NothingWithin(deltas: seq<Delta>, start: int, end: int)
    requires forall d | d in deltas :: !(start <= d.date < end)
    ensures Within(deltas, start, end) == []
  {
    if deltas != [] { NothingWithin(deltas[1..], start, end); }
  }

  /** Counting over a narrower window is counting over a wider one and picking its days. */
  lemma {:induction false} NarrowerWindow(c: Counter, samples: seq<Sample>, a: int, b: int, b': int, d: int)
    requires Sorted(samples) && a <= b <= b' <= d
    ensures Deltas(c, samples, b, b') == Within(Deltas(c, samples, a, d), b, b')
    decreases |samples|
  {
    if samples != [] {
      var sample := samples[0];
      DeltasAreDated(c, samples, b, b');
      DeltasAreDated(c, samples, a, d);
      if sample.date >= b' {
        NothingWithin(Deltas(c, samples, a, d), b, b');
      } else {
        assert Advance(c, sample, b, b') == Advance(c, sample, a, d);
        assert Emitted(c, sample, b, b') == Within(Emitted(c, sample, a, d), b, b') by { hide BreakdownDelta; }
        NarrowerWindow(Advance(c, sample, a, d), samples[1..], a, b, b', d);
        WithinParts(Emitted(c, sample, a, d), Deltas(Advance(c, sample, a, d), samples[1..], a, d), b, b');
      }
    }
  }

  lemma {:induction false} WithinParts(x: seq<Delta>, y: seq<Delta>, start: int, end: int)
    ensures Within(x + y, start, end) == Within(x, start, end) + Within(y, start, end)
  {
    if x == [] {
      assert x + y == y;
    } else {
      assert (x + y)[1..] == x[1..] + y;
      WithinParts(x[1..], y, start, end);
    }
  }

  lemma {:induction false} WithinSplits(deltas: seq<Delta>, a: int, b: int, c: int)
    requires SortedDeltas(deltas) && a <= b <= c && forall d | d in deltas :: a <= d.date < c
    ensures deltas == Within(deltas, a, b) + Within(deltas, b, c)
  {
    if deltas != [] {
      WithinSplits(deltas[1..], a, b, c);
      if deltas[0].date >= b {
        forall d | d in deltas ensures d.date >= b {}
        NothingWithin(deltas, a, b);
        NothingWithin(deltas[1..], a, b);
      }
    }
  }

  /** Counting over two adjoining windows is counting over both at once. */
  lemma WindowsAdd(samples: seq<Sample>, a: int, b: int, c: int)
    requires Sorted(samples) && a <= b <= c
    ensures Deltas(FRESH, samples, a, c) == Deltas(FRESH, samples, a, b) + Deltas(FRESH, samples, b, c)
  {
    NarrowerWindow(FRESH, samples, a, a, b, c);
    NarrowerWindow(FRESH, samples, a, b, c, c);
    DeltasAreDated(FRESH, samples, a, c);
    WithinSplits(Deltas(FRESH, samples, a, c), a, b, c);
  }

  // ----- Totals of plain counters -----------------------------------------------------------------

  function Total(deltas: seq<Delta>): int {
    if deltas == [] then 0 else deltas[0].total + Total(deltas[1..])
  }

  /** The sum of the last values of the maximal runs that do not fall. */
  function Peaks(values: seq<int>): int {
    if values == [] then 0
    else (if |values| == 1 || values[1] < values[0] then values[0] else 0) + Peaks(values[1..])
  }

  /** The counter values read in the window. */
  function Values(samples: seq<Sample>, start: int, end: int): seq<int> {
    if samples == [] then []
    else (if start <= samples[0].date < end then [samples[0].total] else []) + Values(samples[1..], start, end)
  }

  /** The last value before the window, if there is one. */
  function Carried(previous: Option<Sample>, samples: seq<Sample>, start: int): seq<int>
    decreases |samples|
  {
    if samples == [] || samples[0].date >= start then (if previous.Some? then [previous.value.total] else [])
    else Carried(Some(samples[0]), samples[1..], start)
  }

  predicate Plain(samples: seq<Sample>) {
    forall s | s in samples :: !s.inherited && !s.request
  }

  function SumOf(values: seq<int>): int {
    if values == [] then 0 else values[0] + SumOf(values[1..])
  }

  lemma {:induction false} NoValues(samples: seq<Sample>, start: int, end: int)
    requires forall s | s in samples :: s.date >= end
    ensures Values(samples, start, end) == []
  {
    if samples != [] { NoValues(samples[1..], start, end); }
  }

  lemma {:induction false} PlainTotalFrom(previous: Option<Sample>, samples: seq<Sample>, start: int, end: int)
    requires Sorted(samples) && Plain(samples) && start <= end
    ensures var carried := Carried(previous, samples, start);
      Total(Deltas(Counter(previous, false), samples, start, end))
      == Peaks(carried + Values(samples, start, end)) - SumOf(carried)
    decreases |samples|
  {
    var c := Counter(previous, false);
    if samples != [] {
      var sample := samples[0];
      assert sample in samples;
      if sample.date >= end {
        forall s | s in samples ensures s.date >= end {}
        NoValues(samples, start, end);
        DeltasAreDated(c, samples, start, end);
        assert Carried(previous, samples, start) + [] == Carried(previous, samples, start);
      } else {
        PlainTotalFrom(Some(sample), samples[1..], start, end);
        if sample.date >= start {
          var rest := Values(samples[1..], start, end);
          assert Carried(Some(sample), samples[1..], start) == [sample.total];
          assert Values(samples, start, end) == [sample.total] + rest;
          var carried := Carried(previous, samples, start);
          assert (carried + ([sample.total] + rest))[|carried|..] == [sample.total] + rest;
        } else {
          assert Deltas(c, samples, start, end) == Deltas(Counter(Some(sample), false), samples[1..], start, end);
          assert Values(samples, start, end) == Values(samples[1..], start, end);
        }
      }
    } else {
      assert Carried(previous, samples, start) + [] == Carried(previous, samples, start);
    }
  }

  /**
   With plain counters the total is the sum of the peaks of the runs, minus the
   baseline that was carried into the first of them.
   */
  lemma PlainTotal(samples: seq<Sample>, start: int, end: int)
    requires Sorted(samples) && Plain(samples) && start <= end
    ensures var carried := Carried(None, samples, start);
      |carried| <= 1
      && Total(Deltas(FRESH, samples, start, end)) == Peaks(carried + Values(samples, start, end)) - SumOf(carried)
  {
    PlainTotalFrom(None, samples, start, end);
    CarriedIsOne(None, samples, start);
  }

  lemma {:induction false} CarriedIsOne(previous: Option<Sample>, samples: seq<Sample>, start: int)
    ensures |Carried(previous, samples, start)| <= 1
    decreases |samples|
  {
    if samples != [] && samples[0].date < start { CarriedIsOne(Some(samples[0]), samples[1..], start); }
  }

  // ----- Request records replace counters -----------------------------------------------------------

  /** After the first own request record, only own request records count. */
  lemma {:induction false} RequestsReplaceCounters(previous: Option<Sample>, samples: seq<Sample>, start: int, end: int)
    ensures Deltas(Counter(previous, true), samples, start, end) == RequestDeltas(samples, start, end)
  {
    if samples != [] { RequestsReplaceCounters(previous, samples[1..], start, end); }
  }

  function RequestDeltas(samples: seq<Sample>, start: int, end: int): seq<Delta> {
    if samples == [] then []
    else
      var s := samples[0];
      (if s.request && !s.inherited && start <= s.date < end then [Delta(s.date, s.total, BreakdownDelta(s, None, s.total), true)] else [])
      + RequestDeltas(samples[1..], start, end)
  }

  // ----- Which samples count ---------------------------------------------------------------------------

  predicate IsOwnRequest(s: Sample) {
    s.request && !s.inherited
  }

  /** An own sample of the window counts when it is a request, or a counter that no own request stands before. */
  predicate Counts(c: Counter, samples: seq<Sample>, i: nat, start: int, end: int) {
    && i < |samples| && !samples[i].inherited && start <= samples[i].date < end
    && (samples[i].request || (!c.usingRequests && forall j | 0 <= j < i :: !IsOwnRequest(samples[j])))
  }

  lemma CountsInTail(c: Counter, samples: seq<Sample>, i: nat, start: int, end: int)
    requires samples != []
    ensures Counts(c, samples, i + 1, start, end) <==> Counts(Advance(c, samples[0], start, end), samples[1..], i, start, end)
  {
    var tail := samples[1..];
    assert forall j | 0 <= j < |tail| :: tail[j] == samples[j + 1];
    assert forall j | 0 < j < |samples| :: samples[j] == tail[j - 1];
  }

  predicate OnlyRequests(deltas: seq<Delta>) {
    forall d | d in deltas :: d.request
  }

  /** Nothing is counted exactly when no sample counts, and only requests exactly when no counter does. */
  lemma {:induction false} WhatCounts(c: Counter, samples: seq<Sample>, start: int, end: int)
    ensures Deltas(c, samples, start, end) == [] <==> forall i: nat :: !Counts(c, samples, i, start, end)
    ensures OnlyRequests(Deltas(c, samples, start, end)) <==> forall i: nat :: Counts(c, samples, i, start, end) ==> samples[i].request
    decreases |samples|
  {
    if samples != [] {
      var s, next, tail := samples[0], Advance(c, samples[0], start, end), samples[1..];
      WhatCounts(next, tail, start, end);
      forall i: nat ensures Counts(c, samples, i + 1, start, end) <==> Counts(next, tail, i, start, end) { CountsInTail(c, samples, i, start, end); }
      assert Counts(c, samples, 0, start, end) <==> Emitted(c, s, start, end) != [];
      assert forall d | d in Emitted(c, s, start, end) :: d.request == s.request;
      assert forall i: nat :: i > 0 ==> (Counts(c, samples, i, start, end) <==> Counts(next, tail, i - 1, start, end)) by {
        forall i: nat | i > 0 ensures Counts(c, samples, i, start, end) <==> Counts(next, tail, i - 1, start, end) {
          assert Counts(c, samples, (i - 1) + 1, start, end) <==> Counts(next, tail, i - 1, start, end);
        }
      }
      assert forall i: nat :: i < |tail| ==> tail[i] == samples[i + 1];
      hide Counts, Advance, Emitted;
    }
  }

  // ----- Every delta is accountable -------------------------------------------------------------------

  predicate NonNegative(samples: seq<Sample>) {
    forall s | s in samples :: s.total >= 0
  }

  /** A delta is never negative, and its parts, when it has them, add up to it. */
  predicate Accountable(d: Delta) {
    d.total >= 0 && (d.breakdown.Some? ==> d.breakdown.value.Total() == d.total)
  }

  lemma {:induction false} DeltasAreAccountable(c: Counter, samples: seq<Sample>, start: int, end: int)
    requires NonNegative(samples)
    ensures forall d | d in Deltas(c, samples, start, end) :: Accountable(d)
    decreases |samples|
  {
    if samples != [] {
      assert samples[0] in samples;
      DeltasAreAccountable(Advance(c, samples[0], start, end), samples[1..], start, end);
    }
  }

  /** Input and output make up the total, and cached input is a part of the input. */
  predicate Consistent(s: Sample) {
    && s.breakdown.Some? && s.breakdown.value.input + s.breakdown.value.output == s.total
    && 0 <= s.breakdown.value.cached <= s.breakdown.value.input && 0 <= s.breakdown.value.output
  }

  /** Consistent samples lose no breakdown, whatever resets and records they hold. */
  lemma {:induction false} ConsistentSamplesKeepBreakdowns(c: Counter, samples: seq<Sample>, start: int, end: int)
    requires (forall s | s in samples :: Consistent(s)) && (c.previous.Some? ==> Consistent(c.previous.value))
    ensures forall d | d in Deltas(c, samples, start, end) :: d.breakdown.Some?
    decreases |samples|
  {
    if samples != [] {
      assert Consistent(samples[0]);
      ConsistentSamplesKeepBreakdowns(Advance(c, samples[0], start, end), samples[1..], start, end);
    }
  }
}

/**
 What each sample is worth, told by its place in the list: a counter by its distance
 from the nearest counter before it, a request record by itself.
 */
module TokenAmounts {
  import opened Prelude
  import opened TokenDeltas

  // ----- The worth of a sample --------------------------------------------------------

  /** Sample j is the counter that sample i is measured against: no other one lies between. */
  predicate IsBase(samples: seq<Sample>, i: nat, j: nat) {
    j < i <= |samples| && !samples[j].request && forall k | j < k < i :: samples[k].request
  }

  predicate IsFirstCounter(samples: seq<Sample>, i: nat) {
    i <= |samples| && forall k | 0 <= k < i :: samples[k].request
  }

  /** Signed parts by which a counter grew, or what it holds when it began anew. */
  function PartsSince(base: Option<Cumulative>, now: Cumulative): Breakdown {
    match base
    case None =>
      var input, cached, output := if now.input < 0 then 0 else now.input, if now.cached < 0 then 0 else now.cached, if now.output < 0 then 0 else now.output;
      Breakdown(input - cached, cached, output)
    case Some(before) =>
      Breakdown((now.input - before.input) - (now.cached - before.cached), now.cached - before.cached, now.output - before.output)
  }

  /** An increment since a base, or from nothing; its parts are told only when both ends have them and they add up. */
  predicate IsSince(d: Delta, base: Option<Sample>, s: Sample) {
    && d.date == s.date && d.request == s.request
    && d.total == (if base.Some? then s.total - base.value.total else s.total)
    && (d.breakdown.Some? <==>
          && s.breakdown.Some? && (base.Some? ==> base.value.breakdown.Some?)
          && var parts := PartsSince(if base.Some? then base.value.breakdown else None, s.breakdown.value);
            parts.regular + parts.cached + parts.output == d.total)
    && (d.breakdown.Some? ==> d.breakdown.value == PartsSince(if base.Some? then base.value.breakdown else None, s.breakdown.value))
  }

  /**
   A request record is worth itself. A counter, own or inherited before it, is worth its
   distance from the nearest counter before it, and all of itself when there is none or
   when that one is above it.
   */
  ghost predicate IsWorth(samples: seq<Sample>, i: nat, d: Delta)
    requires i < |samples|
  {
    if samples[i].request || IsFirstCounter(samples, i) then IsSince(d, None, samples[i])
    else exists j: nat :: IsBase(samples, i, j) && IsSince(d, if samples[j].total <= samples[i].total then Some(samples[j]) else None, samples[i])
  }

  /** These increments are the worths of the samples that count, in order, of the first n. */
  ghost predicate AreWorths(samples: seq<Sample>, n: nat, start: int, end: int, deltas: seq<Delta>)
    requires n <= |samples|
  {
    if n == 0 then deltas == []
    else if !Counts(FRESH, samples, n - 1, start, end) then AreWorths(samples, n - 1, start, end, deltas)
    else deltas != [] && AreWorths(samples, n - 1, start, end, deltas[..|deltas| - 1]) && IsWorth(samples, n - 1, deltas[|deltas| - 1])
  }

  // ----- The loop finds it ----------------------------------------------------------------

  function StateAt(samples: seq<Sample>, n: nat, start: int, end: int): Counter
    requires n <= |samples|
  {
    if n == 0 then FRESH else Advance(StateAt(samples, n - 1, start, end), samples[n - 1], start, end)
  }

  /** While no own request was met, and the window is not over, the state holds the nearest counter. */
  ghost predicate StateIs(samples: seq<Sample>, n: nat, c: Counter)
    requires n <= |samples|
  {
    && (c.usingRequests <==> exists k | 0 <= k < n :: IsOwnRequest(samples[k]))
    && (!c.usingRequests ==>
          if IsFirstCounter(samples, n) then c.previous == None
          else exists j: nat :: IsBase(samples, n, j) && c.previous == Some(samples[j]))
  }

  /** Every own counter so far is dated before the end. */
  predicate NotOver(samples: seq<Sample>, n: nat, end: int)
    requires n <= |samples|
  {
    forall k | 0 <= k < n :: samples[k].inherited || samples[k].request || samples[k].date < end
  }

  lemma {:induction false} StateHolds(samples: seq<Sample>, n: nat, start: int, end: int)
    requires n <= |samples| && NotOver(samples, n, end)
    ensures StateIs(samples, n, StateAt(samples, n, start, end))
  {
    if n > 0 {
      StateHolds(samples, n - 1, start, end);
      StateOneMore(samples, n - 1, StateAt(samples, n - 1, start, end), start, end);
    }
  }

  lemma StateOneMore(samples: seq<Sample>, n: nat, c: Counter, start: int, end: int)
    requires n < |samples| && StateIs(samples, n, c)
    requires samples[n].inherited || samples[n].request || samples[n].date < end
    ensures StateIs(samples, n + 1, Advance(c, samples[n], start, end))
  {
    var s, next := samples[n], Advance(c, samples[n], start, end);
    if s.request {
      if !c.usingRequests && !IsFirstCounter(samples, n) {
        var j: nat :| IsBase(samples, n, j) && c.previous == Some(samples[j]);
        assert IsBase(samples, n + 1, j);
      }
      if IsOwnRequest(s) { assert next.usingRequests; }
    } else {
      assert IsBase(samples, n + 1, n);
      assert !IsFirstCounter(samples, n + 1);
    }
  }

  lemma EmittedIsWorth(samples: seq<Sample>, n: nat, c: Counter, start: int, end: int)
    requires n < |samples| && StateIs(samples, n, c)
    ensures var emitted := Emitted(c, samples[n], start, end);
      if Counts(FRESH, samples, n, start, end) then |emitted| == 1 && IsWorth(samples, n, emitted[0]) else emitted == []
  {
    var s := samples[n];
    if Counts(FRESH, samples, n, start, end) {
      if s.request {
        IncrementIsSince(None, s);
      } else {
        assert !c.usingRequests;
        IncrementIsSince(c.previous, s);
        if !IsFirstCounter(samples, n) {
          var j: nat :| IsBase(samples, n, j) && c.previous == Some(samples[j]);
        }
      }
      hide Increment, IsSince;
    }
  }

  lemma IncrementIsSince(previous: Option<Sample>, s: Sample)
    ensures IsSince(Increment(previous, s), if previous.Some? && previous.value.total <= s.total then previous else None, s)
  {
  }

  lemma {:induction false} NothingCountsAfter(samples: seq<Sample>, n: nat, m: nat, start: int, end: int, deltas: seq<Delta>)
    requires Sorted(samples) && n <= m <= |samples| && (n < |samples| ==> samples[n].date >= end)
    ensures AreWorths(samples, m, start, end, deltas) <==> AreWorths(samples, n, start, end, deltas)
  {
    if m > n {
      assert samples[m - 1].date >= end;
      NothingCountsAfter(samples, n, m - 1, start, end, deltas);
    }
  }

  lemma {:induction false} DeltasFrom(samples: seq<Sample>, n: nat, start: int, end: int, before: seq<Delta>)
    requires Sorted(samples) && n <= |samples| && NotOver(samples, n, end) && AreWorths(samples, n, start, end, before)
    ensures AreWorths(samples, |samples|, start, end, before + Deltas(StateAt(samples, n, start, end), samples[n..], start, end))
    decreases |samples| - n
  {
    var c := StateAt(samples, n, start, end);
    if n == |samples| {
      assert samples[n..] == [] && before + [] == before;
    } else if samples[n].date >= end {
      SortedFrom(samples, n);
      DeltasAreDated(c, samples[n..], start, end);
      assert before + [] == before;
      NothingCountsAfter(samples, n, |samples|, start, end, before);
    } else {
      StateHolds(samples, n, start, end);
      EmittedIsWorth(samples, n, c, start, end);
      OneSampleMore(c, samples, n, start, end);
      var emitted := Emitted(c, samples[n], start, end);
      WorthsOneMore(samples, n, start, end, before, emitted);
      Assoc(before, emitted, Deltas(Advance(c, samples[n], start, end), samples[n + 1..], start, end));
      hide Deltas, Emitted, Advance, AreWorths;
      DeltasFrom(samples, n + 1, start, end, before + emitted);
    }
  }

  lemma SortedFrom(samples: seq<Sample>, n: nat)
    requires Sorted(samples) && n <= |samples|
    ensures Sorted(samples[n..])
  {
    assert forall i | 0 <= i < |samples| - n :: samples[n..][i] == samples[n + i];
  }

  lemma WorthsOneMore(samples: seq<Sample>, n: nat, start: int, end: int, before: seq<Delta>, emitted: seq<Delta>)
    requires n < |samples| && AreWorths(samples, n, start, end, before)
    requires if Counts(FRESH, samples, n, start, end) then |emitted| == 1 && IsWorth(samples, n, emitted[0]) else emitted == []
    ensures AreWorths(samples, n + 1, start, end, before + emitted)
  {
    if emitted == [] {
      assert before + emitted == before;
    } else {
      assert (before + emitted)[..|before|] == before && (before + emitted)[|before|] == emitted[0];
    }
  }

  /** For sorted samples the loop finds exactly the worths of the samples that count. */
  lemma DeltasAreWorths(samples: seq<Sample>, start: int, end: int)
    requires Sorted(samples)
    ensures AreWorths(samples, |samples|, start, end, Deltas(FRESH, samples, start, end))
  {
    DeltasFrom(samples, 0, start, end, []);
    assert samples[0..] == samples && [] + Deltas(FRESH, samples, start, end) == Deltas(FRESH, samples, start, end);
  }

  // ----- Totals with inherited counters ------------------------------------------------------------

  predicate OnlyCounters(samples: seq<Sample>) {
    forall s | s in samples :: !s.request
  }

  /** A stretch of own values of the window, and the value that was read before it, if there is one. */
  datatype Stretch = Stretch(carried: seq<int>, values: seq<int>)

  /** What the stretch adds: the peaks of its runs that do not fall, less what was carried into the first. */
  function Gain(stretch: Stretch): int {
    Peaks(stretch.carried + stretch.values) - SumOf(stretch.carried)
  }

  /**
   The stretches of the window: each begins anew with a counter that is inherited, or
   dated before the window, and that carries its value into it.
   */
  function Stretches(current: Stretch, samples: seq<Sample>, start: int, end: int): seq<Stretch>
    decreases |samples|
  {
    if samples == [] then [current]
    else
      var s := samples[0];
      if s.inherited || s.date < start then [current] + Stretches(Stretch([s.total], []), samples[1..], start, end)
      else if s.date >= end then Stretches(current, samples[1..], start, end)
      else Stretches(current.(values := current.values + [s.total]), samples[1..], start, end)
  }

  function GainOf(stretches: seq<Stretch>): int {
    if stretches == [] then 0 else Gain(stretches[0]) + GainOf(stretches[1..])
  }

  lemma {:induction false} PeaksSnoc(values: seq<int>, last: int)
    ensures Peaks(values + [last])
      == Peaks(values) + if values == [] then last else if values[|values| - 1] <= last then last - values[|values| - 1] else last
  {
    if |values| > 0 {
      assert (values + [last])[1..] == values[1..] + [last];
      PeaksSnoc(values[1..], last);
      if |values| == 1 { assert values[1..] == [] && (values + [last])[1] == last; } else { assert (values + [last])[1] == values[1]; }
    }
  }

  /** The values read so far end with the counter that the state holds. */
  predicate EndsWith(current: Stretch, previous: Option<Sample>) {
    var read := current.carried + current.values;
    && |current.carried| <= 1
    && (previous.None? <==> read == [])
    && (previous.Some? ==> read != [] && read[|read| - 1] == previous.value.total)
  }

  lemma GainSnoc(current: Stretch, previous: Option<Sample>, s: Sample)
    requires EndsWith(current, previous)
    ensures var next := current.(values := current.values + [s.total]);
      Gain(next) == Gain(current) + Increment(previous, s).total && EndsWith(next, Some(s))
  {
    var read := current.carried + current.values;
    assert current.carried + (current.values + [s.total]) == read + [s.total];
    PeaksSnoc(read, s.total);
    hide Peaks, BreakdownDelta;
  }

  lemma {:induction false} NoGainAfter(current: Stretch, samples: seq<Sample>, start: int, end: int)
    requires forall s | s in samples :: s.date >= end
    ensures GainOf(Stretches(current, samples, start, end)) == Gain(current)
    decreases |samples|
  {
    if samples != [] {
      var s, tail := samples[0], samples[1..];
      assert s in samples && forall x | x in tail :: x in samples;
      if s.inherited || s.date < start {
        NoGainAfter(Stretch([s.total], []), tail, start, end);
        assert Gain(Stretch([s.total], [])) == 0 by { CarriedAlone(s.total); }
        assert ([current] + Stretches(Stretch([s.total], []), tail, start, end))[1..] == Stretches(Stretch([s.total], []), tail, start, end);
        hide Gain;
      } else {
        NoGainAfter(current, tail, start, end);
      }
    } else {
      assert [current][1..] == [];
    }
  }

  lemma CarriedEnds(s: Sample)
    ensures EndsWith(Stretch([s.total], []), Some(s))
  {
    assert [s.total] + [] == [s.total];
  }

  lemma CarriedAlone(x: int)
    ensures Gain(Stretch([x], [])) == 0
  {
    var stretch := Stretch([x], []);
    assert stretch.carried + stretch.values == [x] && [x][1..] == [];
    assert Peaks([x]) == x + Peaks([]) && SumOf([x]) == x + SumOf([]);
  }

  lemma ReadBefore(current: Stretch, previous: Option<Sample>, samples: seq<Sample>, start: int, end: int)
    requires samples != [] && !samples[0].request && samples[0].date < end && (samples[0].inherited || samples[0].date < start)
    ensures var s, tail := samples[0], samples[1..];
      && Deltas(Counter(previous, false), samples, start, end) == Deltas(Counter(Some(s), false), tail, start, end)
      && GainOf(Stretches(current, samples, start, end)) == Gain(current) + GainOf(Stretches(Stretch([s.total], []), tail, start, end))
  {
    var s, tail := samples[0], samples[1..];
    var rest, later := Deltas(Counter(Some(s), false), tail, start, end), Stretches(Stretch([s.total], []), tail, start, end);
    assert Deltas(Counter(previous, false), samples, start, end) == [] + rest && [] + rest == rest;
    assert Stretches(current, samples, start, end) == [current] + later;
    hide Gain, Deltas, Stretches;
    assert ([current] + later)[1..] == later;
  }

  lemma ReadWithin(current: Stretch, previous: Option<Sample>, samples: seq<Sample>, start: int, end: int)
    requires samples != [] && !samples[0].request && !samples[0].inherited && start <= samples[0].date < end
    ensures var s, tail := samples[0], samples[1..];
      && Total(Deltas(Counter(previous, false), samples, start, end))
        == Increment(previous, s).total + Total(Deltas(Counter(Some(s), false), tail, start, end))
      && Stretches(current, samples, start, end) == Stretches(current.(values := current.values + [s.total]), tail, start, end)
  {
    var s, tail := samples[0], samples[1..];
    var d, rest := Increment(previous, s), Deltas(Counter(Some(s), false), tail, start, end);
    assert Deltas(Counter(previous, false), samples, start, end) == [d] + rest;
    hide Deltas, Increment;
    assert ([d] + rest)[1..] == rest;
  }

  /** What is still to be read adds what the stretches from here on gain. */
  ghost predicate Adds(current: Stretch, previous: Option<Sample>, samples: seq<Sample>, start: int, end: int) {
    Gain(current) + Total(Deltas(Counter(previous, false), samples, start, end)) == GainOf(Stretches(current, samples, start, end))
  }

  lemma AddsNothing(current: Stretch, previous: Option<Sample>, start: int, end: int)
    ensures Adds(current, previous, [], start, end)
  {
    hide Gain;
    assert [current][1..] == [];
    assert Stretches(current, [], start, end) == [current] && Deltas(Counter(previous, false), [], start, end) == [];
    assert GainOf([current]) == Gain(current) + GainOf([]);
  }

  lemma AddsBefore(current: Stretch, previous: Option<Sample>, samples: seq<Sample>, start: int, end: int)
    requires samples != [] && !samples[0].request && samples[0].date < end && (samples[0].inherited || samples[0].date < start)
    requires Adds(Stretch([samples[0].total], []), Some(samples[0]), samples[1..], start, end)
    ensures Adds(current, previous, samples, start, end)
  {
    ReadBefore(current, previous, samples, start, end);
    CarriedAlone(samples[0].total);
    hide Gain, Deltas, Stretches, GainOf, Total;
  }

  lemma AddsWithin(current: Stretch, previous: Option<Sample>, samples: seq<Sample>, start: int, end: int)
    requires samples != [] && !samples[0].request && !samples[0].inherited && start <= samples[0].date < end && EndsWith(current, previous)
    requires Adds(current.(values := current.values + [samples[0].total]), Some(samples[0]), samples[1..], start, end)
    ensures Adds(current, previous, samples, start, end)
  {
    ReadWithin(current, previous, samples, start, end);
    GainSnoc(current, previous, samples[0]);
    hide Gain, Deltas, Stretches, GainOf, Total, EndsWith, Increment;
  }

  lemma {:induction false} TotalFrom(current: Stretch, previous: Option<Sample>, samples: seq<Sample>, start: int, end: int)
    requires Sorted(samples) && OnlyCounters(samples) && start <= end && EndsWith(current, previous)
    ensures Adds(current, previous, samples, start, end)
    decreases |samples|
  {
    if samples == [] {
      AddsNothing(current, previous, start, end);
    } else {
      var s, tail := samples[0], samples[1..];
      TailCounts(samples);
      if s.date >= end {
        NothingLeft(current, previous, samples, start, end);
        hide Gain, Deltas, Stretches, GainOf, Total;
      } else if s.inherited || s.date < start {
        CarriedEnds(s);
        hide *;
        TotalFrom(Stretch([s.total], []), Some(s), tail, start, end);
        AddsBefore(current, previous, samples, start, end);
      } else {
        GainSnoc(current, previous, s);
        hide *;
        TotalFrom(current.(values := current.values + [s.total]), Some(s), tail, start, end);
        AddsWithin(current, previous, samples, start, end);
      }
    }
  }

  lemma TailCounts(samples: seq<Sample>)
    requires Sorted(samples) && OnlyCounters(samples) && samples != []
    ensures Sorted(samples[1..]) && OnlyCounters(samples[1..]) && !samples[0].request
  {
    assert samples[0] in samples && forall x | x in samples[1..] :: x in samples;
    SortedFrom(samples, 1);
  }

  lemma NothingLeft(current: Stretch, previous: Option<Sample>, samples: seq<Sample>, start: int, end: int)
    requires Sorted(samples) && samples != [] && samples[0].date >= end
    ensures Total(Deltas(Counter(previous, false), samples, start, end)) == 0 && GainOf(Stretches(current, samples, start, end)) == Gain(current)
  {
    DeltasAreDated(Counter(previous, false), samples, start, end);
    NoGainAfter(current, samples, start, end);
  }

  /** With inherited counters among them, counters add what the stretches between these gain. */
  lemma CounterTotal(samples: seq<Sample>, start: int, end: int)
    requires Sorted(samples) && OnlyCounters(samples) && start <= end
    ensures Total(Deltas(FRESH, samples, start, end)) == GainOf(Stretches(Stretch([], []), samples, start, end))
  {
    TotalFrom(Stretch([], []), None, samples, start, end);
  }

  /** A fork counts only what it adds to the total of its source. */
  lemma ForkCountsItsOwn(source: Sample, own: Sample, start: int, end: int)
    requires source.inherited && !source.request && !own.inherited && !own.request
    requires source.date <= own.date && start <= own.date < end && source.total <= own.total
    ensures |Deltas(FRESH, [source, own], start, end)| == 1 && Deltas(FRESH, [source, own], start, end)[0].total == own.total - source.total
  {
    assert [source, own][1..] == [own] && [own][1..] == [];
    assert Deltas(Counter(Some(source), false), [own], start, end) == [Increment(Some(source), own)] + [];
  }
}

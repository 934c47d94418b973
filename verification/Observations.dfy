/**
 Observed tasks: which count as waiting or running, how observations of one task
 are merged, and the activity totals. A key pairs the host with the task.
 */
module Observations {
  import opened Prelude
  import StableSort

  type Key = (string, string)

  datatype Observation = Observation(
    host: string,
    id: string,
    nickname: Option<string>,
    source: Option<string>,
    status: string,
    flags: seq<string>,
    methods: seq<string>,
    plan: bool)

  datatype Class = Ignored | Completed | Running | Waiting

  predicate IsBusy(c: Class) {
    c == Waiting || c == Running
  }

  function KeyOf(o: Observation): Key {
    (o.host, o.id)
  }

  function KeyText(key: Key): string {
    key.0 + ":" + key.1
  }

  /** Keys may be written as one text only because hosts are free of colons. */
  lemma KeyTextIsInjective(a: Key, b: Key)
    requires ':' !in a.0 && ':' !in b.0 && KeyText(a) == KeyText(b)
    ensures a == b
  {
    var x, y := |a.0|, |b.0|;
    assert KeyText(a)[x] == ':' && KeyText(b)[y] == ':';
    assert forall i | 0 <= i < x :: KeyText(a)[i] == a.0[i] && a.0[i] != ':';
    assert forall i | 0 <= i < y :: KeyText(b)[i] == b.0[i] && b.0[i] != ':';
    assert x == y;
    assert KeyText(a)[..x] == a.0 && KeyText(b)[..y] == b.0;
    assert KeyText(a)[x + 1..] == a.1 && KeyText(b)[y + 1..] == b.1;
  }

  /** Tasks of two hosts can share a text exactly when one host, followed by a colon, begins the other. */
  lemma KeyTextCanCollide(g: string, h: string)
    requires g != h
    ensures (exists x, y :: KeyText((g, x)) == KeyText((h, y))) <==> g + ":" <= h || h + ":" <= g
  {
    forall x, y | KeyText((g, x)) == KeyText((h, y)) ensures g + ":" <= h || h + ":" <= g { SharedTextSplits(g, x, h, y); }
    if g + ":" <= h {
      SharedText(g, h);
    } else if h + ":" <= g {
      SharedText(h, g);
      assert KeyText((g, "")) == KeyText((h, (g + ":")[|h| + 1..]));
    }
  }

  lemma SharedTextSplits(g: string, x: string, h: string, y: string)
    requires g != h && KeyText((g, x)) == KeyText((h, y))
    ensures g + ":" <= h || h + ":" <= g
  {
    var text := KeyText((g, x));
    assert text[..|g|] == g && text[..|h|] == h && text[|g|] == ':' && text[|h|] == ':';
    if |g| < |h| {
      assert h[..|g| + 1] == text[..|g| + 1] == g + ":";
    } else if |h| < |g| {
      assert g[..|h| + 1] == text[..|h| + 1] == h + ":";
    }
  }

  lemma SharedText(g: string, h: string)
    requires g + ":" <= h
    ensures KeyText((g, (h + ":")[|g| + 1..])) == KeyText((h, ""))
  {
    assert (h + ":")[..|g| + 1] == g + ":";
    assert h + ":" == (h + ":")[..|g| + 1] + (h + ":")[|g| + 1..];
  }

  // ----- Classification ------------------------------------------------------------

  function Lower(text: string): (result: string)
    ensures |result| == |text|
  {
    seq(|text|, i requires 0 <= i < |text| => if 'A' <= text[i] <= 'Z' then text[i] - 'A' + 'a' else text[i])
  }

  predicate Contains(text: string, part: string) {
    exists i | 0 <= i <= |text| :: part <= text[i..]
  }

  predicate NonEmpty(value: Option<string>) {
    value.Some? && value.value != ""
  }

  predicate IsInternal(o: Observation) {
    NonEmpty(o.nickname) || (o.source.Some? && Contains(Lower(o.source.value), "subagent"))
  }

  function Classify(o: Observation): Class {
    if IsInternal(o) then Ignored
    else if o.plan || |o.flags| > 0 || |o.methods| > 0 then Waiting
    else if o.status == "active" then Running
    else Ignored
  }

  /** A task that is not a helper's waits when anything is asked of it, else runs when it is active, and is ignored otherwise. */
  lemma ClassifyMeans(o: Observation)
    ensures Classify(o) == Waiting <==> !IsInternal(o) && (o.plan || o.flags != [] || o.methods != [])
    ensures Classify(o) == Running <==> !IsInternal(o) && !o.plan && o.flags == [] == o.methods && o.status == "active"
    ensures Classify(o) != Completed
    ensures IsInternal(o) <==> (o.nickname.Some? && o.nickname.value != "") || (o.source.Some? && exists i | 0 <= i <= |o.source.value| :: "subagent" <= Lower(o.source.value)[i..])
  {
  }

  function Rank(c: Class): nat {
    match c
    case Waiting => 3
    case Running => 2
    case Completed => 1
    case Ignored => 0
  }

  // ----- Merging observations of one task -----------------------------------------------

  /** Every text but the empty one, once, at its first place. */
  function Distinct(values: seq<string>): seq<string> {
    if values == [] then []
    else
      var init, last := Distinct(values[..|values| - 1]), values[|values| - 1];
      if last != "" && last !in init then init + [last] else init
  }

  function Unique(values: seq<string>): seq<string> {
    StableSort.Sort(StableSort.TextBefore, Distinct(values))
  }

  function Merge(current: Observation, value: Observation): Observation {
    current.(
      status := if value.status == "active" then "active" else current.status,
      flags := Unique(current.flags + value.flags),
      methods := Unique(current.methods + value.methods),
      plan := current.plan || value.plan,
      nickname := if current.nickname.None? then value.nickname else current.nickname,
      source := if current.source.None? then value.source else current.source)
  }

  function Merged(values: seq<Observation>): Observation
    requires values != []
  {
    if |values| == 1 then values[0] else Merge(Merged(values[..|values| - 1]), values[|values| - 1])
  }

  /** The observations of a task that are not ignored, in order. */
  function ValuesOf(observations: seq<Observation>, key: Key): seq<Observation> {
    if observations == [] then []
    else
      var last := observations[|observations| - 1];
      ValuesOf(observations[..|observations| - 1], key)
      + if KeyOf(last) == key && Classify(last) != Ignored then [last] else []
  }

  lemma {:induction false} ValuesCount(observations: seq<Observation>, key: Key)
    ensures forall o | o in ValuesOf(observations, key) :: o in observations && KeyOf(o) == key && Classify(o) != Ignored
  {
    if observations != [] { ValuesCount(observations[..|observations| - 1], key); }
  }

  /** The merged observation of each task that has one. */
  function MergedAll(observations: seq<Observation>): (merged: map<Key, Observation>)
    ensures forall key :: key in merged <==> ValuesOf(observations, key) != []
    ensures forall key | key in merged :: merged[key] == Merged(ValuesOf(observations, key))
  {
    var keys := set o | o in observations :: KeyOf(o);
    assert forall key | ValuesOf(observations, key) != [] :: key in keys by {
      forall key | ValuesOf(observations, key) != [] ensures key in keys {
        ValuesCount(observations, key);
        assert ValuesOf(observations, key)[0] in ValuesOf(observations, key);
      }
    }
    map key | key in keys && ValuesOf(observations, key) != [] :: Merged(ValuesOf(observations, key))
  }

  /** The merged observations of all tasks seen so far. */
  ghost predicate MergesAll(result: map<Key, Observation>, observations: seq<Observation>) {
    && (forall key :: key in result <==> ValuesOf(observations, key) != [])
    && (forall key | key in result :: result[key] == Merged(ValuesOf(observations, key)))
  }

  lemma MergeOneMore(result: map<Key, Observation>, observations: seq<Observation>, value: Observation)
    requires MergesAll(result, observations)
    ensures var key := KeyOf(value);
      MergesAll(if Classify(value) == Ignored then result
                else result[key := if key in result then Merge(result[key], value) else value], observations + [value])
  {
    forall key { OneValueMore(observations, value, key); }
    hide ValuesOf, Merged, Merge, Classify;
  }

  method Deduplicate(observations: seq<Observation>) returns (result: map<Key, Observation>)
    ensures result == MergedAll(observations)
  {
    result := map[];
    for i := 0 to |observations|
      invariant MergesAll(result, observations[..i])
    {
      var value := observations[i];
      MergeOneMore(result, observations[..i], value);
      hide MergesAll, Merge, Classify;
      assert observations[..i + 1] == observations[..i] + [value];
      if Classify(value) != Ignored {
        var key := KeyOf(value);
        result := result[key := if key in result then Merge(result[key], value) else value];
      }
    }
    assert observations[..|observations|] == observations;
    hide ValuesOf, Merged;
  }

  lemma OneValueMore(observations: seq<Observation>, value: Observation, key: Key)
    ensures var before, after := ValuesOf(observations, key), ValuesOf(observations + [value], key);
      if KeyOf(value) == key && Classify(value) != Ignored
      then after == before + [value] && Merged(after) == if before == [] then value else Merge(Merged(before), value)
      else after == before
  {
    hide Classify, Merge;
    assert (observations + [value])[..|observations|] == observations;
    var before := ValuesOf(observations, key);
    assert (before + [value])[..|before|] == before;
    assert before + [] == before;
  }

  // ----- What a merged observation is ---------------------------------------------------------

  function Texts(values: seq<string>): set<string> {
    set v | v in values && v != ""
  }

  lemma TextsSnoc(values: seq<string>, last: string)
    ensures Texts(values + [last]) == Texts(values) + if last == "" then {} else {last}
  {
  }

  lemma {:induction false} DistinctTexts(values: seq<string>)
    ensures Texts(Distinct(values)) == Texts(values) && "" !in Distinct(values)
  {
    if values != [] {
      var init, last := values[..|values| - 1], values[|values| - 1];
      DistinctTexts(init);
      assert values == init + [last];
      TextsSnoc(init, last);
      TextsSnoc(Distinct(init), last);
      assert last != "" && last in Distinct(init) ==> last in Texts(Distinct(init));
      assert Distinct(values) == if last != "" && last !in Distinct(init) then Distinct(init) + [last] else Distinct(init);
      hide Texts, Distinct;
    }
  }

  lemma UniqueTexts(values: seq<string>)
    ensures Texts(Unique(values)) == Texts(values) && "" !in Unique(values)
  {
    DistinctTexts(values);
    StableSort.SortKeepsAll(StableSort.TextBefore, Distinct(values));
    SameElements(Unique(values), Distinct(values));
  }

  lemma SameElements(a: seq<string>, b: seq<string>)
    requires multiset(a) == multiset(b)
    ensures forall x :: x in a <==> x in b
  {
    forall x ensures x in a <==> x in b { assert x in multiset(a) <==> x in multiset(b); }
  }

  /** Something that survives merging makes the task wait: a plan, or a text that is not empty. */
  predicate Solid(o: Observation) {
    o.plan || Texts(o.flags) != {} || Texts(o.methods) != {}
  }

  lemma {:induction false} MergedFacts(values: seq<Observation>)
    requires values != [] && forall v | v in values :: Classify(v) != Ignored
    ensures var m := Merged(values);
      && !IsInternal(m) && KeyOf(m) == KeyOf(values[0])
      && (m.status == "active" <==> exists v | v in values :: v.status == "active")
      && (Solid(m) <==> exists v | v in values :: Solid(v))
      && (|values| > 1 ==> "" !in m.flags && "" !in m.methods)
  {
    if |values| == 1 {
      assert values[0] in values;
    } else {
      var init, last := values[..|values| - 1], values[|values| - 1];
      assert values == init + [last];
      assert last in values;
      MergedFacts(init);
      var m := Merged(init);
      UniqueTexts(m.flags + last.flags);
      UniqueTexts(m.methods + last.methods);
      assert Texts(m.flags + last.flags) == Texts(m.flags) + Texts(last.flags);
      assert Texts(m.methods + last.methods) == Texts(m.methods) + Texts(last.methods);
      MergeTwo(m, last);
      hide Merge, Merged, Classify, IsInternal, Texts, Unique;
      assert Merged(values) == Merge(m, last);
    }
  }

  lemma MergeTwo(m: Observation, last: Observation)
    requires !IsInternal(m) && !IsInternal(last)
    requires Texts(Unique(m.flags + last.flags)) == Texts(m.flags) + Texts(last.flags)
    requires Texts(Unique(m.methods + last.methods)) == Texts(m.methods) + Texts(last.methods)
    ensures var r := Merge(m, last);
      && !IsInternal(r) && KeyOf(r) == KeyOf(m)
      && (r.status == "active" <==> m.status == "active" || last.status == "active")
      && (Solid(r) <==> Solid(m) || Solid(last))
      && r.flags == Unique(m.flags + last.flags) && r.methods == Unique(m.methods + last.methods)
  {
    hide Unique, Texts, Contains, Lower;
  }

  /** No text twice. */
  predicate NoRepeats(texts: seq<string>) {
    forall i, j | 0 <= i < j < |texts| :: texts[i] != texts[j]
  }

  lemma {:induction false} DistinctNeverRepeats(values: seq<string>)
    ensures NoRepeats(Distinct(values))
  {
    if values != [] { DistinctNeverRepeats(values[..|values| - 1]); }
  }

  lemma NoRepeatsOfSame(a: seq<string>, b: seq<string>)
    requires multiset(a) == multiset(b) && NoRepeats(a)
    ensures NoRepeats(b)
  {
    forall x ensures multiset(b)[x] <= 1 { OnceAtMost(a, x); }
    forall i, j | 0 <= i < j < |b| ensures b[i] != b[j] {
      OccursTwice(b, i, j);
    }
  }

  lemma OccursTwice(b: seq<string>, i: nat, j: nat)
    requires i < j < |b|
    ensures b[i] == b[j] ==> multiset(b)[b[j]] >= 2
  {
    assert b == b[..j] + [b[j]] + b[j + 1..];
    assert b[..j][i] == b[i];
  }

  lemma {:induction false} OnceAtMost(a: seq<string>, x: string)
    requires NoRepeats(a)
    ensures multiset(a)[x] <= 1
  {
    if a != [] {
      var init, last := a[..|a| - 1], a[|a| - 1];
      assert a == init + [last];
      OnceAtMost(init, x);
      assert last !in init;
    }
  }

  /** The unique texts are sorted, and none is there twice. */
  lemma UniqueIsSorted(values: seq<string>)
    ensures StableSort.Ordered(StableSort.TextBefore, Unique(values)) && NoRepeats(Unique(values))
  {
    forall a, b, c { StableSort.TextBeforeIsStrict(a, b, c); }
    StableSort.SortOrders(StableSort.TextBefore, Distinct(values));
    StableSort.SortKeepsAll(StableSort.TextBefore, Distinct(values));
    DistinctNeverRepeats(values);
    NoRepeatsOfSame(Distinct(values), Unique(values));
  }

  /** What the first observation that has one says. */
  ghost predicate IsFirstGiven(values: seq<Observation>, field: Observation -> Option<string>, given: Option<string>) {
    if given.None? then forall i | 0 <= i < |values| :: field(values[i]).None?
    else exists i | 0 <= i < |values| :: field(values[i]) == given && forall j | 0 <= j < i :: field(values[j]).None?
  }

  lemma FirstGivenSnoc(values: seq<Observation>, last: Observation, field: Observation -> Option<string>, given: Option<string>)
    requires IsFirstGiven(values, field, given)
    ensures IsFirstGiven(values + [last], field, if given.None? then field(last) else given)
  {
    var all, n := values + [last], |values|;
    assert all[n] == last && forall i | 0 <= i < n :: all[i] == values[i];
    if given.Some? {
      var i :| 0 <= i < n && field(values[i]) == given && forall j | 0 <= j < i :: field(values[j]).None?;
      assert field(all[i]) == given;
    } else if field(last).Some? {
      assert field(all[n]) == field(last);
    }
  }

  /** Exactly the texts, other than the empty one, that some observation has in this field. */
  ghost predicate AreAllTexts(values: seq<Observation>, field: Observation -> seq<string>, texts: seq<string>) {
    forall f: string | f != "" :: f in texts <==> exists i | 0 <= i < |values| :: f in field(values[i])
  }

  lemma AllTextsSnoc(values: seq<Observation>, last: Observation, field: Observation -> seq<string>, texts: seq<string>)
    requires AreAllTexts(values, field, texts)
    ensures AreAllTexts(values + [last], field, Unique(texts + field(last)))
  {
    var all, n := values + [last], |values|;
    var merged := Unique(texts + field(last));
    UniqueTexts(texts + field(last));
    hide Unique;
    assert all[n] == last && forall i | 0 <= i < n :: all[i] == values[i];
    forall f: string | f != "" ensures f in merged <==> exists i | 0 <= i < |all| :: f in field(all[i]) {
      assert f in merged <==> f in Texts(merged);
      assert f in Texts(merged) <==> f in texts || f in field(last);
      if i :| 0 <= i < n && f in field(values[i]) { assert f in field(all[i]); }
      if f in field(last) { assert f in field(all[n]); }
    }
  }

  /** A merged task has each fact that some observation of it has, and the name and source of the first that has one. */
  ghost predicate HoldsFacts(values: seq<Observation>, m: Observation) {
    && AreAllTexts(values, (o: Observation) => o.flags, m.flags) && AreAllTexts(values, (o: Observation) => o.methods, m.methods)
    && (m.plan <==> exists i | 0 <= i < |values| :: values[i].plan)
    && values != [] && KeyOf(m) == KeyOf(values[0]) && (m.status == "active" || m.status == values[0].status)
    && IsFirstGiven(values, (o: Observation) => o.nickname, m.nickname) && IsFirstGiven(values, (o: Observation) => o.source, m.source)
  }

  lemma FactsOfOne(o: Observation)
    ensures HoldsFacts([o], o)
  {
    assert [o][0] == o;
    assert IsFirstGiven([o], (o: Observation) => o.nickname, o.nickname);
    assert IsFirstGiven([o], (o: Observation) => o.source, o.source);
  }

  lemma FactsOfMerge(values: seq<Observation>, m: Observation, last: Observation)
    requires HoldsFacts(values, m)
    ensures HoldsFacts(values + [last], Merge(m, last))
  {
    AllTextsSnoc(values, last, (o: Observation) => o.flags, m.flags);
    AllTextsSnoc(values, last, (o: Observation) => o.methods, m.methods);
    FirstGivenSnoc(values, last, (o: Observation) => o.nickname, m.nickname);
    FirstGivenSnoc(values, last, (o: Observation) => o.source, m.source);
    hide AreAllTexts, IsFirstGiven, Unique;
    var all := values + [last];
    assert all[|values|] == last && forall i | 0 <= i < |values| :: all[i] == values[i];
    if i :| 0 <= i < |values| && values[i].plan { assert all[i].plan; }
    if last.plan { assert all[|values|].plan; }
  }

  lemma {:induction false} MergedHolds(values: seq<Observation>)
    requires values != []
    ensures HoldsFacts(values, Merged(values))
    ensures |values| > 1 ==> NoRepeats(Merged(values).flags) && NoRepeats(Merged(values).methods)
  {
    if |values| == 1 {
      FactsOfOne(values[0]);
      assert values == [values[0]];
    } else {
      var init, last := values[..|values| - 1], values[|values| - 1];
      assert values == init + [last];
      MergedHolds(init);
      var m := Merged(init);
      FactsOfMerge(init, m, last);
      UniqueIsSorted(m.flags + last.flags);
      UniqueIsSorted(m.methods + last.methods);
      assert Merged(values) == Merge(m, last);
      hide HoldsFacts, NoRepeats, Unique, Merged;
    }
  }

  // ----- Activity totals -----------------------------------------------------------------------

  /** The highest-ranking class of a task's observations. */
  function MaxClass(values: seq<Observation>): Class {
    if values == [] then Ignored
    else
      var best, next := MaxClass(values[..|values| - 1]), Classify(values[|values| - 1]);
      if Rank(next) > Rank(best) then next else best
  }

  function KeysOf(classes: map<Key, Class>, c: Class): set<Key> {
    set key | key in classes && classes[key] == c
  }

  lemma MaxClassSnoc(values: seq<Observation>, value: Observation)
    ensures MaxClass(values + [value]) == if Rank(Classify(value)) > Rank(MaxClass(values)) then Classify(value) else MaxClass(values)
  {
    hide Classify;
    assert (values + [value])[..|values|] == values;
  }

  lemma OneClassMore(observations: seq<Observation>, value: Observation, key: Key)
    ensures var before, after := ValuesOf(observations, key), ValuesOf(observations + [value], key);
      if KeyOf(value) == key && Classify(value) != Ignored
      then after != [] && MaxClass(after)
             == if before != [] && Rank(Classify(value)) <= Rank(MaxClass(before)) then MaxClass(before) else Classify(value)
      else after == before
  {
    OneValueMore(observations, value, key);
    MaxClassSnoc(ValuesOf(observations, key), value);
    hide ValuesOf, Merged, Merge, Classify;
  }

  method Classifications(observations: seq<Observation>) returns (classes: map<Key, Class>)
    ensures forall key :: key in classes <==> ValuesOf(observations, key) != []
    ensures forall key | key in classes :: classes[key] == MaxClass(ValuesOf(observations, key))
  {
    classes := map[];
    for i := 0 to |observations|
      invariant forall key :: key in classes <==> ValuesOf(observations[..i], key) != []
      invariant forall key | key in classes :: classes[key] == MaxClass(ValuesOf(observations[..i], key))
    {
      var value := observations[i];
      assert observations[..i + 1] == observations[..i] + [value];
      forall key { OneClassMore(observations[..i], value, key); }
      hide ValuesOf, Classify, MaxClass;
      var classification := Classify(value);
      if classification == Ignored { continue; }
      var key := KeyOf(value);
      if Rank(classification) > if key in classes then Rank(classes[key]) else 0 {
        classes := classes[key := classification];
      }
    }
    assert observations[..|observations|] == observations;
  }

  lemma OneKeyLess(classes: map<Key, Class>, c: Class, left: set<Key>, key: Key)
    requires key in left && left <= classes.Keys
    ensures |KeysOf(classes, c) - (left - {key})| == |KeysOf(classes, c) - left| + if classes[key] == c then 1 else 0
  {
    var before, after := KeysOf(classes, c) - left, KeysOf(classes, c) - (left - {key});
    assert after == if classes[key] == c then before + {key} else before;
  }

  /** The totals: each task counts once, under its highest class. */
  method SummarizeActivity(observations: seq<Observation>) returns (classes: map<Key, Class>, running: nat, waiting: nat)
    ensures forall key :: key in classes <==> ValuesOf(observations, key) != []
    ensures forall key | key in classes :: classes[key] == MaxClass(ValuesOf(observations, key))
    ensures running == |KeysOf(classes, Running)| && waiting == |KeysOf(classes, Waiting)|
  {
    classes := Classifications(observations);
    hide ValuesOf, MaxClass, KeysOf;
    running, waiting := CountStates(classes);
  }

  method CountStates(classes: map<Key, Class>) returns (running: nat, waiting: nat)
    ensures running == |KeysOf(classes, Running)| && waiting == |KeysOf(classes, Waiting)|
  {
    running, waiting := 0, 0;
    var left := classes.Keys;
    assert KeysOf(classes, Running) - left == {} && KeysOf(classes, Waiting) - left == {};
    while left != {}
      invariant left <= classes.Keys
      invariant running == |KeysOf(classes, Running) - left| && waiting == |KeysOf(classes, Waiting) - left|
      decreases left
    {
      var key :| key in left;
      OneKeyLess(classes, Running, left, key);
      OneKeyLess(classes, Waiting, left, key);
      hide KeysOf;
      left := left - {key};
      if classes[key] == Running { running := running + 1; }
      if classes[key] == Waiting { waiting := waiting + 1; }
    }
    assert KeysOf(classes, Running) - left == KeysOf(classes, Running) && KeysOf(classes, Waiting) - left == KeysOf(classes, Waiting);
  }

  /** Several observations of a task, some of which wait for nothing but empty texts. */
  predicate Hollow(values: seq<Observation>) {
    && |values| > 1
    && (exists v | v in values :: Classify(v) == Waiting)
    && (forall v | v in values :: !Solid(v))
  }

  lemma {:induction false} MaxClassFacts(values: seq<Observation>)
    requires values != [] && forall v | v in values :: Classify(v) != Ignored
    ensures MaxClass(values) == if exists v | v in values :: Classify(v) == Waiting then Waiting else Running
  {
    var init, last := values[..|values| - 1], values[|values| - 1];
    assert values == init + [last];
    assert last in values;
    if init != [] { MaxClassFacts(init); }
    hide Classify;
  }

  lemma SolidWaits(o: Observation)
    requires !IsInternal(o)
    ensures Solid(o) ==> Classify(o) == Waiting
    ensures "" !in o.flags && "" !in o.methods && Classify(o) == Waiting ==> Solid(o)
  {
    if o.flags != [] && "" !in o.flags { assert o.flags[0] in Texts(o.flags); }
    if o.methods != [] && "" !in o.methods { assert o.methods[0] in Texts(o.methods); }
  }

  /** The highest class is the class of the merged observation, except for a hollow task. */
  lemma SummaryMatchesMerge(values: seq<Observation>)
    requires values != [] && forall v | v in values :: Classify(v) != Ignored
    ensures MaxClass(values) == Classify(Merged(values)) <==> !Hollow(values)
  {
    MergedFacts(values);
    MaxClassFacts(values);
    var m := Merged(values);
    SolidWaits(m);
    forall v | v in values ensures Solid(v) ==> Classify(v) == Waiting { SolidWaits(v); }
    if |values| == 1 {
      assert m == values[0] && values[0] in values;
      assert forall v | v in values :: v == values[0];
    }
    assert values[0] in values;
    hide Merged, Solid, IsInternal, MaxClass;
  }

  /** Without empty texts no task is hollow. */
  lemma NoEmptyTextsNoHollow(values: seq<Observation>)
    requires forall v | v in values :: Classify(v) != Ignored && "" !in v.flags && "" !in v.methods
    ensures !Hollow(values)
  {
    forall v | v in values && Classify(v) == Waiting ensures Solid(v) { SolidWaits(v); }
  }

  /** The totals count the merged observations by class, if no task is hollow. */
  lemma TotalsMatchMerged(observations: seq<Observation>, classes: map<Key, Class>, c: Class)
    requires forall key :: key in classes <==> ValuesOf(observations, key) != []
    requires forall key | key in classes :: classes[key] == MaxClass(ValuesOf(observations, key))
    requires forall key :: !Hollow(ValuesOf(observations, key))
    ensures KeysOf(classes, c) == set key | key in MergedAll(observations) && Classify(MergedAll(observations)[key]) == c
  {
    var merged := MergedAll(observations);
    forall key | key in classes ensures key in merged && classes[key] == Classify(merged[key]) {
      ValuesCount(observations, key);
      SummaryMatchesMerge(ValuesOf(observations, key));
    }
    hide Classify, MaxClass, Merged, ValuesOf, Hollow, MergedAll;
  }

  // ----- The observations there are ----------------------------------------------------------

  /** Both sources of observations collect texts, and drop repeated and empty ones. */
  function Produced(raw: Observation): Observation {
    raw.(flags := Unique(raw.flags), methods := Unique(raw.methods))
  }

  /** For what the sources produce, in any order and however often, the totals always match. */
  lemma ProducedTotalsMatch(observations: seq<Observation>, classes: map<Key, Class>, c: Class)
    requires forall o | o in observations :: exists raw :: o == Produced(raw)
    requires forall key :: key in classes <==> ValuesOf(observations, key) != []
    requires forall key | key in classes :: classes[key] == MaxClass(ValuesOf(observations, key))
    ensures KeysOf(classes, c) == set key | key in MergedAll(observations) && Classify(MergedAll(observations)[key]) == c
  {
    forall key ensures !Hollow(ValuesOf(observations, key)) {
      ValuesCount(observations, key);
      forall o | o in ValuesOf(observations, key) ensures "" !in o.flags && "" !in o.methods {
        var raw :| o == Produced(raw);
        UniqueTexts(raw.flags);
        UniqueTexts(raw.methods);
      }
      hide Hollow, ValuesOf;
      NoEmptyTextsNoHollow(ValuesOf(observations, key));
    }
    TotalsMatchMerged(observations, classes, c);
  }

  function Keys(observations: seq<Observation>): set<Key> {
    set o | o in observations :: KeyOf(o)
  }

  /** The first observation of each task. */
  function Firsts(observations: seq<Observation>): seq<Observation> {
    if observations == [] then []
    else
      var init, last := Firsts(observations[..|observations| - 1]), observations[|observations| - 1];
      if KeyOf(last) in Keys(init) then init else init + [last]
  }

  /** The service overlays what Desktop knows on the index of the app server. */
  method MergeActivity(desktop: seq<Observation>, fallback: seq<Observation>) returns (merged: seq<Observation>)
    ensures merged == Firsts(desktop + fallback)
  {
    var values := desktop + fallback;
    var seen: set<Key> := {};
    merged := [];
    for i := 0 to |values|
      invariant merged == Firsts(values[..i]) && seen == Keys(merged)
    {
      assert values[..i + 1][..i] == values[..i];
      var key := KeyOf(values[i]);
      if key !in seen {
        ghost var before := merged;
        seen, merged := seen + {key}, merged + [values[i]];
        assert Keys(before + [values[i]]) == Keys(before) + {key};
      }
    }
    assert values[..|values|] == values;
  }

  /** The first observation of its task, here. */
  predicate IsFirstAt(observations: seq<Observation>, i: nat)
    requires i < |observations|
  {
    forall j | 0 <= j < i :: KeyOf(observations[j]) != KeyOf(observations[i])
  }

  ghost predicate IsFirst(observations: seq<Observation>, o: Observation) {
    exists i: nat | i < |observations| :: observations[i] == o && IsFirstAt(observations, i)
  }

  lemma IsFirstSnoc(observations: seq<Observation>, last: Observation, o: Observation)
    ensures IsFirst(observations + [last], o) <==> IsFirst(observations, o) || (o == last && KeyOf(last) !in Keys(observations))
  {
    var all, n := observations + [last], |observations|;
    assert all[n] == last && forall i | 0 <= i < n :: all[i] == observations[i];
    assert forall i: nat | i < n :: IsFirstAt(all, i) <==> IsFirstAt(observations, i);
    assert IsFirstAt(all, n) <==> KeyOf(last) !in Keys(observations);
    if i: nat :| i < n && observations[i] == o && IsFirstAt(observations, i) { assert all[i] == o && IsFirstAt(all, i); }
  }

  lemma {:induction false} FirstsMean(observations: seq<Observation>)
    ensures forall o :: o in Firsts(observations) <==> IsFirst(observations, o)
    ensures Keys(Firsts(observations)) == Keys(observations)
  {
    if observations != [] {
      var init, last := observations[..|observations| - 1], observations[|observations| - 1];
      assert observations == init + [last];
      FirstsMean(init);
      forall o { IsFirstSnoc(init, last, o); }
      hide IsFirst;
      assert Keys(observations) == Keys(init) + {KeyOf(last)};
      assert Keys(Firsts(init) + [last]) == Keys(Firsts(init)) + {KeyOf(last)};
    }
  }

  lemma {:induction false} FirstsDiffer(observations: seq<Observation>)
    ensures forall i, j | 0 <= i < j < |Firsts(observations)| :: KeyOf(Firsts(observations)[i]) != KeyOf(Firsts(observations)[j])
  {
    if observations != [] {
      var init, last := Firsts(observations[..|observations| - 1]), observations[|observations| - 1];
      FirstsDiffer(observations[..|observations| - 1]);
      assert forall i | 0 <= i < |init| :: init[i] in init && KeyOf(init[i]) in Keys(init);
      hide Keys;
    }
  }

  /** Each observed task once, by its first observation; so Desktop's wins. */
  lemma DesktopWins(desktop: seq<Observation>, fallback: seq<Observation>)
    ensures var merged := Firsts(desktop + fallback);
      && (forall i, j | 0 <= i < j < |merged| :: KeyOf(merged[i]) != KeyOf(merged[j]))
      && Keys(merged) == Keys(desktop + fallback)
      && (forall o :: o in merged <==> IsFirst(desktop + fallback, o))
      && (forall o | o in merged && KeyOf(o) in Keys(desktop) :: o in desktop)
  {
    var all := desktop + fallback;
    FirstsDiffer(all);
    FirstsMean(all);
    forall o | IsFirst(all, o) && KeyOf(o) in Keys(desktop) ensures o in desktop {
      var i: nat :| i < |all| && all[i] == o && IsFirstAt(all, i);
      var d :| d in desktop && KeyOf(d) == KeyOf(o);
      var j: nat :| j < |desktop| && desktop[j] == d;
      assert all[j] == d;
      assert i <= j;
    }
    hide Firsts, IsFirst;
  }

  /**
   A hollow task, observed twice, counts as waiting, and its merged observation is
   ignored. Only the exported functions can be handed one.
   */
  lemma HollowTaskWitness()
    ensures exists o: Observation ::
      Classify(o) == Waiting && Hollow([o, o]) && MaxClass([o, o]) == Waiting && Classify(Merged([o, o])) == Ignored
  {
    var o := Observation("local", "task", None, None, "idle", [""], [], false);
    assert Classify(o) == Waiting && !Solid(o);
    var values := [o, o];
    assert o in values && forall v | v in values :: v == o;
    assert Hollow(values);
    MaxClassFacts(values);
    MergedFacts(values);
    var m := Merged(values);
    assert !Solid(m) && m.status != "active";
    SomeText(m.flags);
    SomeText(m.methods);
  }

  lemma SomeText(values: seq<string>)
    requires "" !in values
    ensures values != [] ==> Texts(values) != {}
  {
    if values != [] { assert values[0] in Texts(values); }
  }
}

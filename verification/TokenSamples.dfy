/**
 From the lines of a session file to its dated samples: who owns each line, which
 request records count, and the stable order by date. Lines arrive parsed; the
 pair of thread and response stands for the key that joins them with a NUL.
 */
module TokenSamples {
  import opened Prelude
  import StableSort
  import opened TokenDeltas

  type Key = (string, string)

  datatype Provenance =
    | SessionMeta(id: string, forkedFrom: Option<string>)
    | Turn(turn: string)
    | Record(thread: string, response: string, usage: Option<Sample>)
    | Unrelated

  /** A line can carry provenance, and a counter snapshot. */
  datatype Line = Line(provenance: Provenance, count: Option<Sample>)

  datatype Owner = Owner(session: Option<string>, owner: Option<string>, fork: Option<string>)

  const UNKNOWN := Owner(None, None, None)

  /** The turns known of each source session. */
  type Catalog = map<string, set<string>>

  // ----- Ownership ------------------------------------------------------------------

  function TurnsOf(sources: Catalog, fork: Option<string>): set<string> {
    if fork.Some? && fork.value in sources then sources[fork.value] else {}
  }

  function NextOwner(o: Owner, p: Provenance, sources: Catalog, file: string): Owner {
    match p
    case SessionMeta(id, forkedFrom) =>
      if id == "" then o
      else if o.session.Some? then o.(owner := Some(id))
      else Owner(Some(id), if forkedFrom.Some? && forkedFrom.value != "" then forkedFrom else Some(id), forkedFrom)
    case Turn(turn) =>
      if turn == "" || TurnsOf(sources, o.fork) == {} then o
      else o.(owner := if turn in TurnsOf(sources, o.fork) then o.fork else o.session)
    case Record(thread, _, _) =>
      if thread == "" then o
      else o.(session := if o.session.Some? then o.session else Some(file), owner := Some(thread))
    case Unrelated => o
  }

  /** A sample that a line offers; request records have a key. */
  datatype Candidate = Candidate(key: Option<Key>, sample: Sample)

  /** What the line offers, given its owner after the line. */
  function Offers(o: Owner, line: Line): seq<Candidate> {
    (if line.provenance.Record? && line.provenance.thread != "" && line.provenance.response != "" && line.provenance.usage.Some?
     then [Candidate(Some((line.provenance.thread, line.provenance.response)),
                     line.provenance.usage.value.(request := true, inherited := Some(line.provenance.thread) != o.session))]
     else [])
    + if line.count.Some?
      then [Candidate(None, line.count.value.(request := false,
                      inherited := o.session.Some? && o.owner.Some? && o.owner != o.session))]
      else []
  }

  function Annotate(o: Owner, lines: seq<Line>, sources: Catalog, file: string): seq<Candidate>
    decreases |lines|
  {
    if lines == [] then []
    else
      var next := NextOwner(o, lines[0].provenance, sources, file);
      Offers(next, lines[0]) + Annotate(next, lines[1..], sources, file)
  }

  // ----- Whose line it is, by the lines alone ---------------------------------------------------

  predicate IsOpening(line: Line) {
    (line.provenance.SessionMeta? && line.provenance.id != "") || (line.provenance.Record? && line.provenance.thread != "")
  }

  /** Line k is the first of the first n that names a session. */
  predicate IsFirstOpening(lines: seq<Line>, n: nat, k: nat) {
    k < n <= |lines| && IsOpening(lines[k]) && forall j | 0 <= j < k :: !IsOpening(lines[j])
  }

  predicate NoneOpens(lines: seq<Line>, n: nat) {
    n <= |lines| && forall j | 0 <= j < n :: !IsOpening(lines[j])
  }

  /** The session is the one that the first such line names, or the file's own after a record. */
  predicate IsSession(lines: seq<Line>, n: nat, file: string, session: Option<string>) {
    if NoneOpens(lines, n) then session == None
    else exists k | 0 <= k < n && IsFirstOpening(lines, n, k) ::
      session == Some(if lines[k].provenance.SessionMeta? then lines[k].provenance.id else file)
  }

  /** The session that this one was forked from, if the first such line tells. */
  predicate IsFork(lines: seq<Line>, n: nat, fork: Option<string>) {
    if NoneOpens(lines, n) then fork == None
    else exists k | 0 <= k < n && IsFirstOpening(lines, n, k) ::
      fork == if lines[k].provenance.SessionMeta? then lines[k].provenance.forkedFrom else None
  }

  function OwnerAfter(lines: seq<Line>, n: nat, sources: Catalog, file: string): Owner
    requires n <= |lines|
  {
    if n == 0 then UNKNOWN else NextOwner(OwnerAfter(lines, n - 1, sources, file), lines[n - 1].provenance, sources, file)
  }

  lemma {:induction false} SessionAfter(lines: seq<Line>, n: nat, sources: Catalog, file: string)
    requires n <= |lines|
    ensures var o := OwnerAfter(lines, n, sources, file); IsSession(lines, n, file, o.session) && IsFork(lines, n, o.fork)
  {
    if n > 0 {
      SessionAfter(lines, n - 1, sources, file);
      SessionOneMore(lines, n - 1, OwnerAfter(lines, n - 1, sources, file), sources, file);
    }
  }

  lemma SessionOneMore(lines: seq<Line>, n: nat, o: Owner, sources: Catalog, file: string)
    requires n < |lines| && IsSession(lines, n, file, o.session) && IsFork(lines, n, o.fork)
    ensures var next := NextOwner(o, lines[n].provenance, sources, file); IsSession(lines, n + 1, file, next.session) && IsFork(lines, n + 1, next.fork)
  {
    if NoneOpens(lines, n) {
      if IsOpening(lines[n]) { assert IsFirstOpening(lines, n + 1, n); } else { assert NoneOpens(lines, n + 1); }
    } else {
      var k :| 0 <= k < n && IsFirstOpening(lines, n, k);
      assert IsFirstOpening(lines, n + 1, k);
      assert !NoneOpens(lines, n + 1);
    }
  }

  /** Line j says whose what follows is: a record, a session, or a turn when the turns of the source are known. */
  predicate Tells(lines: seq<Line>, j: nat, sources: Catalog, o: Owner)
    requires j < |lines|
  {
    IsOpening(lines[j]) || (lines[j].provenance.Turn? && lines[j].provenance.turn != "" && TurnsOf(sources, o.fork) != {})
  }

  /**
   What a line makes of the owner: a record its thread; a first session the source that it
   was forked from, or itself; a later one itself; a turn the source, if it is one of its
   turns, or else the session. Any other line leaves the owner.
   */
  lemma OwnerIsTold(lines: seq<Line>, n: nat, sources: Catalog, file: string)
    requires n < |lines|
    ensures var o, next, p := OwnerAfter(lines, n, sources, file), OwnerAfter(lines, n + 1, sources, file), lines[n].provenance;
      && (!Tells(lines, n, sources, o) ==> next == o)
      && (p.Record? && p.thread != "" ==> next.owner == Some(p.thread))
      && (p.SessionMeta? && p.id != "" ==>
            next.owner == if NoneOpens(lines, n) && p.forkedFrom.Some? && p.forkedFrom.value != "" then p.forkedFrom else Some(p.id))
      && (p.Turn? && Tells(lines, n, sources, o) ==> next.owner == if p.turn in TurnsOf(sources, o.fork) then o.fork else o.session)
  {
    SessionAfter(lines, n, sources, file);
  }

  function OffersTo(lines: seq<Line>, n: nat, sources: Catalog, file: string): seq<Candidate>
    requires n <= |lines|
  {
    if n == 0 then [] else OffersTo(lines, n - 1, sources, file) + Offers(OwnerAfter(lines, n, sources, file), lines[n - 1])
  }

  lemma {:induction false} AnnotatedFrom(lines: seq<Line>, n: nat, sources: Catalog, file: string)
    requires n <= |lines|
    ensures Annotate(UNKNOWN, lines, sources, file)
      == OffersTo(lines, n, sources, file) + Annotate(OwnerAfter(lines, n, sources, file), lines[n..], sources, file)
  {
    if n == 0 {
      assert lines[0..] == lines;
    } else {
      AnnotatedFrom(lines, n - 1, sources, file);
      var o := OwnerAfter(lines, n - 1, sources, file);
      OneLineMore(o, lines, n - 1, sources, file);
      Assoc(OffersTo(lines, n - 1, sources, file), Offers(OwnerAfter(lines, n, sources, file), lines[n - 1]),
            Annotate(OwnerAfter(lines, n, sources, file), lines[n..], sources, file));
      hide Annotate, Offers, NextOwner;
    }
  }

  /** The candidates are what the lines offer, each seen with the owner that the lines up to it tell. */
  lemma AnnotatedAreOffers(lines: seq<Line>, sources: Catalog, file: string)
    ensures Annotate(UNKNOWN, lines, sources, file) == OffersTo(lines, |lines|, sources, file)
  {
    AnnotatedFrom(lines, |lines|, sources, file);
    assert lines[|lines|..] == [];
    assert OffersTo(lines, |lines|, sources, file) + [] == OffersTo(lines, |lines|, sources, file);
  }

  /** A record of another thread than the session is inherited, and so is a counter while another owner than the session is known. */
  lemma InheritedMeans(o: Owner, line: Line, c: Candidate)
    requires c in Offers(o, line)
    ensures c.key.Some? ==>
      && line.provenance.Record? && c.key.value == (line.provenance.thread, line.provenance.response) && c.key.value.0 != "" && c.key.value.1 != ""
      && line.provenance.usage.Some? && c.sample.date == line.provenance.usage.value.date && c.sample.total == line.provenance.usage.value.total
      && c.sample.breakdown == line.provenance.usage.value.breakdown
      && c.sample.request && (c.sample.inherited <==> o.session != Some(line.provenance.thread))
    ensures c.key.None? ==>
      && line.count.Some? && c.sample.date == line.count.value.date && c.sample.total == line.count.value.total
      && c.sample.breakdown == line.count.value.breakdown
      && !c.sample.request && (c.sample.inherited <==> o.session != None && o.owner != None && o.session != o.owner)
  {
  }

  // ----- Selection -----------------------------------------------------------------------

  predicate Taken(c: Candidate, seen: set<Key>, end: int) {
    c.sample.date < end && (c.key.Some? ==> c.key.value !in seen)
  }

  function Note(c: Candidate, seen: set<Key>, end: int): set<Key> {
    if c.key.Some? && c.sample.date < end then seen + {c.key.value} else seen
  }

  /** The first record of each request, and every snapshot, dated before `end`. */
  function Chosen(candidates: seq<Candidate>, seen: set<Key>, end: int): seq<Candidate>
    decreases |candidates|
  {
    if candidates == [] then []
    else
      (if Taken(candidates[0], seen, end) then [candidates[0]] else [])
      + Chosen(candidates[1..], Note(candidates[0], seen, end), end)
  }

  function SamplesOf(candidates: seq<Candidate>): (samples: seq<Sample>)
    ensures |samples| == |candidates| && forall i | 0 <= i < |samples| :: samples[i] == candidates[i].sample
  {
    seq(|candidates|, i requires 0 <= i < |candidates| => candidates[i].sample)
  }

  // ----- The stable order by date -------------------------------------------------------------

  predicate Earlier(a: Sample, b: Sample) {
    a.date < b.date
  }

  function SortByDate(samples: seq<Sample>): seq<Sample> {
    StableSort.Sort(Earlier, samples)
  }

  /** The order is by date, holds the same samples, and keeps those of one date as they came. */
  lemma SortIsStable(samples: seq<Sample>, date: int)
    ensures var result := SortByDate(samples);
      Sorted(result) && multiset(result) == multiset(samples)
      && StableSort.Pick((s: Sample) => s.date == date, result) == StableSort.Pick((s: Sample) => s.date == date, samples)
  {
    StableSort.SortKeepsAll(Earlier, samples);
    StableSort.SortOrders(Earlier, samples);
    StableSort.SortIsStable(Earlier, (s: Sample) => s.date == date, samples);
  }

  // ----- The loop over a file ------------------------------------------------------------------------

  lemma OneLineMore(o: Owner, lines: seq<Line>, i: nat, sources: Catalog, file: string)
    requires i < |lines|
    ensures var next := NextOwner(o, lines[i].provenance, sources, file);
      Annotate(o, lines[i..], sources, file) == Offers(next, lines[i]) + Annotate(next, lines[i + 1..], sources, file)
  {
    assert lines[i..][0] == lines[i] && lines[i..][1..] == lines[i + 1..];
  }

  lemma {:induction false} ChosenInParts(a: seq<Candidate>, b: seq<Candidate>, seen: set<Key>, end: int)
    ensures Chosen(a + b, seen, end) == Chosen(a, seen, end) + Chosen(b, Noted(a, seen, end), end)
    decreases |a|
  {
    if a == [] {
      assert a + b == b;
    } else {
      var next := Note(a[0], seen, end);
      var taken := if Taken(a[0], seen, end) then [a[0]] else [];
      assert (a + b)[1..] == a[1..] + b && (a + b)[0] == a[0];
      assert Chosen(a + b, seen, end) == taken + Chosen(a[1..] + b, next, end);
      assert Chosen(a, seen, end) == taken + Chosen(a[1..], next, end);
      ChosenInParts(a[1..], b, next, end);
      Assoc(taken, Chosen(a[1..], next, end), Chosen(b, Noted(a[1..], next, end), end));
      hide Chosen;
    }
  }

  function Noted(candidates: seq<Candidate>, seen: set<Key>, end: int): set<Key>
    decreases |candidates|
  {
    if candidates == [] then seen else Noted(candidates[1..], Note(candidates[0], seen, end), end)
  }

  /** The samples of a file that are dated before `end`. */
  method CollectSamples(lines: seq<Line>, sources: Catalog, file: string, end: int) returns (samples: seq<Sample>)
    ensures samples == SortByDate(SamplesOf(Chosen(Annotate(UNKNOWN, lines, sources, file), {}, end)))
  {
    var owner := UNKNOWN;
    var seenRequests: set<Key> := {};
    var chosen: seq<Candidate> := [];
    assert lines[0..] == lines;
    for i := 0 to |lines|
      invariant chosen + Chosen(Annotate(owner, lines[i..], sources, file), seenRequests, end)
        == Chosen(Annotate(UNKNOWN, lines, sources, file), {}, end)
    {
      OneLineMore(owner, lines, i, sources, file);
      owner := NextOwner(owner, lines[i].provenance, sources, file);
      var offers := Offers(owner, lines[i]);
      ghost var rest := Annotate(owner, lines[i + 1..], sources, file);
      ChosenInParts(offers, rest, seenRequests, end);
      hide Annotate, Offers, NextOwner;
      var more, seen := TakeOffers(offers, seenRequests, end);
      chosen, seenRequests := chosen + more, seen;
    }
    assert lines[|lines|..] == [] && Annotate(owner, [], sources, file) == [];
    assert chosen == Chosen(Annotate(UNKNOWN, lines, sources, file), {}, end);
    samples := SortByDate(SamplesOf(chosen));
  }

  lemma OneOfferMore(offers: seq<Candidate>, i: nat, seen: set<Key>, end: int)
    requires i < |offers|
    ensures var taken := if Taken(offers[i], seen, end) then [offers[i]] else [];
      Chosen(offers[i..], seen, end) == taken + Chosen(offers[i + 1..], Note(offers[i], seen, end), end)
    ensures Noted(offers[i..], seen, end) == Noted(offers[i + 1..], Note(offers[i], seen, end), end)
  {
    assert offers[i..][0] == offers[i] && offers[i..][1..] == offers[i + 1..];
  }

  method TakeOffers(offers: seq<Candidate>, seenRequests: set<Key>, end: int) returns (chosen: seq<Candidate>, seen: set<Key>)
    ensures chosen == Chosen(offers, seenRequests, end) && seen == Noted(offers, seenRequests, end)
  {
    chosen, seen := [], seenRequests;
    assert offers[0..] == offers;
    for i := 0 to |offers|
      invariant chosen + Chosen(offers[i..], seen, end) == Chosen(offers, seenRequests, end)
      invariant Noted(offers[i..], seen, end) == Noted(offers, seenRequests, end)
    {
      var offer := offers[i];
      OneOfferMore(offers, i, seen, end);
      hide Chosen, Noted, Taken, Note;
      if Taken(offer, seen, end) { chosen := chosen + [offer]; }
      seen := Note(offer, seen, end);
    }
    assert offers[|offers|..] == [];
  }

  // ----- What is chosen -----------------------------------------------------------------------------------

  /** No request is counted twice, and none that was seen before is counted at all. */
  lemma {:induction false} RequestsCountOnce(candidates: seq<Candidate>, seen: set<Key>, end: int)
    ensures var chosen := Chosen(candidates, seen, end);
      && (forall c | c in chosen :: c in candidates && Taken(c, seen, end))
      && (forall i, j | 0 <= i < j < |chosen| && chosen[i].key.Some? && chosen[j].key.Some? :: chosen[i].key != chosen[j].key)
    decreases |candidates|
  {
    if candidates != [] {
      var head, tail := candidates[0], candidates[1..];
      var rest := Chosen(tail, Note(head, seen, end), end);
      RequestsCountOnce(tail, Note(head, seen, end), end);
      assert candidates == [head] + tail;
      assert forall j | 0 <= j < |rest| :: rest[j] in rest;
    }
  }

  // ----- The end of the window matters -----------------------------------------------------------------------

  function Before(candidates: seq<Candidate>, end: int): seq<Candidate> {
    if candidates == [] then []
    else (if candidates[0].sample.date < end then [candidates[0]] else []) + Before(candidates[1..], end)
  }

  predicate SameRequest(candidates: seq<Candidate>, i: nat, key: Key, from: int, to: int) {
    i < |candidates| && candidates[i].key == Some(key) && from <= candidates[i].sample.date < to
  }

  /** Record j is the first of its request before `b`, but follows one dated between `b` and `e`. */
  ghost predicate Hidden(candidates: seq<Candidate>, seenB: set<Key>, seenE: set<Key>, b: int, e: int, j: nat) {
    && j < |candidates| && candidates[j].key.Some? && candidates[j].sample.date < b
    && var key := candidates[j].key.value;
      && key !in seenB && (forall h: nat | h < j && candidates[h].key == Some(key) :: candidates[h].sample.date >= b)
      && (key in seenE || exists i: nat :: i < j && SameRequest(candidates, i, key, b, e))
  }

  /** The same, found in one pass. */
  predicate Hides(candidates: seq<Candidate>, seenB: set<Key>, seenE: set<Key>, b: int, e: int)
    decreases |candidates|
  {
    if candidates == [] then false
    else if HeadHidden(candidates[0], seenB, seenE, b) then true
    else Hides(candidates[1..], Note(candidates[0], seenB, b), Note(candidates[0], seenE, e), b, e)
  }

  predicate HeadHidden(c: Candidate, seenB: set<Key>, seenE: set<Key>, b: int) {
    c.key.Some? && c.sample.date < b && c.key.value !in seenB && c.key.value in seenE
  }

  lemma {:induction false} EarlierEndChoosesMore(candidates: seq<Candidate>, seenB: set<Key>, seenE: set<Key>, b: int, e: int)
    requires seenB <= seenE && b <= e
    ensures var early, late := Chosen(candidates, seenB, b), Before(Chosen(candidates, seenE, e), b);
      |early| >= |late| && (early == late <==> !Hides(candidates, seenB, seenE, b, e))
    decreases |candidates|
  {
    if candidates != [] {
      var c, tail := candidates[0], candidates[1..];
      EarlierEndChoosesMore(tail, Note(c, seenB, b), Note(c, seenE, e), b, e);
      var early, late := Chosen(tail, Note(c, seenB, b), b), Chosen(tail, Note(c, seenE, e), e);
      BeforeOneMore(c, late, b);
      assert Chosen(candidates, seenB, b) == if Taken(c, seenB, b) then [c] + early else early;
      assert Chosen(candidates, seenE, e) == if Taken(c, seenE, e) then [c] + late else late;
      hide Chosen, Before;
      assert ([c] + early)[1..] == early && ([c] + Before(late, b))[1..] == Before(late, b);
    }
  }

  lemma BeforeOneMore(c: Candidate, rest: seq<Candidate>, end: int)
    ensures Before([c] + rest, end) == (if c.sample.date < end then [c] else []) + Before(rest, end)
    ensures Before([] + rest, end) == Before(rest, end)
  {
    assert ([c] + rest)[1..] == rest && [] + rest == rest;
  }

  lemma ShiftHidden(candidates: seq<Candidate>, seenB: set<Key>, seenE: set<Key>, b: int, e: int, j: nat)
    requires seenB <= seenE && b <= e && j + 1 < |candidates| && !HeadHidden(candidates[0], seenB, seenE, b)
    ensures Hidden(candidates, seenB, seenE, b, e, j + 1)
      <==> Hidden(candidates[1..], Note(candidates[0], seenB, b), Note(candidates[0], seenE, e), b, e, j)
  {
    var head, tail := candidates[0], candidates[1..];
    var key := candidates[j + 1].key;
    if key.Some? {
      assert (forall h: nat | h < j + 1 && candidates[h].key == key :: candidates[h].sample.date >= b)
        <==> (head.key == key ==> head.sample.date >= b) && (forall h: nat | h < j && tail[h].key == key :: tail[h].sample.date >= b) by {
        assert forall h: nat | h < j :: tail[h] == candidates[h + 1];
        assert forall h: nat | 0 < h < j + 1 :: candidates[h] == tail[h - 1];
      }
      EarlierShifts(candidates, j, key.value, b, e);
    }
  }

  lemma EarlierShifts(candidates: seq<Candidate>, j: nat, key: Key, b: int, e: int)
    requires j + 1 < |candidates|
    ensures (exists i: nat :: i < j + 1 && SameRequest(candidates, i, key, b, e))
      <==> SameRequest(candidates, 0, key, b, e) || exists i: nat :: i < j && SameRequest(candidates[1..], i, key, b, e)
  {
    var tail := candidates[1..];
    if i: nat :| i < j + 1 && SameRequest(candidates, i, key, b, e) {
      if i > 0 { assert SameRequest(tail, i - 1, key, b, e); }
    }
    if i: nat :| i < j && SameRequest(tail, i, key, b, e) { assert SameRequest(candidates, i + 1, key, b, e); }
  }

  lemma {:induction false} HidesMeansHidden(candidates: seq<Candidate>, seenB: set<Key>, seenE: set<Key>, b: int, e: int)
    requires seenB <= seenE && b <= e
    ensures Hides(candidates, seenB, seenE, b, e) <==> exists j: nat :: Hidden(candidates, seenB, seenE, b, e, j)
    decreases |candidates|
  {
    if candidates != [] {
      var head, tail := candidates[0], candidates[1..];
      if HeadHidden(head, seenB, seenE, b) {
        assert Hidden(candidates, seenB, seenE, b, e, 0);
      } else {
        var noteB, noteE := Note(head, seenB, b), Note(head, seenE, e);
        HidesMeansHidden(tail, noteB, noteE, b, e);
        forall j: nat | j < |tail|
          ensures Hidden(candidates, seenB, seenE, b, e, j + 1) <==> Hidden(tail, noteB, noteE, b, e, j)
        {
          ShiftHidden(candidates, seenB, seenE, b, e, j);
        }
        assert !Hidden(candidates, seenB, seenE, b, e, 0);
        hide Note;
        if j: nat :| Hidden(candidates, seenB, seenE, b, e, j) { assert Hidden(tail, noteB, noteE, b, e, j - 1); }
        if j: nat :| Hidden(tail, noteB, noteE, b, e, j) { assert Hidden(candidates, seenB, seenE, b, e, j + 1); }
      }
    }
  }

  /**
   A file read up to an earlier end yields what a later end yields before it, if
   and only if no record is hidden by one of the same request dated in between.
   */
  lemma EndMattersOnlyWhenHidden(candidates: seq<Candidate>, b: int, e: int)
    requires b <= e
    ensures Chosen(candidates, {}, b) == Before(Chosen(candidates, {}, e), b)
      <==> !exists j: nat :: Hidden(candidates, {}, {}, b, e, j)
  {
    EarlierEndChoosesMore(candidates, {}, {}, b, e);
    HidesMeansHidden(candidates, {}, {}, b, e);
  }

  /** A request recorded first with a late date and again with an early one. */
  lemma EndCanMatter()
    ensures var usage := Sample(15, 40, None, false, true);
      var lines := [Line(Record("thread", "response", Some(usage)), None), Line(Record("thread", "response", Some(usage.(date := 5))), None)];
      var offered := Annotate(UNKNOWN, lines, map[], "thread");
      Chosen(offered, {}, 10) != Before(Chosen(offered, {}, 20), 10)
  {
    var usage := Sample(15, 40, None, false, true);
    var lines := [Line(Record("thread", "response", Some(usage)), None), Line(Record("thread", "response", Some(usage.(date := 5))), None)];
    var key := Some(("thread", "response"));
    var late, early := Candidate(key, usage), Candidate(key, usage.(date := 5));
    assert lines[1..] == [lines[1]] && lines[1..][1..] == [];
    var owner := NextOwner(UNKNOWN, lines[0].provenance, map[], "thread");
    assert Annotate(owner, lines[1..], map[], "thread") == [early];
    assert Annotate(UNKNOWN, lines, map[], "thread") == [late, early];
    EndMattersOnlyWhenHidden([late, early], 10, 20);
    assert SameRequest([late, early], 0, key.value, 10, 20);
    assert Hidden([late, early], {}, {}, 10, 20, 1);
  }
}

/**
 The reading side and the table of requests are one connection: what a line does to
 the pending requests is a move of the connection's machine, and between any two of
 the reader's moves other threads make arbitrary ones.
 */
module PipeReader {
  import opened Prelude
  import opened PipeConnection
  import opened PipeConnectionProofs
  import opened PipeWriter
  import Framing = PipeFraming

  /** How the reader understands lines: which request an id on the wire names, and what a reply comes to for its caller. */
  datatype Reader = Reader(parse: Framing.Parser, idOf: string -> Option<Id>, told: Framing.Outcome -> Outcome)

  // ----- What the reader does -------------------------------------------------------

  function LineMoves(r: Reader, line: seq<Byte>): seq<Move> {
    match Framing.Meaning(r.parse, line)
    case Malformed => [Move.FailAll(r.told(Framing.InvalidResponse))]
    case Notification => []
    case Reply(x, outcome) => if r.idOf(x).Some? then [Move.Finish(r.idOf(x).value, r.told(outcome))] else []
  }

  /** The reader's own moves for these bytes, in one piece. */
  function ReaderMoves(r: Reader, stream: seq<Byte>): seq<Move>
    decreases |stream|
  {
    var k := Framing.Cut(stream);
    if k > Framing.LIMIT then [Move.FailAll(r.told(Framing.InvalidResponse))]
    else if k == |stream| then []
    else LineMoves(r, stream[..k]) + ReaderMoves(r, stream[k + 1..])
  }

  /** No line, and no unfinished rest, is over the limit. */
  predicate Fits(stream: seq<Byte>)
    decreases |stream|
  {
    var k := Framing.Cut(stream);
    k <= Framing.LIMIT && (k == |stream| || Fits(stream[k + 1..]))
  }

  lemma FirstOfParts(a: seq<Byte>, b: seq<Byte>)
    requires Framing.Cut(a) < |a|
    ensures var k := Framing.Cut(a);
      Framing.Cut(a + b) == k && (a + b)[..k] == a[..k] && (a + b)[k + 1..] == a[k + 1..] + b && Framing.Rest(a) == Framing.Rest(a[k + 1..])
  {
    Framing.CutPrefix(a, b);
  }

  /** The moves for a stream do not depend on how it is cut into chunks. */
  lemma {:induction false} MovesInParts(r: Reader, a: seq<Byte>, b: seq<Byte>)
    requires Fits(a)
    ensures ReaderMoves(r, a + b) == ReaderMoves(r, a) + ReaderMoves(r, Framing.Rest(a) + b)
    ensures Fits(a + b) == Fits(Framing.Rest(a) + b)
    decreases |a|
  {
    var k := Framing.Cut(a);
    NextLine(r, a);
    NextLine(r, a + b);
    if k < |a| {
      FirstOfParts(a, b);
      MovesInParts(r, a[k + 1..], b);
      hide *;
      assert |a + b| > k;
      Assoc(LineMoves(r, a[..k]), ReaderMoves(r, a[k + 1..]), ReaderMoves(r, Framing.Rest(a) + b));
    } else {
      hide *;
      assert Framing.Rest(a) == a && ReaderMoves(r, a) == [];
    }
  }

  /** The reader's moves for a line, by the line's own fields. */
  lemma LineMovesSay(r: Reader, line: seq<Byte>, x: string)
    ensures Framing.IsMalformed(r.parse, line) ==> LineMoves(r, line) == [Move.FailAll(r.told(Framing.InvalidResponse))]
    ensures Framing.NamesRequest(r.parse, line, x) ==>
      if r.idOf(x).None? then LineMoves(r, line) == []
      else |LineMoves(r, line)| == 1 && exists outcome ::
        Framing.SaysOutcome(r.parse(line).value, outcome) && LineMoves(r, line)[0] == Move.Finish(r.idOf(x).value, r.told(outcome))
    ensures !Framing.IsMalformed(r.parse, line) && (forall y :: !Framing.NamesRequest(r.parse, line, y)) ==> LineMoves(r, line) == []
  {
    if !Framing.IsMalformed(r.parse, line) && Framing.Meaning(r.parse, line).Reply? {
      var m := Framing.Meaning(r.parse, line);
      assert Framing.NamesRequest(r.parse, line, m.id) && Framing.SaysOutcome(r.parse(line).value, m.outcome);
    }
  }

  // ----- The reader's table is the connection's --------------------------------------------

  /** The names of requests on the wire. */
  ghost predicate Names(r: Reader, name: Id -> string, ids: set<Id>) {
    && (forall id | id in ids :: r.idOf(name(id)) == Some(id))
    && forall x | r.idOf(x).Some? :: name(r.idOf(x).value) == x
  }

  /** The reader sees the same requests pending, and the same flag. */
  predicate Shows(s: Pipe, c: Framing.Connection, name: Id -> string) {
    s.holder.None? && c.closed == s.closed && c.pending == set id | id in s.pending :: name(id)
  }

  /** Each request that was ended is due to be told what the reader resumed it with. */
  predicate Told(r: Reader, s: Pipe, t: Pipe, d: Framing.Connection, name: Id -> string) {
    forall id | id in s.pending && id !in t.pending :: name(id) in d.resumed && Due(t, id) == Due(s, id) + [r.told(d.resumed[name(id)])]
  }

  /** All that lines may do to the table, and what they leave alone. */
  ghost predicate Follows(r: Reader, s: Pipe, t: Pipe, c: Framing.Connection, d: Framing.Connection, name: Id -> string) {
    && Shows(t, d, name) && Told(r, s, t, d, name) && t.pending <= s.pending && t.due.Keys == s.due.Keys
    && (forall id | id in t.pending || id !in s.pending :: Due(t, id) == Due(s, id))
    && (forall x | x in c.resumed && x !in c.pending :: x in d.resumed && d.resumed[x] == c.resumed[x])
  }

  lemma CloseFollows(r: Reader, s: Pipe, c: Framing.Connection, outcome: Framing.Outcome, name: Id -> string)
    requires Shows(s, c, name) && s.pending <= s.due.Keys
    ensures Follows(r, s, FailAllStep(s, r.told(outcome)), c, Framing.FailAll(c, outcome), name)
  {
  }

  lemma ReplyFollows(r: Reader, s: Pipe, c: Framing.Connection, x: string, outcome: Framing.Outcome, name: Id -> string)
    requires Shows(s, c, name) && Names(r, name, s.pending) && s.pending <= s.due.Keys
    ensures Follows(r, s, if r.idOf(x).Some? then FinishStep(s, r.idOf(x).value, r.told(outcome)) else s, c, Framing.Finish(c, x, outcome), name)
  {
    assert x in c.pending <==> r.idOf(x).Some? && r.idOf(x).value in s.pending;
    forall id | id in s.pending ensures name(id) == x <==> r.idOf(x) == Some(id) { }
  }

  lemma LineFollows(r: Reader, s: Pipe, c: Framing.Connection, line: seq<Byte>, name: Id -> string)
    requires Shows(s, c, name) && Names(r, name, s.pending) && s.pending <= s.due.Keys
    ensures Follows(r, s, RunFrom(s, LineMoves(r, line)), c, Framing.Receive(r.parse, c, line), name)
  {
    var moves := LineMoves(r, line);
    if moves != [] { assert moves == [moves[0]] && moves[..0] == []; }
    hide Follows, Names, FinishStep, FailAllStep, Framing.Finish, Framing.FailAll, Framing.Meaning;
    match Framing.Meaning(r.parse, line)
    case Malformed => CloseFollows(r, s, c, Framing.InvalidResponse, name);
    case Notification => StaysAsItIs(r, s, c, name);
    case Reply(x, outcome) => ReplyFollows(r, s, c, x, outcome, name);
  }

  lemma StaysAsItIs(r: Reader, s: Pipe, c: Framing.Connection, name: Id -> string)
    requires Shows(s, c, name)
    ensures Follows(r, s, s, c, c, name)
  {
  }

  /** Left alone between its lines, the reader keeps its table the connection's. */
  lemma {:induction false} LinesFollow(r: Reader, s: Pipe, c: Framing.Connection, lines: seq<seq<Byte>>, name: Id -> string) returns (moves: seq<Move>)
    requires Shows(s, c, name) && Names(r, name, s.pending) && s.pending <= s.due.Keys
    ensures moves == LinesMoves(r, lines)
    ensures Follows(r, s, RunFrom(s, moves), c, Framing.ReceiveAll(r.parse, c, lines), name)
    decreases |lines|
  {
    if lines == [] {
      moves := [];
    } else {
      LineFollows(r, s, c, lines[0], name);
      var between, d := RunFrom(s, LineMoves(r, lines[0])), Framing.Receive(r.parse, c, lines[0]);
      var rest := LinesFollow(r, between, d, lines[1..], name);
      RunFromParts(s, LineMoves(r, lines[0]), rest);
      moves := LineMoves(r, lines[0]) + rest;
      var t, e := RunFrom(s, moves), Framing.ReceiveAll(r.parse, c, lines);
      hide RunFrom, Framing.Receive, LineMoves;
      forall id | id in s.pending && id !in t.pending
        ensures name(id) in e.resumed && Due(t, id) == Due(s, id) + [r.told(e.resumed[name(id)])]
      {
        if id !in between.pending { assert name(id) !in d.pending; }
      }
    }
  }

  function LinesMoves(r: Reader, lines: seq<seq<Byte>>): seq<Move> {
    if lines == [] then [] else LineMoves(r, lines[0]) + LinesMoves(r, lines[1..])
  }

  // ----- The read loop among other threads ---------------------------------------------------

  /** What one turn of the loop meets: moves of other threads, and what poll and read come to. */
  datatype Arrival = NotReady | Ended | Bytes(chunk: seq<Byte>, between: seq<seq<Move>>)

  datatype Turn = Turn(before: seq<Move>, arrival: Arrival)

  /** A move, and whether it is the reader's. */
  datatype Act = Act(move: Move, own: bool)

  function Moves(acts: seq<Act>): seq<Move> {
    if acts == [] then [] else Moves(acts[..|acts| - 1]) + [acts[|acts| - 1].move]
  }

  function Own(acts: seq<Act>): seq<Move> {
    if acts == [] then [] else Own(acts[..|acts| - 1]) + if acts[|acts| - 1].own then [acts[|acts| - 1].move] else []
  }

  /** The bytes that these turns bring. */
  function Stream(turns: seq<Turn>): seq<Byte> {
    if turns == [] then []
    else Stream(turns[..|turns| - 1]) + if turns[|turns| - 1].arrival.Bytes? then turns[|turns| - 1].arrival.chunk else []
  }

  lemma OneActMore(s: Pipe, acts: seq<Act>, act: Act)
    ensures RunFrom(s, Moves(acts + [act])) == Step(RunFrom(s, Moves(acts)), act.move)
    ensures Own(acts + [act]) == Own(acts) + if act.own then [act.move] else []
  {
    hide Step;
    assert (acts + [act])[..|acts|] == acts;
    OneMore(s, Moves(acts), act.move);
  }

  /** From `start`, these moves lead here. */
  ghost predicate Runs(start: Pipe, acts: seq<Act>, here: Pipe) {
    Ok(here) && here == RunFrom(start, Moves(acts))
  }

  lemma RunsOneMore(start: Pipe, acts: seq<Act>, here: Pipe, act: Act)
    requires Runs(start, acts, here)
    ensures Runs(start, acts + [act], Step(here, act.move)) && Ok(here) && Ok(Step(here, act.move))
    ensures Own(acts + [act]) == Own(acts) + if act.own then [act.move] else []
  {
    StepIsOk(here, act.move);
    OneActMore(start, acts, act);
    hide Ok, Step, RunFrom, Moves, Own;
  }

  lemma PendingAreDue(s: Pipe)
    requires Ok(s)
    ensures s.pending <= s.due.Keys
  {
  }

  /** Others move for a while, and whoever then holds the lock lets it go. */
  method LetOthers(connection: Connection, moves: seq<Move>, ghost start: Pipe, acts: seq<Act>) returns (trace: seq<Act>)
    requires Runs(start, acts, connection.Abs())
    modifies connection
    ensures Runs(start, trace, connection.Abs()) && connection.Abs().holder.None?
    ensures Own(trace) == Own(acts)
  {
    trace := acts;
    var i := 0;
    while i < |moves|
      invariant i <= |moves| && Runs(start, trace, connection.Abs()) && Own(trace) == Own(acts)
    {
      RunsOneMore(start, trace, connection.Abs(), Act(moves[i], false));
      hide *;
      connection.Interfere(moves[i]);
      trace, i := trace + [Act(moves[i], false)], i + 1;
    }
    if connection.others.holder.Some? {
      var release := Insert(connection.others.holder.value);
      RunsOneMore(start, trace, connection.Abs(), Act(release, false));
      ReleaseFreesLock(connection.Abs());
      hide *;
      connection.Interfere(release);
      trace := trace + [Act(release, false)];
    }
  }

  predicate IsEnding(m: Move) {
    m.Finish? || m.FailAll?
  }

  /** A critical section of the reader. */
  method Perform(connection: Connection, m: Move, ghost start: Pipe, acts: seq<Act>) returns (trace: seq<Act>)
    requires IsEnding(m) && connection.Abs().holder.None?
    requires Runs(start, acts, connection.Abs())
    modifies connection
    ensures Runs(start, trace, connection.Abs()) && connection.Abs().holder.None?
    ensures Own(trace) == Own(acts) + [m] && (m.FailAll? || connection.closed == old(connection.closed)) && (m.FailAll? ==> connection.closed)
  {
    ghost var before := connection.Abs();
    RunsOneMore(start, acts, before, Act(m, true));
    PendingAreDue(before);
    assert Step(before, m) == if m.Finish? then FinishStep(before, m.id, m.outcome) else FailAllStep(before, m.outcome);
    assert FinishStep(before, if m.Finish? then m.id else 0, m.outcome).closed == before.closed && FailAllStep(before, m.outcome).closed;
    assert Step(before, m).holder.None?;
    hide Step, Ok, FinishStep, FailAllStep, Runs, Own;
    match m {
      case Finish(id, outcome) => connection.Finish(id, outcome);
      case FailAll(outcome) => connection.FailAll(outcome);
    }
    trace := acts + [Act(m, true)];
  }

  /** One line: parsed without the lock, then at most one critical section, before which others may move. */
  method ReceiveLine(connection: Connection, r: Reader, line: seq<Byte>, before: seq<Move>, ghost start: Pipe, acts: seq<Act>) returns (trace: seq<Act>)
    requires Runs(start, acts, connection.Abs())
    modifies connection
    ensures Runs(start, trace, connection.Abs())
    ensures Own(trace) == Own(acts) + LineMoves(r, line)
  {
    trace := LetOthers(connection, before, start, acts);
    assert LineMoves(r, line) == match Framing.Meaning(r.parse, line)
      case Malformed => [Move.FailAll(r.told(Framing.InvalidResponse))]
      case Notification => []
      case Reply(x, outcome) => if r.idOf(x).Some? then [Move.Finish(r.idOf(x).value, r.told(outcome))] else [];
    hide Runs, LineMoves, Own;
    match Framing.Meaning(r.parse, line) {
      case Malformed => trace := Perform(connection, Move.FailAll(r.told(Framing.InvalidResponse)), start, trace);
      case Notification =>
      case Reply(x, outcome) =>
        var id := r.idOf(x);
        if id.Some? { trace := Perform(connection, Move.Finish(id.value, r.told(outcome)), start, trace); }
    }
  }

  lemma NextLine(r: Reader, buffer: seq<Byte>)
    ensures var k := Framing.Cut(buffer);
      && (k > Framing.LIMIT ==> ReaderMoves(r, buffer) == [Move.FailAll(r.told(Framing.InvalidResponse))] && !Fits(buffer))
      && (k < |buffer| && k <= Framing.LIMIT ==>
            && ReaderMoves(r, buffer) == LineMoves(r, buffer[..k]) + ReaderMoves(r, buffer[k + 1..])
            && Fits(buffer) == Fits(buffer[k + 1..]) && Framing.Rest(buffer) == Framing.Rest(buffer[k + 1..]))
      && (k == |buffer| <= Framing.LIMIT ==> ReaderMoves(r, buffer) == [] && Fits(buffer) && Framing.Rest(buffer) == buffer)
  {
    hide LineMoves;
  }

  /** Takes the lines out of the buffer; `failed` says that something was over the limit. */
  method Drain(connection: Connection, r: Reader, bytes: seq<Byte>, between: seq<seq<Move>>, ghost start: Pipe, acts: seq<Act>)
    returns (trace: seq<Act>, buffer: seq<Byte>, failed: bool)
    requires Runs(start, acts, connection.Abs())
    modifies connection
    ensures Runs(start, trace, connection.Abs())
    ensures Own(trace) == Own(acts) + ReaderMoves(r, bytes)
    ensures failed <==> !Fits(bytes)
    ensures failed ==> connection.closed
    ensures !failed ==> buffer == Framing.Rest(bytes) && Framing.Cut(buffer) == |buffer| <= Framing.LIMIT
  {
    hide Runs, Own, LineMoves, ReaderMoves, Fits, Framing.Rest, Framing.Cut;
    trace, buffer, failed := acts, bytes, false;
    var lines := 0;
    var newline := Framing.FirstNewline(buffer);
    assert Own(acts) + ReaderMoves(r, bytes) == Own(trace) + ReaderMoves(r, buffer);
    while newline < |buffer| && newline <= Framing.LIMIT
      invariant Runs(start, trace, connection.Abs()) && newline == Framing.Cut(buffer)
      invariant Own(trace) + ReaderMoves(r, buffer) == Own(acts) + ReaderMoves(r, bytes)
      invariant Fits(buffer) == Fits(bytes) && Framing.Rest(buffer) == Framing.Rest(bytes)
      decreases |buffer|
    {
      var line := buffer[..newline];
      NextLine(r, buffer);
      Assoc(Own(trace), LineMoves(r, line), ReaderMoves(r, buffer[newline + 1..]));
      hide *;
      trace := ReceiveLine(connection, r, line, if lines < |between| then between[lines] else [], start, trace);
      buffer, lines := buffer[newline + 1..], lines + 1;
      newline := Framing.FirstNewline(buffer);
    }
    NextLine(r, buffer);
    hide *;
    if newline > Framing.LIMIT {
      failed := true;
      trace := LetOthers(connection, if lines < |between| then between[lines] else [], start, trace);
      trace := Perform(connection, Move.FailAll(r.told(Framing.InvalidResponse)), start, trace);
    } else {
      assert Own(trace) + [] == Own(trace);
    }
  }

  lemma {:induction false} FittingRest(r: Reader, stream: seq<Byte>)
    requires Fits(stream)
    ensures ReaderMoves(r, Framing.Rest(stream)) == [] && Fits(Framing.Rest(stream)) && Framing.Rest(Framing.Rest(stream)) == Framing.Rest(stream)
    decreases |stream|
  {
    var k := Framing.Cut(stream);
    if k < |stream| { FittingRest(r, stream[k + 1..]); }
  }

  function Chunk(turn: Turn): seq<Byte> {
    if turn.arrival.Bytes? then turn.arrival.chunk else []
  }

  /** After the turns so far, before any end: the reader did what their bytes say, and holds their rest. */
  ghost predicate Reading(r: Reader, turns: seq<Turn>, taken: nat, trace: seq<Act>, buffer: seq<Byte>) {
    && taken <= |turns| && Own(trace) == ReaderMoves(r, Stream(turns[..taken]))
    && Fits(Stream(turns[..taken])) && buffer == Framing.Rest(Stream(turns[..taken]))
  }

  /** What the reader did altogether: what the bytes taken say, and the close, if that is what the last turn came to. */
  ghost predicate HasRead(r: Reader, turns: seq<Turn>, taken: nat, trace: seq<Act>) {
    && taken <= |turns|
    && var own := ReaderMoves(r, Stream(turns[..taken]));
      Own(trace) == own || (taken > 0 && turns[taken - 1].arrival.Ended? && Own(trace) == own + [Move.FailAll(Closed)])
  }

  lemma OneTurnMore(r: Reader, turns: seq<Turn>, taken: nat, trace: seq<Act>, buffer: seq<Byte>)
    requires Reading(r, turns, taken, trace, buffer) && taken < |turns|
    ensures var stream, bytes := Stream(turns[..taken + 1]), buffer + Chunk(turns[taken]);
      && ReaderMoves(r, stream) == Own(trace) + ReaderMoves(r, bytes) && Fits(stream) == Fits(bytes) && Framing.Rest(stream) == Framing.Rest(bytes)
    ensures ReaderMoves(r, buffer) == [] && Fits(buffer) && Framing.Rest(buffer) == buffer && buffer + [] == buffer
  {
    assert turns[..taken + 1][..taken] == turns[..taken];
    var before, chunk := Stream(turns[..taken]), Chunk(turns[taken]);
    assert Stream(turns[..taken + 1]) == before + chunk;
    MovesInParts(r, before, chunk);
    Framing.RestOfParts(before, chunk);
    FittingRest(r, before);
  }

  /** What the turn adds to the reader's moves, and what it leaves in the buffer. */
  ghost predicate IsTurn(r: Reader, turn: Turn, acts: seq<Act>, held: seq<Byte>, trace: seq<Act>, buffer: seq<Byte>, done: bool) {
    match turn.arrival
    case NotReady => !done && buffer == held && Own(trace) == Own(acts)
    case Ended => done && Own(trace) == Own(acts) + [Move.FailAll(Closed)]
    case Bytes(chunk, _) =>
      && Own(trace) == Own(acts) + ReaderMoves(r, held + chunk)
      && (done <==> !Fits(held + chunk)) && (!done ==> buffer == Framing.Rest(held + chunk))
  }

  /** One turn of the loop, up to its next test of the closed flag. */
  method TakeTurn(connection: Connection, r: Reader, turn: Turn, held: seq<Byte>, ghost start: Pipe, acts: seq<Act>)
    returns (trace: seq<Act>, buffer: seq<Byte>, left: bool, done: bool)
    requires Runs(start, acts, connection.Abs())
    modifies connection
    ensures Runs(start, trace, connection.Abs())
    ensures left ==> done && Own(trace) == Own(acts)
    ensures done ==> connection.closed
    ensures !left ==> IsTurn(r, turn, acts, held, trace, buffer, done)
  {
    hide Runs, Ok, Own, ReaderMoves, Fits, Framing.Rest;
    buffer, left, done := held, false, false;
    trace := LetOthers(connection, turn.before, start, acts);
    if connection.closed {
      left, done := true, true;
      return;
    }
    match turn.arrival {
      case NotReady =>
      case Ended =>
        trace := Perform(connection, Move.FailAll(Closed), start, trace);
        done := true;
      case Bytes(chunk, between) =>
        trace, buffer, done := Drain(connection, r, held + chunk, between, start, trace);
    }
  }

  lemma TurnIsRead(r: Reader, turns: seq<Turn>, taken: nat, acts: seq<Act>, held: seq<Byte>, trace: seq<Act>, buffer: seq<Byte>, done: bool)
    requires Reading(r, turns, taken, acts, held) && taken < |turns|
    requires IsTurn(r, turns[taken], acts, held, trace, buffer, done)
    ensures HasRead(r, turns, taken + 1, trace) && (!done ==> Reading(r, turns, taken + 1, trace, buffer))
  {
    OneTurnMore(r, turns, taken, acts, held);
    hide ReaderMoves, Fits, Framing.Rest, Own, Stream;
    assert Own(acts) + [] == Own(acts);
  }

  /**
   The read loop, with other threads' moves before each of its critical sections, is a
   run of the machine. The reader's own part of the run is what the bytes read say,
   however they came in chunks, and, when the stream ended, the close. It stops only
   on a closed connection.
   */
  method ReadLoop(connection: Connection, r: Reader, turns: seq<Turn>) returns (trace: seq<Act>, taken: nat, done: bool)
    requires Ok(connection.Abs())
    modifies connection
    ensures Ok(connection.Abs()) && connection.Abs() == RunFrom(old(connection.Abs()), Moves(trace))
    ensures HasRead(r, turns, taken, trace) && (!done ==> taken == |turns|) && (done ==> connection.closed)
  {
    ghost var start := connection.Abs();
    assert turns[..0] == [] && Moves([]) == [] && Own([]) == [] && ReaderMoves(r, []) == [];
    assert Reading(r, turns, 0, [], []) && HasRead(r, turns, 0, []) && Runs(start, [], connection.Abs());
    trace, taken, done := ReadOn(connection, r, turns, start);
  }

  method ReadOn(connection: Connection, r: Reader, turns: seq<Turn>, ghost start: Pipe) returns (trace: seq<Act>, taken: nat, done: bool)
    requires Runs(start, [], connection.Abs()) && Reading(r, turns, 0, [], []) && HasRead(r, turns, 0, [])
    modifies connection
    ensures Runs(start, trace, connection.Abs()) && HasRead(r, turns, taken, trace)
    ensures (!done ==> taken == |turns|) && (done ==> connection.closed)
  {
    hide *;
    trace, taken, done := [], 0, false;
    var buffer: seq<Byte> := [];
    while taken < |turns| && !done
      invariant taken <= |turns| && Runs(start, trace, connection.Abs()) && HasRead(r, turns, taken, trace)
      invariant (!done ==> Reading(r, turns, taken, trace, buffer)) && (done ==> connection.closed)
      decreases |turns| - taken, !done
    {
      var left;
      ghost var acts, held := trace, buffer;
      trace, buffer, left, done := TakeTurn(connection, r, turns[taken], buffer, start, trace);
      if left {
        SameOwn(r, turns, taken, acts, trace);
      } else {
        TurnIsRead(r, turns, taken, acts, held, trace, buffer, done);
        taken := taken + 1;
      }
    }
  }

  lemma SameOwn(r: Reader, turns: seq<Turn>, taken: nat, acts: seq<Act>, trace: seq<Act>)
    requires HasRead(r, turns, taken, acts) && Own(trace) == Own(acts)
    ensures HasRead(r, turns, taken, trace)
  {
  }
}

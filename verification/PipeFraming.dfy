/**
 The reading side of the JSON-RPC pipe connection: a byte stream cut into lines,
 each line taken as one message, whatever the sizes of the chunks it arrives in.
 */
module PipeFraming {
  import opened Prelude

  type Byte = b: int | 0 <= b < 256
  type Id = string

  const NEWLINE: Byte := 10
  const LIMIT: nat := 8 * 1_024 * 1_024

  datatype Value = Text(text: string) | Number(number: int) | Dictionary(fields: map<string, Value>) | Null | Other

  /** The bytes of a line as a JSON dictionary, when they are one. */
  type Parser = seq<Byte> -> Option<map<string, Value>>

  datatype Outcome =
    | Success(value: Value)
    | Rpc(code: int, message: string, data: Option<Value>)
    | InvalidResponse
    | Closed

  datatype Connection = Connection(closed: bool, pending: set<Id>, resumed: map<Id, Outcome>)

  // ----- Messages -----------------------------------------------------------------

  datatype Message = Malformed | Notification | Reply(id: Id, outcome: Outcome)

  function Field(dict: map<string, Value>, name: string): Option<Value> {
    if name in dict then Some(dict[name]) else None
  }

  predicate IsText(value: Option<Value>) {
    value.Some? && value.value.Text?
  }

  function Failure(error: map<string, Value>): Outcome {
    var code := Field(error, "code");
    var message := Field(error, "message");
    Rpc(if code.Some? && code.value.Number? then code.value.number else -32000,
        if IsText(message) then message.value.text else "核心服务调用失败。",
        Field(error, "data"))
  }

  /** What a dictionary means; an error object goes before a result. */
  function Interpret(dict: map<string, Value>): Message {
    var id := Field(dict, "id");
    var error := Field(dict, "error");
    if Field(dict, "jsonrpc") != Some(Text("2.0")) then Malformed
    else if !IsText(id) then (if IsText(Field(dict, "method")) && id.None? then Notification else Malformed)
    else if error.Some? && error.value.Dictionary? then Reply(id.value.text, Failure(error.value.fields))
    else if "result" in dict then Reply(id.value.text, Success(dict["result"]))
    else Reply(id.value.text, InvalidResponse)
  }

  function Meaning(parse: Parser, line: seq<Byte>): Message {
    match parse(line)
    case None => Malformed
    case Some(dict) => Interpret(dict)
  }

  // ----- The connection ---------------------------------------------------------------

  predicate Coherent(c: Connection) {
    c.closed ==> c.pending == {}
  }

  function Finish(c: Connection, id: Id, outcome: Outcome): Connection {
    if id in c.pending then c.(pending := c.pending - {id}, resumed := c.resumed[id := outcome]) else c
  }

  function FailAll(c: Connection, outcome: Outcome): Connection {
    c.(closed := true, pending := {}, resumed := c.resumed + map id | id in c.pending :: outcome)
  }

  function Receive(parse: Parser, c: Connection, line: seq<Byte>): Connection {
    match Meaning(parse, line)
    case Malformed => FailAll(c, InvalidResponse)
    case Notification => c
    case Reply(id, outcome) => Finish(c, id, outcome)
  }

  // ----- The stream as a whole -----------------------------------------------------------

  /** Where the first line ends, or the length when no line is complete. */
  function Cut(stream: seq<Byte>): (k: nat)
    ensures k <= |stream| && NEWLINE !in stream[..k]
    ensures k < |stream| ==> stream[k] == NEWLINE
  {
    if stream == [] || stream[0] == NEWLINE then 0
    else
      var k := Cut(stream[1..]);
      assert stream[..k + 1] == [stream[0]] + stream[1..][..k];
      k + 1
  }

  /** The complete lines of a stream. */
  function Lines(stream: seq<Byte>): seq<seq<Byte>> {
    var k := Cut(stream);
    if k == |stream| then [] else [stream[..k]] + Lines(stream[k + 1..])
  }

  /** What follows the last complete line. */
  function Rest(stream: seq<Byte>): seq<Byte> {
    var k := Cut(stream);
    if k == |stream| then stream else Rest(stream[k + 1..])
  }

  /** The connection once these bytes have come in, in one piece. */
  function Process(parse: Parser, c: Connection, stream: seq<Byte>): Connection
    decreases |stream|
  {
    var k := Cut(stream);
    if k > LIMIT then FailAll(c, InvalidResponse)
    else if k == |stream| then c
    else Process(parse, Receive(parse, c, stream[..k]), stream[k + 1..])
  }

  function Joined(chunks: seq<seq<Byte>>): seq<Byte> {
    if chunks == [] then [] else Joined(chunks[..|chunks| - 1]) + chunks[|chunks| - 1]
  }

  lemma {:induction false} CutPrefix(a: seq<Byte>, b: seq<Byte>)
    ensures Cut(a) < |a| ==> Cut(a + b) == Cut(a)
    ensures Cut(a) == |a| ==> Cut(a + b) == |a| + Cut(b)
  {
    if a == [] {
      assert a + b == b;
    } else {
      assert (a + b)[1..] == a[1..] + b;
      CutPrefix(a[1..], b);
    }
  }

  lemma FirstLine(a: seq<Byte>, b: seq<Byte>)
    requires Cut(a) < |a|
    ensures var k := Cut(a);
      && Lines(a + b) == [a[..k]] + Lines(a[k + 1..] + b) && Rest(a + b) == Rest(a[k + 1..] + b)
      && Lines(a) == [a[..k]] + Lines(a[k + 1..]) && Rest(a) == Rest(a[k + 1..])
  {
    var k := Cut(a);
    CutPrefix(a, b);
    assert (a + b)[..k] == a[..k] && (a + b)[k + 1..] == a[k + 1..] + b;
  }

  lemma {:induction false} RestOfParts(a: seq<Byte>, b: seq<Byte>)
    ensures Rest(a + b) == Rest(Rest(a) + b)
    decreases |a|
  {
    if Cut(a) < |a| {
      FirstLine(a, b);
      RestOfParts(a[Cut(a) + 1..], b);
      hide Lines, Rest, Cut;
    } else {
      assert Rest(a) == a;
    }
  }

  /** Lines may be taken as soon as they are complete. */
  lemma {:induction false} LinesOfParts(a: seq<Byte>, b: seq<Byte>)
    ensures Lines(a + b) == Lines(a) + Lines(Rest(a) + b)
    decreases |a|
  {
    if Cut(a) < |a| {
      FirstLine(a, b);
      LinesOfParts(a[Cut(a) + 1..], b);
      Assoc([a[..Cut(a)]], Lines(a[Cut(a) + 1..]), Lines(Rest(a) + b));
      hide Lines, Rest, Cut;
    } else {
      assert Lines(a) == [] && Rest(a) == a;
      hide Lines, Rest, Cut;
    }
  }

  lemma {:induction false} ClosedProcess(parse: Parser, c: Connection, stream: seq<Byte>)
    requires Coherent(c) && c.closed
    ensures Process(parse, c, stream) == c
    decreases |stream|
  {
    var k := Cut(stream);
    assert FailAll(c, InvalidResponse) == c;
    if k < |stream| && k <= LIMIT { ClosedProcess(parse, c, stream[k + 1..]); }
  }

  lemma {:induction false} ProcessIsCoherent(parse: Parser, c: Connection, stream: seq<Byte>)
    requires Coherent(c)
    ensures Coherent(Process(parse, c, stream))
    decreases |stream|
  {
    var k := Cut(stream);
    if k < |stream| && k <= LIMIT {
      hide Meaning;
      ProcessIsCoherent(parse, Receive(parse, c, stream[..k]), stream[k + 1..]);
    }
  }

  /** Reading in two pieces is reading in one. */
  lemma {:induction false} ProcessInParts(parse: Parser, c: Connection, a: seq<Byte>, b: seq<Byte>)
    requires Coherent(c)
    ensures Process(parse, c, a + b) == Process(parse, Process(parse, c, a), Rest(a) + b)
    decreases |a|
  {
    hide Receive;
    var k := Cut(a);
    CutPrefix(a, b);
    if k > LIMIT {
      ClosedProcess(parse, FailAll(c, InvalidResponse), Rest(a) + b);
    } else if k < |a| {
      FirstLineIsReceived(parse, c, a, b);
      FirstLine(a, b);
      ReceiveIsCoherent(parse, c, a[..k]);
      ProcessInParts(parse, Receive(parse, c, a[..k]), a[k + 1..], b);
      hide Process, Cut, Rest, Lines;
    }
  }

  lemma FirstLineIsReceived(parse: Parser, c: Connection, a: seq<Byte>, b: seq<Byte>)
    requires Cut(a) < |a| && Cut(a) <= LIMIT
    ensures var k := Cut(a);
      && Process(parse, c, a) == Process(parse, Receive(parse, c, a[..k]), a[k + 1..])
      && Process(parse, c, a + b) == Process(parse, Receive(parse, c, a[..k]), a[k + 1..] + b)
  {
    hide Receive;
    var k := Cut(a);
    CutPrefix(a, b);
    assert (a + b)[..k] == a[..k] && (a + b)[k + 1..] == a[k + 1..] + b;
  }

  lemma ReceiveIsCoherent(parse: Parser, c: Connection, line: seq<Byte>)
    requires Coherent(c)
    ensures Coherent(Receive(parse, c, line))
  {
    hide Meaning;
  }

  /** The lines before the first that is over the limit. */
  function WithinLimit(lines: seq<seq<Byte>>): seq<seq<Byte>> {
    if lines == [] || |lines[0]| > LIMIT then [] else [lines[0]] + WithinLimit(lines[1..])
  }

  function ReceiveAll(parse: Parser, c: Connection, lines: seq<seq<Byte>>): Connection
    decreases |lines|
  {
    if lines == [] then c else ReceiveAll(parse, Receive(parse, c, lines[0]), lines[1..])
  }

  /** The lines up to the first overlong one are received, and an overlong one fails the connection. */
  lemma {:induction false} ProcessIsLines(parse: Parser, c: Connection, stream: seq<Byte>)
    ensures var lines := WithinLimit(Lines(stream));
      var d := ReceiveAll(parse, c, lines);
      Process(parse, c, stream)
      == if lines == Lines(stream) && |Rest(stream)| <= LIMIT then d else FailAll(d, InvalidResponse)
    decreases |stream|
  {
    hide Receive;
    var k := Cut(stream);
    if k < |stream| && k <= LIMIT {
      ProcessIsLines(parse, Receive(parse, c, stream[..k]), stream[k + 1..]);
      var rest := Lines(stream[k + 1..]);
      assert Lines(stream)[0] == stream[..k] && Lines(stream)[1..] == rest;
      assert WithinLimit(Lines(stream)) == [stream[..k]] + WithinLimit(rest);
      assert ([stream[..k]] + WithinLimit(rest))[1..] == WithinLimit(rest);
      assert WithinLimit(Lines(stream)) == Lines(stream) <==> WithinLimit(rest) == rest;
    }
  }

  // ----- The read loop ---------------------------------------------------------------------

  method FirstNewline(buffer: seq<Byte>) returns (k: nat)
    ensures k == Cut(buffer)
  {
    k := 0;
    while k < |buffer| && buffer[k] != NEWLINE
      invariant k <= |buffer|
      invariant Cut(buffer) == k + Cut(buffer[k..])
    {
      assert buffer[k..][1..] == buffer[k + 1..];
      k := k + 1;
    }
  }

  /** Takes every complete line out of the buffer; stops early at a line over the limit. */
  method Drain(parse: Parser, start: Connection, bytes: seq<Byte>)
    returns (c: Connection, buffer: seq<Byte>, overlong: bool)
    requires Coherent(start)
    ensures Coherent(c)
    ensures overlong ==> FailAll(c, InvalidResponse) == Process(parse, start, bytes)
    ensures !overlong ==> buffer == Rest(bytes) && Process(parse, c, buffer) == Process(parse, start, bytes)
    ensures !overlong ==> Cut(buffer) == |buffer|
  {
    c, buffer, overlong := start, bytes, false;
    var newline := FirstNewline(buffer);
    while newline < |buffer| && !overlong
      invariant Coherent(c) && newline == Cut(buffer)
      invariant overlong ==> FailAll(c, InvalidResponse) == Process(parse, start, bytes)
      invariant !overlong ==> Rest(buffer) == Rest(bytes) && Process(parse, c, buffer) == Process(parse, start, bytes)
      decreases |buffer|, !overlong
    {
      var line := buffer[..newline];
      if |line| > LIMIT {
        overlong := true;
      } else {
        ReceiveIsCoherent(parse, c, line);
        c := Receive(parse, c, line);
        buffer := buffer[newline + 1..];
        newline := FirstNewline(buffer);
      }
    }
  }

  /**
   Reads a stream that ends after these chunks. The connection ends up as if the
   whole stream had come in at once: chunking has no effect.
   */
  method ReadLoop(parse: Parser, start: Connection, chunks: seq<seq<Byte>>) returns (c: Connection)
    requires Coherent(start)
    ensures c == FailAll(Process(parse, start, Joined(chunks)), Closed)
  {
    c := start;
    var buffer: seq<Byte> := [];
    var i := 0;
    assert chunks[..0] == [];
    while i < |chunks| && !c.closed
      invariant i <= |chunks| && Coherent(c)
      invariant !c.closed ==> buffer == Rest(Joined(chunks[..i])) && Cut(buffer) == |buffer| <= LIMIT
      invariant c == Process(parse, start, Joined(chunks[..i]))
    {
      ghost var before := Joined(chunks[..i]);
      assert chunks[..i + 1][..i] == chunks[..i];
      ProcessInParts(parse, start, before, chunks[i]);
      RestOfParts(before, chunks[i]);
      var overlong;
      c, buffer, overlong := Drain(parse, c, buffer + chunks[i]);
      if overlong || |buffer| > LIMIT { c := FailAll(c, InvalidResponse); }
      i := i + 1;
    }
    if c.closed { WholeStream(parse, start, chunks, i); }
    assert chunks[..|chunks|] == chunks;
    c := FailAll(c, Closed);
  }

  /** A connection that has closed stays as it is for the rest of the stream. */
  lemma {:induction false} WholeStream(parse: Parser, c: Connection, chunks: seq<seq<Byte>>, i: nat)
    requires Coherent(c) && i <= |chunks| && Process(parse, c, Joined(chunks[..i])).closed
    ensures Process(parse, c, Joined(chunks)) == Process(parse, c, Joined(chunks[..i]))
    decreases |chunks|
  {
    if i == |chunks| {
      assert chunks[..i] == chunks;
    } else {
      var init := chunks[..|chunks| - 1];
      assert init[..i] == chunks[..i];
      WholeStream(parse, c, init, i);
      ProcessInParts(parse, c, Joined(init), chunks[|chunks| - 1]);
      ProcessIsCoherent(parse, c, Joined(init));
      ClosedProcess(parse, Process(parse, c, Joined(init)), Rest(Joined(init)) + chunks[|chunks| - 1]);
    }
  }

  // ----- What arrives -----------------------------------------------------------------------

  /** One encoded request: a line within the limit and its newline. */
  predicate IsFrame(frame: seq<Byte>) {
    1 <= |frame| <= LIMIT && frame[|frame| - 1] == NEWLINE && NEWLINE !in frame[..|frame| - 1]
  }

  lemma {:induction false} CutOfLine(line: seq<Byte>)
    requires NEWLINE !in line
    ensures Cut(line) == |line|
  {
    if line != [] { CutOfLine(line[1..]); }
  }

  /** Reading back what was written: one more whole frame is one more line. */
  lemma FrameIsLine(a: seq<Byte>, frame: seq<Byte>)
    requires IsFrame(frame) && Rest(a) == []
    ensures Lines(a + frame) == Lines(a) + [frame[..|frame| - 1]] && Rest(a + frame) == []
  {
    var line := frame[..|frame| - 1];
    assert frame == line + [NEWLINE];
    CutOfLine(line);
    CutPrefix(line, [NEWLINE]);
    LinesOfParts(a, frame);
    RestOfParts(a, frame);
    assert Rest(a) + frame == frame;
    assert Lines(frame) == [line];
  }

  /** An unfinished frame is no line yet. */
  lemma PartIsRest(a: seq<Byte>, part: seq<Byte>)
    requires Rest(a) == [] && NEWLINE !in part
    ensures Lines(a + part) == Lines(a) && Rest(a + part) == part
  {
    CutOfLine(part);
    LinesOfParts(a, part);
    RestOfParts(a, part);
    assert Rest(a) + part == part;
  }

  // ----- What a stream does to the requests ------------------------------------------------------

  predicate IsMalformed(parse: Parser, line: seq<Byte>) {
    match parse(line)
    case None => true
    case Some(dict) =>
      Field(dict, "jsonrpc") != Some(Text("2.0"))
      || (!IsText(Field(dict, "id")) && ("id" in dict || !IsText(Field(dict, "method"))))
  }

  /** The requests that these lines reply to. */
  function Answered(parse: Parser, lines: seq<seq<Byte>>): set<Id> {
    if lines == [] then {}
    else (if Meaning(parse, lines[0]).Reply? then {Meaning(parse, lines[0]).id} else {}) + Answered(parse, lines[1..])
  }

  lemma {:induction false} LinesClose(parse: Parser, c: Connection, lines: seq<seq<Byte>>)
    requires Coherent(c)
    ensures var d := ReceiveAll(parse, c, lines);
      && (d.closed <==> c.closed || exists line :: line in lines && IsMalformed(parse, line))
      && (!d.closed ==> d.pending == c.pending - Answered(parse, lines))
    decreases |lines|
  {
    if lines != [] {
      var line, rest := lines[0], lines[1..];
      assert lines == [line] + rest;
      assert Meaning(parse, line).Malformed? <==> IsMalformed(parse, line);
      ReceiveIsCoherent(parse, c, line);
      LinesClose(parse, Receive(parse, c, line), rest);
      hide Meaning, IsMalformed;
    }
  }

  lemma {:induction false} AllWithin(lines: seq<seq<Byte>>)
    ensures WithinLimit(lines) == lines <==> forall line | line in lines :: |line| <= LIMIT
  {
    if lines != [] {
      AllWithin(lines[1..]);
      assert lines == [lines[0]] + lines[1..];
      if |lines[0]| <= LIMIT { assert ([lines[0]] + WithinLimit(lines[1..]))[1..] == WithinLimit(lines[1..]); }
    }
  }

  /**
   A stream closes an open connection exactly when one of its lines is malformed or
   over the limit, or its unfinished rest is; otherwise it ends exactly the requests
   that its lines reply to.
   */
  lemma StreamCloses(parse: Parser, c: Connection, stream: seq<Byte>)
    requires !c.closed
    ensures var d := Process(parse, c, stream);
      && (d.closed <==> |Rest(stream)| > LIMIT || exists line :: line in Lines(stream) && (|line| > LIMIT || IsMalformed(parse, line)))
      && (!d.closed ==> d.pending == c.pending - Answered(parse, Lines(stream)))
  {
    ProcessIsLines(parse, c, stream);
    AllWithin(Lines(stream));
    LinesClose(parse, c, WithinLimit(Lines(stream)));
    hide Process, Lines, Rest, ReceiveAll, WithinLimit, IsMalformed;
  }

  // ----- What a caller is told --------------------------------------------------------------------

  /** A line that carries this id as a 2.0 message. */
  predicate NamesRequest(parse: Parser, line: seq<Byte>, id: Id) {
    && parse(line).Some? && Field(parse(line).value, "jsonrpc") == Some(Text("2.0"))
    && Field(parse(line).value, "id") == Some(Text(id))
  }

  predicate HasError(dict: map<string, Value>) {
    "error" in dict && dict["error"].Dictionary?
  }

  /** The outcome that the message's own fields give: its error, else its result, else none. */
  predicate SaysOutcome(dict: map<string, Value>, outcome: Outcome) {
    && (outcome.Rpc? <==> HasError(dict))
    && (outcome.Rpc? ==>
          var error := dict["error"].fields;
          && outcome.code == (if "code" in error && error["code"].Number? then error["code"].number else -32000)
          && outcome.message == (if "message" in error && error["message"].Text? then error["message"].text else "核心服务调用失败。")
          && outcome.data == (if "data" in error then Some(error["data"]) else None))
    && (outcome.Success? <==> !HasError(dict) && "result" in dict)
    && (outcome.Success? ==> outcome.value == dict["result"])
    && (outcome == InvalidResponse <==> !HasError(dict) && "result" !in dict)
  }

  lemma LineSays(parse: Parser, c: Connection, line: seq<Byte>, id: Id)
    requires id in c.pending
    ensures var d := Receive(parse, c, line);
      && (NamesRequest(parse, line, id) ==> id !in d.pending && id in d.resumed && SaysOutcome(parse(line).value, d.resumed[id]))
      && (IsMalformed(parse, line) ==> !NamesRequest(parse, line, id) && d.pending == {} && id in d.resumed && d.resumed[id] == InvalidResponse)
      && (!NamesRequest(parse, line, id) && !IsMalformed(parse, line) ==> id in d.pending)
  {
  }

  lemma LaterLinesKeep(parse: Parser, c: Connection, line: seq<Byte>, id: Id)
    requires id !in c.pending && id in c.resumed
    ensures var d := Receive(parse, c, line); id !in d.pending && id in d.resumed && d.resumed[id] == c.resumed[id]
  {
    hide Meaning;
  }

  lemma {:induction false} AllLaterKeep(parse: Parser, c: Connection, lines: seq<seq<Byte>>, id: Id)
    requires id !in c.pending && id in c.resumed
    ensures var d := ReceiveAll(parse, c, lines); id !in d.pending && id in d.resumed && d.resumed[id] == c.resumed[id]
    decreases |lines|
  {
    if lines != [] {
      LaterLinesKeep(parse, c, lines[0], id);
      AllLaterKeep(parse, Receive(parse, c, lines[0]), lines[1..], id);
    }
  }

  /** Line k decides: it names the request or closes the connection, and no line before it does either. */
  predicate Decides(parse: Parser, lines: seq<seq<Byte>>, id: Id, k: nat) {
    && k < |lines| && (NamesRequest(parse, lines[k], id) || IsMalformed(parse, lines[k]))
    && forall j | 0 <= j < k :: !NamesRequest(parse, lines[j], id) && !IsMalformed(parse, lines[j])
  }

  /** A waiting request is ended by the first line that names it or is malformed, as that line says. */
  lemma {:induction false} FirstLineDecides(parse: Parser, c: Connection, lines: seq<seq<Byte>>, id: Id)
    requires id in c.pending
    ensures var d := ReceiveAll(parse, c, lines);
      && (forall k: nat | Decides(parse, lines, id, k) ::
            && id !in d.pending && id in d.resumed
            && if NamesRequest(parse, lines[k], id) then SaysOutcome(parse(lines[k]).value, d.resumed[id]) else d.resumed[id] == InvalidResponse)
      && ((forall k: nat :: !Decides(parse, lines, id, k)) ==> id in d.pending)
    decreases |lines|
  {
    if lines != [] {
      var head, tail, next := lines[0], lines[1..], Receive(parse, c, lines[0]);
      LineSays(parse, c, head, id);
      hide SaysOutcome, Receive;
      if NamesRequest(parse, head, id) || IsMalformed(parse, head) {
        AllLaterKeep(parse, next, tail, id);
        assert Decides(parse, lines, id, 0);
        assert forall k: nat | Decides(parse, lines, id, k) :: k == 0;
      } else {
        FirstLineDecides(parse, next, tail, id);
        forall k: nat ensures Decides(parse, lines, id, k + 1) <==> Decides(parse, tail, id, k) { DecidesInTail(parse, lines, id, k); }
        forall k: nat | Decides(parse, lines, id, k) ensures k > 0 && Decides(parse, tail, id, k - 1) {
          assert k > 0;
          assert Decides(parse, lines, id, (k - 1) + 1);
        }
        hide NamesRequest, IsMalformed;
        assert forall k: nat | Decides(parse, tail, id, k) :: tail[k] == lines[k + 1];
      }
    }
  }

  lemma DecidesInTail(parse: Parser, lines: seq<seq<Byte>>, id: Id, k: nat)
    requires lines != [] && !NamesRequest(parse, lines[0], id) && !IsMalformed(parse, lines[0])
    ensures Decides(parse, lines, id, k + 1) <==> Decides(parse, lines[1..], id, k)
  {
    hide NamesRequest, IsMalformed;
    var tail := lines[1..];
    assert forall j | 0 <= j < |tail| :: tail[j] == lines[j + 1];
    assert forall j | 0 < j < |lines| :: lines[j] == tail[j - 1];
  }

  /**
   What each caller is told by a stream that ends: what the first line says that names its
   request; that the response was invalid, when a malformed or overlong line comes first;
   and otherwise that the connection was closed.
   */
  lemma EveryCallerIsTold(parse: Parser, c: Connection, stream: seq<Byte>, id: Id)
    requires id in c.pending
    ensures var lines, d := WithinLimit(Lines(stream)), FailAll(Process(parse, c, stream), Closed);
      && id !in d.pending && id in d.resumed
      && (forall k: nat | Decides(parse, lines, id, k) ::
            if NamesRequest(parse, lines[k], id) then SaysOutcome(parse(lines[k]).value, d.resumed[id]) else d.resumed[id] == InvalidResponse)
      && ((forall k: nat :: !Decides(parse, lines, id, k)) ==>
            d.resumed[id] == if |Rest(stream)| > LIMIT || (exists line :: line in Lines(stream) && |line| > LIMIT) then InvalidResponse else Closed)
  {
    FirstLineDecides(parse, c, WithinLimit(Lines(stream)), id);
    ProcessIsLines(parse, c, stream);
    AllWithin(Lines(stream));
    hide Process, Lines, Rest, ReceiveAll, WithinLimit, Decides, SaysOutcome, NamesRequest;
  }
}
